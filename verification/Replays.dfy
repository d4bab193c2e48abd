/** What replays contain: the messages of the query, which were all broadcast; when a replay is sent,
    and that it arrives. */
module Replays {
  import opened Seqs
  import opened Names
  import opened Requests
  import opened Framing
  import opened Messages
  import opened Codec
  import opened Registry
  import opened Store
  import opened Server
  import opened Invariant
  import opened Reachable
  import opened Privacy

  // ----- Completeness of replays -----

  lemma RecentFit(sh: Shared, room: string, limit: int)
    requires DbOk(sh) && 1 <= limit <= MAX_LIMIT
    ensures var ms := RecentMessages(sh.db, room, limit);
            |ms| <= MAX_LIMIT && forall i | 0 <= i < |ms| :: ChatFields(ms[i]).Fit()
  {
    var ms := RecentMessages(sh.db, room, limit);
    RecentIsStored(sh.db, room, limit);
    forall i | 0 <= i < |ms| ensures ChatFields(ms[i]).Fit() {
      var r :| r in sh.db.messages && r.message == ms[i];
      var k :| 0 <= k < |sh.db.messages| && sh.db.messages[k] == r;
      assert Keepable(sh.routed, sh.db.messages[k].message);
    }
  }

  lemma PrintedDecodes(env: Env, room: string, ms: seq<ChatMessage>)
    requires PrintsHistories(env) && ms != [] && |ms| <= MAX_LIMIT && forall i | 0 <= i < |ms| :: ChatFields(ms[i]).Fit()
    ensures Decoded(HistoryReply(env, room, ms).payload) == Parsed(ms, "")
  {
    PrintedReads(env, HistoryReply(env, room, ms).payload, ms);
  }

  /** The reply to a query that finds messages decodes to exactly these, none missing and none changed. */
  ghost predicate ReplyExact(env: Env, db: Db, room: string, limit: int) {
    var ms := RecentMessages(db, room, limit);
    ms != [] ==> Decoded(HistoryReply(env, room, ms).payload) == Parsed(ms, "")
  }

  lemma QueryDecodes(env: Env, sh: Shared, room: string, limit: int)
    requires PrintsHistories(env) && DbOk(sh) && 1 <= limit <= MAX_LIMIT
    ensures ReplyExact(env, sh.db, room, limit)
  {
    RecentFit(sh, room, limit);
    if RecentMessages(sh.db, room, limit) != [] {
      PrintedDecodes(env, room, RecentMessages(sh.db, room, limit));
    }
  }

  /** In every reachable state the reply to a history query is exact. */
  lemma ReplayIsExact(env: Env, run: seq<Step>, st: State, room: string, limit: int)
    requires PrintsHistories(env) && After(env, run) == Some(st) && 1 <= limit <= MAX_LIMIT
    ensures ReplyExact(env, st.shared.db, room, limit)
  {
    AlwaysInv(env, run);
    QueryDecodes(env, st.shared, room, limit);
  }

  // ----- The reply reaches the client -----

  lemma {:induction false} OtherSteps(env: Env, run: seq<Step>, others: seq<Step>, s: Sock)
    requires After(env, run + others).Some? && forall i | 0 <= i < |others| :: others[i].socket != s
    ensures After(env, run).Some?
    ensures s in After(env, run).value.threads ==>
              && s in After(env, run + others).value.threads
              && After(env, run + others).value.threads[s].todo == After(env, run).value.threads[s].todo
              && After(env, run + others).value.threads[s].local == After(env, run).value.threads[s].local
    decreases |others|
  {
    if others == [] {
      assert run + others == run;
    } else {
      var front, last := others[..|others| - 1], others[|others| - 1];
      FrontAndLast(others);
      Associative(run, front, [last]);
      AfterOneMore(env, run + front, last);
      OtherSteps(env, run, front, s);
      if s in After(env, run).value.threads {
        OtherStep(env, After(env, run + front).value, last, s);
      }
    }
  }

  lemma QueryLeavesReply(env: Env, st: State, s: Sock)
    requires Inv(env, st) && s in st.threads && st.threads[s].todo != [] && st.threads[s].todo[0].Replay?
    ensures var a, t' := st.threads[s].todo[0], RunBlock(env, st, s, true).threads[s];
            && t'.todo == [Reply(HistoryReply(env, a.room, RecentMessages(st.shared.db, a.room, a.limit)))] + st.threads[s].todo[1..]
            && t'.local.phase == Chatting
  {
    assert ThreadOk(env, st.shared, st.threads[s]);
  }

  lemma ReplyIsReceived(env: Env, st: State, s: Sock, ok: bool)
    requires s in st.threads && st.threads[s].todo != [] && st.threads[s].todo[0].Reply?
    requires st.threads[s].local.phase == Chatting && Sendable(st.threads[s].todo[0].msg)
    ensures RunBlock(env, st, s, ok).threads[s].outbox == st.threads[s].outbox + [st.threads[s].todo[0].msg]
  {
  }

  /** Nothing but other threads' steps lies between two states. */
  ghost predicate Unmoved(st: State, st': State, s: Sock) {
    s in st.threads ==> s in st'.threads && st'.threads[s].todo == st.threads[s].todo && st'.threads[s].local == st.threads[s].local
  }

  /** The last message that a connection has been sent. */
  predicate LastReceived(st: State, s: Sock, m: Msg) {
    s in st.threads && st.threads[s].outbox != [] && st.threads[s].outbox[|st.threads[s].outbox| - 1] == m
  }

  lemma ReplyFollows(env: Env, st: State, s: Sock, between: State, ok: bool)
    requires Inv(env, st) && s in st.threads && st.threads[s].todo != [] && st.threads[s].todo[0].Replay?
    requires Unmoved(RunBlock(env, st, s, true), between, s) && Enabled(between, Run(s, ok))
    ensures var a := st.threads[s].todo[0];
            var reply := HistoryReply(env, a.room, RecentMessages(st.shared.db, a.room, a.limit));
            Sendable(reply) ==> LastReceived(RunBlock(env, between, s, ok), s, reply)
  {
    QueryLeavesReply(env, st, s);
    var m := between.threads[s].todo[0].msg;
    if Sendable(m) {
      ReplyIsReceived(env, between, s, ok);
    }
  }

  lemma MeanwhileUnmoved(env: Env, run: seq<Step>, others: seq<Step>, s: Sock, last: Step)
    requires After(env, (run + others) + [last]).Some? && forall i | 0 <= i < |others| :: others[i].socket != s
    ensures After(env, run).Some? && After(env, run + others).Some? && Enabled(After(env, run + others).value, last)
    ensures Unmoved(After(env, run).value, After(env, run + others).value, s)
    ensures After(env, (run + others) + [last]).value == Next(env, After(env, run + others).value, last)
  {
    AfterOneMore(env, run + others, last);
    OtherSteps(env, run, others, s);
  }

  /** In every run, whatever the other threads do meanwhile, a history query is followed by its reply
      on the connection that asked: the messages of the moment of the query, unless they make a frame
      that is too large. */
  lemma ReplayArrives(env: Env, run: seq<Step>, st: State, s: Sock, others: seq<Step>, ok: bool, st': State)
    requires After(env, run) == Some(st) && s in st.threads && st.threads[s].todo != [] && st.threads[s].todo[0].Replay?
    requires forall i | 0 <= i < |others| :: others[i].socket != s
    requires After(env, ((run + [Run(s, true)]) + others) + [Run(s, ok)]) == Some(st')
    ensures var a := st.threads[s].todo[0];
            var reply := HistoryReply(env, a.room, RecentMessages(st.shared.db, a.room, a.limit));
            Sendable(reply) ==> LastReceived(st', s, reply)
  {
    AlwaysInv(env, run);
    MeanwhileUnmoved(env, run + [Run(s, true)], others, s, Run(s, ok));
    AfterOneMore(env, run, Run(s, true));
    ReplyFollowsMeanwhile(env, st, s, RunBlock(env, st, s, true), After(env, (run + [Run(s, true)]) + others).value, ok, st');
  }

  lemma ReplyFollowsMeanwhile(env: Env, st: State, s: Sock, asked: State, between: State, ok: bool, st': State)
    requires Inv(env, st) && s in st.threads && st.threads[s].todo != [] && st.threads[s].todo[0].Replay?
    requires asked == RunBlock(env, st, s, true) && Unmoved(asked, between, s)
    requires Enabled(between, Run(s, ok)) && st' == Next(env, between, Run(s, ok))
    ensures var a := st.threads[s].todo[0];
            var reply := HistoryReply(env, a.room, RecentMessages(st.shared.db, a.room, a.limit));
            Sendable(reply) ==> LastReceived(st', s, reply)
  {
    ReplyFollows(env, st, s, between, ok);
  }

  // ----- Sizes -----

  function RecordSize(m: ChatMessage): nat {
    |m.room| + |m.username| + |m.content| + 16
  }

  function Total(ms: seq<ChatMessage>): nat {
    if ms == [] then 0 else RecordSize(ms[0]) + Total(ms[1..])
  }

  lemma {:induction false} TotalLength(write: ChatMessage -> string, ms: seq<ChatMessage>)
    requires forall m :: |write(m)| == RecordSize(m)
    ensures |WriteAll(write, ms)| == Total(ms)
  {
    if ms != [] {
      TotalLength(write, ms[1..]);
    }
  }

  lemma RecordLength(f: Fields)
    ensures |WriteRecord(f)| == |f.first| + |f.second| + |f.text| + 16
  {
  }

  lemma HistoryLength(ms: seq<ChatMessage>)
    ensures |HistoryCodec().write(ms)| == 2 + Total(ms)
  {
    var write := ChatCodec().write;
    forall m ensures |write(m)| == RecordSize(m) {
      RecordLength(ChatFields(m));
    }
    TotalLength(write, ms);
  }

  /** A replay is sent exactly if type, count and records fit a frame, and the answer that there is none
      exactly if the room leaves room for 35 bytes; otherwise it is refused. */
  lemma ReplaySentIff(env: Env, room: string, ms: seq<ChatMessage>)
    requires PrintsHistories(env)
    ensures Sendable(HistoryReply(env, room, ms)) <==>
            if ms == [] then 35 + |room| <= 65536 else 3 + Total(ms) <= 65536
  {
    HistoryLength(ms);
  }

  lemma OneSizeMore(n: nat, size: nat)
    requires n > 0
    ensures n * size == size + (n - 1) * size
  {
  }

  lemma {:induction false} TotalBetween(ms: seq<ChatMessage>, least: nat, most: nat)
    requires forall i | 0 <= i < |ms| :: least <= RecordSize(ms[i]) <= most
    ensures |ms| * least <= Total(ms) <= |ms| * most
  {
    if ms != [] {
      TotalBetween(ms[1..], least, most);
      OneSizeMore(|ms|, least);
      OneSizeMore(|ms|, most);
      assert least <= RecordSize(ms[0]) <= most;
    }
  }

  predicate Ordinary(m: ChatMessage) {
    |m.room| <= 44 && |m.username| <= 20 && |m.content| <= 512
  }

  /** A replay of at most fifty rows of ordinary size is always sent. */
  lemma DefaultReplayIsSent(env: Env, room: string, ms: seq<ChatMessage>)
    requires PrintsHistories(env) && ms != [] && |ms| <= DEFAULT_LIMIT
    requires forall i | 0 <= i < |ms| :: Ordinary(ms[i])
    ensures Sendable(HistoryReply(env, room, ms))
  {
    TotalBetween(ms, 0, 592);
    ReplaySentIff(env, room, ms);
  }

  /** A replay of 200 rows of ordinary size can be refused. */
  lemma FullReplayCanBeRefused(env: Env)
    requires PrintsHistories(env)
    ensures exists ms :: |ms| == MAX_LIMIT && (forall i | 0 <= i < |ms| :: Ordinary(ms[i]))
                         && !Sendable(HistoryReply(env, DEFAULT_ROOM, ms))
  {
    var m := ChatMessage(DEFAULT_ROOM, "bob", seq(512, i => 'a'), 0);
    var ms := seq(MAX_LIMIT, i => m);
    TotalBetween(ms, 528, 592);
    ReplaySentIff(env, DEFAULT_ROOM, ms);
  }

  /** `encode_chat_message` is the printer in use. */
  ghost predicate PrintsChats(env: Env) {
    forall m :: env.chat(m) == ChatCodec().write(m)
  }

  /** A chat message is sent exactly if its type byte and its record fit a frame. */
  lemma ChatSentIff(env: Env, m: ChatMessage)
    requires PrintsChats(env)
    ensures Sendable(ChatNote(env, m)) <==> 1 + RecordSize(m) <= 65536
  {
    RecordLength(ChatFields(m));
  }

  // ----- Only what fits is received -----

  ghost predicate OutboxesFit(st: State) {
    forall s | s in st.threads :: forall i | 0 <= i < |st.threads[s].outbox| :: Sendable(st.threads[s].outbox[i])
  }

  lemma StepFits(env: Env, st: State, step: Step)
    requires OutboxesFit(st) && Enabled(st, step)
    ensures OutboxesFit(Next(env, st, step))
  {
    if step.Run? {
      var s := step.socket;
      var threads := st.threads[s := Advanced(env, st.shared, s, st.threads[s], step.ok)];
      DeliveredKeys(threads, Sent(s, st.threads[s].todo[0]));
      forall r | r in Next(env, st, step).threads
        ensures forall i | 0 <= i < |Next(env, st, step).threads[r].outbox| :: Sendable(Next(env, st, step).threads[r].outbox[i])
      {
        DeliveredThread(threads, Sent(s, st.threads[s].todo[0]), r);
      }
    }
  }

  lemma {:induction false} AlwaysSendable(env: Env, run: seq<Step>)
    requires After(env, run).Some?
    ensures OutboxesFit(After(env, run).value)
  {
    if run != [] {
      var front := run[..|run| - 1];
      AlwaysSendable(env, front);
      StepFits(env, After(env, front).value, run[|run| - 1]);
    }
  }

  // ----- What is kept was broadcast -----

  ghost predicate PendingAir(threads: map<Sock, Thread>, m: ChatMessage) {
    exists s :: s in threads && threads[s].todo != [] && threads[s].todo[0].Air? && threads[s].todo[0].message == m
  }

  /** The message has been broadcast, or that is the next block of a thread. */
  ghost predicate OnAir(st: State, m: ChatMessage) {
    m in st.shared.aired || PendingAir(st.threads, m)
  }

  /** The row was stored for this message, which has been, or is about to be, broadcast. */
  ghost predicate Source(st: State, row: ChatMessage, m: ChatMessage) {
    OnAir(st, m) && Stored(m) == row
  }

  ghost predicate HasSource(st: State, row: ChatMessage) {
    exists m :: Source(st, row, m)
  }

  /** Every message kept for a room is one whose broadcast there has been started, or is about to be:
      that is the next block of the thread that stored it. */
  ghost predicate AiredOk(st: State) {
    forall i | 0 <= i < |st.shared.db.messages| ::
      ChatRoom(st.shared.db.messages[i].message.room) ==> HasSource(st, st.shared.db.messages[i].message)
  }

  lemma StillOnAir(env: Env, st: State, step: Step, m: ChatMessage)
    requires Enabled(st, step) && OnAir(st, m)
    ensures OnAir(Next(env, st, step), m)
  {
    if PendingAir(st.threads, m) {
      var r :| r in st.threads && st.threads[r].todo != [] && st.threads[r].todo[0].Air? && st.threads[r].todo[0].message == m;
      StillAiring(env, st, step, r, m);
    }
  }

  lemma StillAiring(env: Env, st: State, step: Step, r: Sock, m: ChatMessage)
    requires Enabled(st, step) && r in st.threads
    requires st.threads[r].todo != [] && st.threads[r].todo[0].Air? && st.threads[r].todo[0].message == m
    ensures OnAir(Next(env, st, step), m)
  {
    if step.socket != r {
      OtherStep(env, st, step, r);
    }
  }

  lemma StillSource(env: Env, st: State, step: Step, row: ChatMessage)
    requires Enabled(st, step) && HasSource(st, row)
    ensures HasSource(Next(env, st, step), row)
  {
    var m :| Source(st, row, m);
    StillOnAir(env, st, step, m);
    assert Source(Next(env, st, step), row, m);
  }

  lemma AirIsNext(phase: Phase, todo: seq<Action>)
    requires Shaped(phase, todo) && todo != [] && StoresChat(todo[0])
    ensures |todo| > 1 && todo[1].Air? && todo[1].message == todo[0].message
  {
  }

  lemma NewSource(env: Env, st: State, s: Sock)
    requires Inv(env, st) && s in st.threads && st.threads[s].todo != [] && StoresChat(st.threads[s].todo[0])
    ensures HasSource(RunBlock(env, st, s, true), Stored(st.threads[s].todo[0].message))
  {
    var t, st' := st.threads[s], RunBlock(env, st, s, true);
    assert ThreadOk(env, st.shared, t);
    AirIsNext(t.local.phase, t.todo);
    TodoAfter(env, st, s, true, s);
    assert [] + t.todo[1..] == t.todo[1..];
    assert PendingAir(st'.threads, t.todo[0].message);
    assert Source(st', Stored(t.todo[0].message), t.todo[0].message);
  }

  lemma MessagesAfter(env: Env, sh: Shared, s: Sock, a: Action, ok: bool)
    ensures SharedAfter(env, sh, s, a, ok).db.messages ==
            if a.StoreMessage? && ok then sh.db.messages + [MessageRow(|sh.db.messages| + 1, Stored(a.message))] else sh.db.messages
  {
  }

  lemma RunAirs(env: Env, st: State, s: Sock, ok: bool)
    requires Inv(env, st) && AiredOk(st) && s in st.threads && st.threads[s].todo != []
    ensures AiredOk(RunBlock(env, st, s, ok))
  {
    var a, st' := st.threads[s].todo[0], RunBlock(env, st, s, ok);
    MessagesAfter(env, st.shared, s, a, ok);
    forall i | 0 <= i < |st'.shared.db.messages| && ChatRoom(st'.shared.db.messages[i].message.room)
      ensures HasSource(st', st'.shared.db.messages[i].message)
    {
      if i < |st.shared.db.messages| {
        assert st.shared.db.messages[i] == st'.shared.db.messages[i];
        StillSource(env, st, Run(s, ok), st.shared.db.messages[i].message);
      } else {
        NewSource(env, st, s);
      }
    }
  }

  lemma StepAirs(env: Env, st: State, step: Step)
    requires Inv(env, st) && AiredOk(st) && Enabled(st, step)
    ensures AiredOk(Next(env, st, step))
  {
    if step.Run? {
      RunAirs(env, st, step.socket, step.ok);
    } else {
      var messages := st.shared.db.messages;
      forall i | 0 <= i < |messages| && ChatRoom(messages[i].message.room) ensures HasSource(Next(env, st, step), messages[i].message) {
        StillSource(env, st, step, messages[i].message);
      }
    }
  }

  lemma {:induction false} AlwaysAired(env: Env, run: seq<Step>)
    requires After(env, run).Some?
    ensures AiredOk(After(env, run).value)
  {
    if run != [] {
      var front := run[..|run| - 1];
      AlwaysAired(env, front);
      AlwaysInv(env, front);
      StepAirs(env, After(env, front).value, run[|run| - 1]);
    }
  }

  lemma KeptHasSource(st: State, row: ChatMessage)
    requires AiredOk(st) && Kept(st.shared.db, row) && ChatRoom(row.room)
    ensures HasSource(st, row)
  {
    var r :| r in st.shared.db.messages && r.message == row;
    var n :| 0 <= n < |st.shared.db.messages| && st.shared.db.messages[n] == r;
  }

  /** The row holds a message whose broadcast puts its frame on the wire. */
  ghost predicate Heard(env: Env, st: State, row: ChatMessage) {
    exists m :: Source(st, row, m) && Sendable(ChatNote(env, m))
  }

  /** The row holds what the database kept of a message whose frames are all refused. */
  ghost predicate TooLong(st: State, row: ChatMessage) {
    exists m :: Source(st, row, m) && 1 + RecordSize(m) > MAX_PAYLOAD
  }

  /** In every reachable state, each message kept for a room has been broadcast in frames that were
      sent, or is about to be; or its frame exceeds the cap, and nobody is sent it. */
  lemma KeptWasHeard(env: Env, run: seq<Step>, st: State, row: ChatMessage)
    requires PrintsChats(env) && After(env, run) == Some(st) && Kept(st.shared.db, row) && ChatRoom(row.room)
    ensures Heard(env, st, row) || TooLong(st, row)
  {
    AlwaysAired(env, run);
    KeptHasSource(st, row);
    var m :| Source(st, row, m);
    ChatSentIff(env, m);
  }

  /** The row holds only a part of a message whose frames are all refused: what is before a NUL. */
  ghost predicate CutFromTooLong(st: State, row: ChatMessage) {
    exists m :: Source(st, row, m) && m != row && 1 + RecordSize(m) > MAX_PAYLOAD
  }

  lemma {:induction false} TotalOfMember(ms: seq<ChatMessage>, m: ChatMessage)
    requires m in ms
    ensures RecordSize(m) <= Total(ms)
  {
    if ms[0] != m {
      assert m in ms[1..];
      TotalOfMember(ms[1..], m);
    }
  }

  lemma ShortIsHeard(env: Env, st: State, row: ChatMessage)
    requires PrintsChats(env) && HasSource(st, row) && 1 + RecordSize(row) <= MAX_PAYLOAD
    ensures Heard(env, st, row) || CutFromTooLong(st, row)
  {
    var m :| Source(st, row, m);
    ChatSentIff(env, m);
  }

  ghost predicate AllHeard(env: Env, st: State, ms: seq<ChatMessage>) {
    forall row | row in ms && ChatRoom(row.room) :: Heard(env, st, row) || CutFromTooLong(st, row)
  }

  ghost predicate DecodesHeard(env: Env, st: State, payload: string) {
    Decoded(payload).Parsed? && AllHeard(env, st, Decoded(payload).value)
  }

  /** What a frame within the cap replays is itself within the cap. */
  lemma ReplayedIsShort(payload: string, ms: seq<ChatMessage>, row: ChatMessage)
    requires 1 + |payload| <= MAX_PAYLOAD && payload == HistoryCodec().write(ms) && row in ms
    ensures 1 + RecordSize(row) <= MAX_PAYLOAD
  {
    HistoryLength(ms);
    TotalOfMember(ms, row);
  }

  lemma ReplayedAreHeard(env: Env, st: State, user: string, m: Msg)
    requires PrintsHistories(env) && PrintsChats(env) && AiredOk(st) && m.kind == History && Sendable(m)
    requires MayReceive(env, st.shared, user, m)
    ensures DecodesHeard(env, st, m.payload)
  {
    var ms :| m.payload == env.history(ms) && Replayable(st.shared, user, ms);
    WrittenDecodes(env, st.shared, user, m.payload, ms);
    forall row: ChatMessage | row in ms && ChatRoom(row.room) ensures Heard(env, st, row) || CutFromTooLong(st, row) {
      var k :| 0 <= k < |ms| && ms[k] == row;
      assert Kept(st.shared.db, ms[k]);
      KeptHasSource(st, row);
      ReplayedIsShort(m.payload, ms, row);
      ShortIsHeard(env, st, row);
    }
  }

  /** Each message that a member decodes from the replay of a room is, field for field, one that was
      broadcast live in that room in frames that were sent, or whose broadcast is the next thing its
      sender's thread does.  The exception is a text cut at a NUL, whose whole was too long to send. */
  lemma ReplayWasBroadcast(env: Env, run: seq<Step>, st: State, s: Sock, i: nat)
    requires PrintsHistories(env) && PrintsChats(env) && After(env, run) == Some(st) && s in st.threads
    requires i < |st.threads[s].outbox| && st.threads[s].outbox[i].kind == History
    ensures DecodesHeard(env, st, st.threads[s].outbox[i].payload)
  {
    AlwaysAired(env, run);
    AlwaysInv(env, run);
    AlwaysSendable(env, run);
    HistoryHeard(env, st, s, i);
  }

  lemma HistoryHeard(env: Env, st: State, s: Sock, i: nat)
    requires PrintsHistories(env) && PrintsChats(env) && Inv(env, st) && AiredOk(st) && OutboxesFit(st) && s in st.threads
    requires i < |st.threads[s].outbox| && st.threads[s].outbox[i].kind == History
    ensures DecodesHeard(env, st, st.threads[s].outbox[i].payload)
  {
    var t := st.threads[s];
    assert ThreadOk(env, st.shared, t);
    ReplayedAreHeard(env, st, t.local.username, t.outbox[i]);
  }
}
