/** From a frame that a client sends to what comes of it, in every run: what each connection is sent, what
    is kept, and what the registry says, whatever the other threads do meanwhile. */
module Exchanges {
  import opened Text
  import opened Names
  import opened Requests
  import opened Messages
  import opened Codec
  import opened Registry
  import opened Store
  import opened Server
  import opened Invariant
  import opened Reachable
  import opened Guarantees
  import opened Sending
  import opened Delivery
  import opened Serving

  // ----- A frame is read -----

  /** A frame of this type with this payload. */
  predicate Carrying(input: Input, kind: MsgType, payload: string) {
    input.Arrived? && DecodeMessage(input.data) == Some(Msg(kind, payload))
  }

  /** As the client makes it. */
  lemma EncodedCarries(kind: MsgType, payload: string, salt: string, now: Int64)
    requires Proper(kind)
    ensures Carrying(Arrived(EncodeMessage(Msg(kind, payload)), salt, now), kind, payload)
  {
    FrameDecodes(kind, payload);
  }

  /** A thread that waits reads this, and after `more` it waits again. */
  ghost predicate Reading(env: Env, run: seq<Step>, st: State, s: Sock, input: Input, more: seq<Step>, st': State) {
    && After(env, run) == Some(st) && s in st.threads && AtRead(st.threads[s]) && InputOk(input)
    && After(env, (run + [Receive(s, input)]) + more) == Some(st') && s in st'.threads && st'.threads[s].todo == []
  }

  lemma ReadWorks(env: Env, run: seq<Step>, st: State, s: Sock, input: Input, more: seq<Step>, st': State)
    requires Reading(env, run, st, s, input, more, st')
    ensures var st1 := Next(env, st, Receive(s, input));
            && Works(env, run + [Receive(s, input)], st1, more, st', s, Handle(s, st.threads[s].local, input))
            && s in st1.threads && st1.threads[s].outbox == st.threads[s].outbox && st1.threads[s].local == st.threads[s].local
  {
    BeforeMore(env, run + [Receive(s, input)], more, s);
    AfterOneMore(env, run, Receive(s, input));
  }

  // ----- /quit, and the end of a connection -----

  function Goodbye(username: string): Msg {
    Note("Goodbye, " + username + "!")
  }

  lemma ClosesAtLast(env: Env, run: seq<Step>, st: State, more: seq<Step>, st': State, s: Sock, pre: seq<Action>)
    requires Works(env, run, st, more, st', s, pre + ([Close] + []))
    ensures st'.threads[s].local.phase == Closed && !Listed(st'.shared.clients, s)
  {
    var k, mid, ok := BlockIsRun(env, run, st, more, st', s, pre, Close, []);
    RunGoesOn(env, run, more, s, Close, [], k, mid, ok);
    DeliveredThread(mid.threads[s := Advanced(env, mid.shared, s, mid.threads[s], ok)], Sent(s, Close), s);
    ClosedForGood(env, (run + more[..k]) + [Run(s, ok)], RunBlock(env, mid, s, ok), more[k + 1..], st', s);
    RegistryIsExact(env, run + more, st', s);
  }

  lemma DepartureParts(username: string, room: string, pre: seq<Action>)
    ensures var left := Broadcast(room, Note(username + " left " + room), None);
            && pre + Departure(username, room) == (pre + [Leave]) + ([left] + [Close])
            && pre + Departure(username, room) == (pre + [Leave, left]) + ([Close] + [])
  {
  }

  /** A thread in the chat that says this first has said it, if the frame is within the cap. */
  lemma SaidFirst(env: Env, run: seq<Step>, st: State, more: seq<Step>, st': State, s: Sock, m: Msg, post: seq<Action>)
    requires Works(env, run, st, more, st', s, [Reply(m)] + post) && st.threads[s].local.phase == Chatting && Sendable(m)
    ensures m in st'.threads[s].outbox
  {
    assert [] + ([Reply(m)] + post) == [Reply(m)] + post;
    var k, mid, ok := BlockIsRun(env, run, st, more, st', s, [], Reply(m), post);
    RunGoesOn(env, run, more, s, Reply(m), post, k, mid, ok);
    SenderKeepsLocal(env, mid, s, ok);
    SendDelivers(env, mid, s, ok, s, m);
    BeforeMore(env, (run + more[..k]) + [Run(s, ok)], more[k + 1..], s);
    var before, after := RunBlock(env, mid, s, ok).threads[s].outbox, st'.threads[s].outbox;
    assert m in before;
    var i :| 0 <= i < |before| && before[i] == m;
    assert after[i] == m;
  }

  /** All who were in the room when the one who leaves was out of it have been told. */
  ghost predicate ToldOnLeaving(env: Env, run: seq<Step>, more: seq<Step>, st': State, s: Sock, a: Action)
    requires a.Broadcast? || a.Air?
  {
    exists post, k, mid, ok ::
      && RunIn(env, run, more, s, a, post, k, mid, ok) && AllTold(mid, st', Audience(a), a.exclude, Addressed(a, env))
      && !Listed(mid.shared.clients, s)
  }

  /** Only a thread that has left has a broadcast and then the closing of the connection ahead. */
  lemma LeavingPhase(phase: Phase, todo: seq<Action>)
    requires Shaped(phase, todo) && |todo| == 2 && todo[0].Broadcast? && todo[1] == Close
    ensures phase != Chatting
  {
    assert todo[1..][0] == Close;
  }

  lemma ReachableShaped(env: Env, run: seq<Step>, st: State, s: Sock)
    requires After(env, run) == Some(st) && s in st.threads
    ensures Shaped(st.threads[s].local.phase, st.threads[s].todo)
  {
    AlwaysInv(env, run);
    assert ThreadOk(env, st.shared, st.threads[s]);
  }

  lemma LeavingIsUnlisted(env: Env, run: seq<Step>, mid: State, s: Sock, a: Action)
    requires After(env, run) == Some(mid) && s in mid.threads && mid.threads[s].todo == [a] + [Close] && a.Broadcast?
    ensures !Listed(mid.shared.clients, s)
  {
    ReachableShaped(env, run, mid, s);
    LeavingPhase(mid.threads[s].local.phase, mid.threads[s].todo);
    RegistryIsExact(env, run, mid, s);
  }

  lemma LeftTold(env: Env, run: seq<Step>, st: State, more: seq<Step>, st': State, s: Sock, pre: seq<Action>, left: Action)
    requires Works(env, run, st, more, st', s, pre + ([left] + [Close])) && left.Broadcast?
    ensures ToldOnLeaving(env, run, more, st', s, left)
  {
    var k, mid, ok := BlockIsRun(env, run, st, more, st', s, pre, left, [Close]);
    SnapshotTold(env, run, more, st', s, left, [Close], k, mid, ok);
    LeavingIsUnlisted(env, run + more[..k], mid, s, left);
  }

  /** Whoever sends a Quit frame, with whatever in it, or is gone: in every later state in which its thread
      has nothing left to do, its connection is closed and its entry erased, and all who were in its room
      after that have been told. */
  lemma QuitLeaves(env: Env, run: seq<Step>, st: State, s: Sock, input: Input, more: seq<Step>, st': State)
    requires Reading(env, run, st, s, input, more, st') && st.threads[s].local.phase == Chatting
    requires input.Disconnected? || exists payload :: Carrying(input, Quit, payload)
    ensures var local := st.threads[s].local;
            && st'.threads[s].local.phase == Closed && !Listed(st'.shared.clients, s)
            && ToldOnLeaving(env, run + [Receive(s, input)], more, st', s,
                             Broadcast(local.room, Note(local.username + " left " + local.room), None))
            && (input.Arrived? && Sendable(Goodbye(local.username)) ==> Goodbye(local.username) in st'.threads[s].outbox)
  {
    var local, st1, run1 := st.threads[s].local, Next(env, st, Receive(s, input)), run + [Receive(s, input)];
    var pre := if input.Arrived? then [Reply(Goodbye(local.username))] else [];
    ReadWorks(env, run, st, s, input, more, st');
    DepartureParts(local.username, local.room, pre);
    assert [] + Departure(local.username, local.room) == Departure(local.username, local.room);
    var left := Broadcast(local.room, Note(local.username + " left " + local.room), None);
    ClosesAtLast(env, run1, st1, more, st', s, pre + [Leave, left]);
    LeftTold(env, run1, st1, more, st', s, pre + [Leave], left);
    if input.Arrived? && Sendable(Goodbye(local.username)) {
      SaidFirst(env, run1, st1, more, st', s, Goodbye(local.username), Departure(local.username, local.room));
    }
  }

  // ----- Frames with one answer -----

  lemma OneReply(env: Env, run: seq<Step>, st: State, s: Sock, input: Input, more: seq<Step>, st': State, m: Msg)
    requires Reading(env, run, st, s, input, more, st') && Handle(s, st.threads[s].local, input) == [Reply(m)]
    ensures Reached(st', s, m, |st.threads[s].outbox|)
  {
    ReadWorks(env, run, st, s, input, more, st');
    assert [] + ([Reply(m)] + []) == [Reply(m)];
    ReplyReaches(env, run + [Receive(s, input)], Next(env, st, Receive(s, input)), more, st', s, [], m, []);
  }

  /** The empty frame. */
  lemma MalformedIsRefused(env: Env, run: seq<Step>, st: State, s: Sock, input: Input, more: seq<Step>, st': State)
    requires Reading(env, run, st, s, input, more, st') && st.threads[s].local.phase == Chatting
    requires input.Arrived? && input.data == ""
    ensures Reached(st', s, Note("Received a malformed message."), |st.threads[s].outbox|)
  {
    OneReply(env, run, st, s, input, more, st', Note(MALFORMED));
  }

  lemma UnsupportedHandle(s: Sock, local: Local, input: Input, m: Msg)
    requires input.Arrived? && DecodeMessage(input.data) == Some(m) && local.phase == Chatting
    requires m.kind !in [Chat, Join, HistoryReq, RoomsReq, Direct, UsersReq, Quit]
    ensures Handle(s, local, input) == [Reply(Note("Unsupported message type."))]
  {
  }

  /** A frame of a type that clients do not send. */
  lemma UnsupportedIsRefused(env: Env, run: seq<Step>, st: State, s: Sock, input: Input, m: Msg, more: seq<Step>, st': State)
    requires Reading(env, run, st, s, input, more, st') && st.threads[s].local.phase == Chatting
    requires input.Arrived? && DecodeMessage(input.data) == Some(m)
    requires m.kind !in [Chat, Join, HistoryReq, RoomsReq, Direct, UsersReq, Quit]
    ensures Reached(st', s, Note("Unsupported message type."), |st.threads[s].outbox|)
  {
    UnsupportedHandle(s, st.threads[s].local, input, m);
    OneReply(env, run, st, s, input, more, st', Note("Unsupported message type."));
  }

  /** What a query that is run on this database is answered with; it finds nothing if the call fails. */
  function QueryReply(env: Env, db: Db, key: string, limit: int, ok: bool): Msg {
    var rows := if ok then RecentMessages(db, key, limit) else [];
    if rows == [] then Note("No message history in room '" + key + "' yet.") else Msg(History, env.history(rows))
  }

  lemma QueryNext(env: Env, sh: Shared, s: Sock, key: string, limit: int, ok: bool)
    ensures NextBlocks(env, sh, s, Replay(key, limit), ok) == [Reply(QueryReply(env, sh.db, key, limit, ok))]
  {
  }

  /** The thread has answered with what the query finds when it runs. */
  ghost predicate Replayed(env: Env, run: seq<Step>, more: seq<Step>, st': State, s: Sock, key: string, limit: int, base: nat) {
    exists post, k, mid, ok ::
      && RunIn(env, run, more, s, Replay(key, limit), post, k, mid, ok)
      && Reached(st', s, QueryReply(env, mid.shared.db, key, limit, ok), base)
  }

  lemma ReplayReaches(env: Env, run: seq<Step>, st: State, more: seq<Step>, st': State, s: Sock,
                      pre: seq<Action>, key: string, limit: int, post: seq<Action>)
    requires Works(env, run, st, more, st', s, pre + ([Replay(key, limit)] + post))
    ensures Replayed(env, run, more, st', s, key, limit, |st.threads[s].outbox|)
  {
    var a := Replay(key, limit);
    var k, mid, ok := BlockIsRun(env, run, st, more, st', s, pre, a, post);
    QueryReaches(env, run, st, more, st', s, key, limit, post, k, mid, ok);
  }

  lemma QueryReaches(env: Env, run: seq<Step>, st: State, more: seq<Step>, st': State, s: Sock,
                     key: string, limit: int, post: seq<Action>, k: nat, mid: State, ok: bool)
    requires After(env, run) == Some(st) && s in st.threads && After(env, run + more) == Some(st')
    requires s in st'.threads && st'.threads[s].todo == [] && RunIn(env, run, more, s, Replay(key, limit), post, k, mid, ok)
    ensures Reached(st', s, QueryReply(env, mid.shared.db, key, limit, ok), |st.threads[s].outbox|)
  {
    QueryNext(env, mid.shared, s, key, limit, ok);
    AnswerReaches(env, run, st, more, st', s, Replay(key, limit), post, k, mid, ok, QueryReply(env, mid.shared.db, key, limit, ok));
  }

  lemma OneBlock(env: Env, run: seq<Step>, st: State, s: Sock, input: Input, more: seq<Step>, st': State, a: Action)
    returns (k: nat, mid: State, ok: bool)
    requires Reading(env, run, st, s, input, more, st') && Handle(s, st.threads[s].local, input) == [a]
    ensures RunIn(env, run + [Receive(s, input)], more, s, a, [], k, mid, ok)
  {
    ReadWorks(env, run, st, s, input, more, st');
    assert [] + ([a] + []) == [a];
    k, mid, ok := BlockIsRun(env, run + [Receive(s, input)], Next(env, st, Receive(s, input)), more, st', s, [], a, []);
  }

  lemma OneAnswer(env: Env, run: seq<Step>, st: State, s: Sock, input: Input, more: seq<Step>, st': State,
                  a: Action, k: nat, mid: State, ok: bool, m: Msg)
    requires Reading(env, run, st, s, input, more, st')
    requires RunIn(env, run + [Receive(s, input)], more, s, a, [], k, mid, ok)
    requires Sent(s, a).None? && NextBlocks(env, mid.shared, s, a, ok) == [Reply(m)]
    ensures Reached(st', s, m, |st.threads[s].outbox|)
  {
    ReadWorks(env, run, st, s, input, more, st');
    AnswerReaches(env, run + [Receive(s, input)], Next(env, st, Receive(s, input)), more, st', s, a, [], k, mid, ok, m);
  }

  lemma HistoryHandle(s: Sock, local: Local, input: Input, payload: string)
    requires Carrying(input, HistoryReq, payload) && local.phase == Chatting
    ensures match ReadHistoryRequest(payload)
            case Usage => Handle(s, local, input) == [Reply(Note("Usage: /dmhistory <user> [N]"))]
            case OfRoom(n) => Handle(s, local, input) == [Replay(local.room, n)]
            case OfThread(user, n) => Handle(s, local, input) == [Replay(DmKey(local.username, user), n)]
  {
  }

  /** `/history`: with nothing or a number for the room one is in, with `@user` and perhaps a number for
      the direct messages with that user; otherwise the usage. */
  lemma HistoryIsAnswered(env: Env, run: seq<Step>, st: State, s: Sock, input: Input, payload: string, more: seq<Step>, st': State)
    requires Reading(env, run, st, s, input, more, st') && st.threads[s].local.phase == Chatting
    requires Carrying(input, HistoryReq, payload)
    ensures var local, run1, base := st.threads[s].local, run + [Receive(s, input)], |st.threads[s].outbox|;
            match ReadHistoryRequest(payload)
            case Usage => Reached(st', s, Note("Usage: /dmhistory <user> [N]"), base)
            case OfRoom(n) => Replayed(env, run1, more, st', s, local.room, n, base)
            case OfThread(user, n) => Replayed(env, run1, more, st', s, DmKey(local.username, user), n, base)
  {
    var local := st.threads[s].local;
    HistoryHandle(s, local, input, payload);
    match ReadHistoryRequest(payload)
    case Usage => OneReply(env, run, st, s, input, more, st', Note("Usage: /dmhistory <user> [N]"));
    case OfRoom(n) => OneReplay(env, run, st, s, input, more, st', local.room, n);
    case OfThread(user, n) => OneReplay(env, run, st, s, input, more, st', DmKey(local.username, user), n);
  }

  lemma OneReplay(env: Env, run: seq<Step>, st: State, s: Sock, input: Input, more: seq<Step>, st': State, key: string, limit: int)
    requires Reading(env, run, st, s, input, more, st') && Handle(s, st.threads[s].local, input) == [Replay(key, limit)]
    ensures Replayed(env, run + [Receive(s, input)], more, st', s, key, limit, |st.threads[s].outbox|)
  {
    ReadWorks(env, run, st, s, input, more, st');
    assert [] + ([Replay(key, limit)] + []) == [Replay(key, limit)];
    ReplayReaches(env, run + [Receive(s, input)], Next(env, st, Receive(s, input)), more, st', s, [], key, limit, []);
  }

  /** The list of the names that the registry has for the room. */
  function NamesReply(env: Env, clients: seq<ClientInfo>, room: string): Msg {
    Msg(UsersList, env.users(UsersIn(clients, room)))
  }

  lemma NamesNext(env: Env, sh: Shared, s: Sock, room: string, ok: bool)
    ensures NextBlocks(env, sh, s, ListUsers(room), ok) == [Reply(NamesReply(env, sh.clients, room))]
  {
  }

  /** The names in the room when the block runs have been sent as a list. */
  ghost predicate NamesSent(env: Env, run: seq<Step>, more: seq<Step>, st': State, s: Sock, room: string, base: nat) {
    exists k: nat, mid, ok ::
      && RunIn(env, run, more, s, ListUsers(room), [], k, mid, ok)
      && Reached(st', s, NamesReply(env, mid.shared.clients, room), base)
  }

  lemma OneList(env: Env, run: seq<Step>, st: State, s: Sock, input: Input, more: seq<Step>, st': State, room: string)
    requires Reading(env, run, st, s, input, more, st') && Handle(s, st.threads[s].local, input) == [ListUsers(room)]
    ensures NamesSent(env, run + [Receive(s, input)], more, st', s, room, |st.threads[s].outbox|)
  {
    var k, mid, ok := OneBlock(env, run, st, s, input, more, st', ListUsers(room));
    NamesNext(env, mid.shared, s, room, ok);
    OneAnswer(env, run, st, s, input, more, st', ListUsers(room), k, mid, ok, NamesReply(env, mid.shared.clients, room));
  }

  /** The room that `/who` asks for: without a name one's own. */
  function RoomAsked(room: string, payload: string): string {
    if Trim(payload) == "" then room else SanitizeRoom(payload)
  }

  lemma WhoHandle(s: Sock, local: Local, input: Input, payload: string)
    requires Carrying(input, UsersReq, payload) && local.phase == Chatting
    ensures Handle(s, local, input) == [ListUsers(RoomAsked(local.room, payload))]
  {
  }

  lemma WhoIsAnswered(env: Env, run: seq<Step>, st: State, s: Sock, input: Input, payload: string, more: seq<Step>, st': State)
    requires Reading(env, run, st, s, input, more, st') && st.threads[s].local.phase == Chatting
    requires Carrying(input, UsersReq, payload)
    ensures NamesSent(env, run + [Receive(s, input)], more, st', s, RoomAsked(st.threads[s].local.room, payload), |st.threads[s].outbox|)
  {
    WhoHandle(s, st.threads[s].local, input, payload);
    OneList(env, run, st, s, input, more, st', RoomAsked(st.threads[s].local.room, payload));
  }

  // ----- /rooms -----

  function RoomsReply(clients: seq<ClientInfo>, db: Db, ok: bool): Msg {
    Note(RoomList(clients, if ok then ListRooms(db, 200) else []))
  }

  lemma RoomsNext(env: Env, sh: Shared, s: Sock, clients: seq<ClientInfo>, ok: bool)
    ensures NextBlocks(env, sh, s, ListRoomsFor(clients), ok) == [Reply(RoomsReply(clients, sh.db, ok))]
  {
  }

  /** The clients of one moment and the rooms stored at a later one have been sent as a list. */
  ghost predicate RoomsSent(env: Env, run: seq<Step>, more: seq<Step>, st': State, s: Sock, base: nat) {
    exists k, counted, ok', k', mid, ok ::
      && k < k' && RunIn(env, run, more, s, CountClients, [], k, counted, ok')
      && RunIn(env, run, more, s, ListRoomsFor(counted.shared.clients), [], k', mid, ok)
      && Reached(st', s, RoomsReply(counted.shared.clients, mid.shared.db, ok), base)
  }

  lemma CutBehind(run: seq<Step>, more: seq<Step>, j: nat, k: nat)
    requires j + k <= |more|
    ensures (run + more[..j]) + more[j..][..k] == run + more[..j + k]
  {
  }

  lemma RunInBehind(env: Env, run: seq<Step>, more: seq<Step>, j: nat, s: Sock, a: Action, post: seq<Action>, k: nat, mid: State, ok: bool)
    requires j <= |more| && RunIn(env, run + more[..j], more[j..], s, a, post, k, mid, ok)
    ensures RunIn(env, run, more, s, a, post, j + k, mid, ok)
  {
    CutBehind(run, more, j, k);
    assert more[j..][k] == more[j + k];
  }

  /** What is left to do once a block has been run. */
  lemma WorksOn(env: Env, run: seq<Step>, more: seq<Step>, st': State, s: Sock, a: Action, post: seq<Action>,
                k: nat, mid: State, ok: bool, todo: seq<Action>) returns (after: State)
    requires RunIn(env, run, more, s, a, post, k, mid, ok) && NextBlocks(env, mid.shared, s, a, ok) + post == todo
    requires After(env, run + more) == Some(st') && s in st'.threads && st'.threads[s].todo == []
    ensures Works(env, run + more[..k + 1], after, more[k + 1..], st', s, todo)
    ensures s in mid.threads && mid.threads[s].todo != [] && after == RunBlock(env, mid, s, ok)
  {
    RunGoesOn(env, run, more, s, a, post, k, mid, ok);
    CutAt(run, more, k);
    TodoAfter(env, mid, s, ok, s);
    assert mid.threads[s].todo[1..] == post;
    after := RunBlock(env, mid, s, ok);
  }

  lemma NextIsRun(env: Env, run: seq<Step>, st: State, more: seq<Step>, st': State, s: Sock,
                  todo: seq<Action>, pre: seq<Action>, a: Action, post: seq<Action>)
    returns (k: nat, mid: State, ok: bool)
    requires Works(env, run, st, more, st', s, todo) && todo == pre + ([a] + post)
    ensures RunIn(env, run, more, s, a, post, k, mid, ok)
  {
    k, mid, ok := BlockIsRun(env, run, st, more, st', s, pre, a, post);
  }

  lemma RunLater(env: Env, run: seq<Step>, more: seq<Step>, j: nat, st: State, st': State, s: Sock, todo: seq<Action>,
                 a: Action, post: seq<Action>) returns (k: nat, mid: State, ok: bool)
    requires j <= |more| && Works(env, run + more[..j], st, more[j..], st', s, todo) && todo == [a] + post
    ensures j <= k && RunIn(env, run, more, s, a, post, k, mid, ok)
  {
    assert todo == [] + ([a] + post);
    var i;
    i, mid, ok := NextIsRun(env, run + more[..j], st, more[j..], st', s, todo, [], a, post);
    RunInBehind(env, run, more, j, s, a, post, i, mid, ok);
    k := j + i;
  }

  /** A block that puts one other in front: that one is run later. */
  lemma FollowUp(env: Env, run: seq<Step>, more: seq<Step>, st': State, s: Sock, a: Action, post: seq<Action>,
                 k: nat, mid: State, ok: bool, b: Action) returns (k': nat, mid': State, ok': bool)
    requires After(env, run + more) == Some(st') && s in st'.threads && st'.threads[s].todo == []
    requires RunIn(env, run, more, s, a, post, k, mid, ok) && NextBlocks(env, mid.shared, s, a, ok) == [b]
    ensures k < k' && RunIn(env, run, more, s, b, post, k', mid', ok')
  {
    var after := WorksOn(env, run, more, st', s, a, post, k, mid, ok, [b] + post);
    k', mid', ok' := RunLater(env, run, more, k + 1, after, st', s, [b] + post, b, post);
  }

  lemma RoomsHandle(s: Sock, local: Local, input: Input, payload: string)
    requires Carrying(input, RoomsReq, payload) && local.phase == Chatting
    ensures Handle(s, local, input) == [CountClients]
  {
  }

  /** `/rooms`, with whatever in the frame. */
  lemma RoomsAreAnswered(env: Env, run: seq<Step>, st: State, s: Sock, input: Input, payload: string, more: seq<Step>, st': State)
    requires Reading(env, run, st, s, input, more, st') && st.threads[s].local.phase == Chatting
    requires Carrying(input, RoomsReq, payload)
    ensures RoomsSent(env, run + [Receive(s, input)], more, st', s, |st.threads[s].outbox|)
  {
    RoomsHandle(s, st.threads[s].local, input, payload);
    OneListing(env, run, st, s, input, more, st');
  }

  lemma CountNext(env: Env, sh: Shared, s: Sock, ok: bool)
    ensures NextBlocks(env, sh, s, CountClients, ok) == [ListRoomsFor(sh.clients)]
  {
  }

  lemma OneListing(env: Env, run: seq<Step>, st: State, s: Sock, input: Input, more: seq<Step>, st': State)
    requires Reading(env, run, st, s, input, more, st') && Handle(s, st.threads[s].local, input) == [CountClients]
    ensures RoomsSent(env, run + [Receive(s, input)], more, st', s, |st.threads[s].outbox|)
  {
    var k, counted, ok' := OneBlock(env, run, st, s, input, more, st', CountClients);
    CountNext(env, counted.shared, s, ok');
    var k', mid, ok := FollowUp(env, run + [Receive(s, input)], more, st', s, CountClients, [], k, counted, ok',
                                ListRoomsFor(counted.shared.clients));
    RoomsNext(env, mid.shared, s, counted.shared.clients, ok);
    OneAnswer(env, run, st, s, input, more, st', ListRoomsFor(counted.shared.clients), k', mid, ok,
              RoomsReply(counted.shared.clients, mid.shared.db, ok));
  }

  // ----- A chat message -----

  /** A text of blanks does nothing. */
  lemma BlanksAreIgnored(env: Env, st: State, s: Sock, input: Input, payload: string)
    requires s in st.threads && AtRead(st.threads[s]) && InputOk(input) && st.threads[s].local.phase == Chatting
    requires Carrying(input, Chat, payload) && Trim(payload) == ""
    ensures Next(env, st, Receive(s, input)) == st
  {
    var st' := Next(env, st, Receive(s, input));
    assert st.shared.asked + [] == st.shared.asked;
    assert st'.threads[s] == st.threads[s];
    assert st'.threads == st.threads;
  }

  lemma ChatHandle(s: Sock, local: Local, input: Input, payload: string)
    requires Carrying(input, Chat, payload) && local.phase == Chatting && Trim(payload) != ""
    ensures var said := ChatMessage(local.room, local.username, Trim(payload), input.now);
            Handle(s, local, input) == [StoreMessage(said, "Failed to store the message in history."), Air(said, Some(s))]
  {
  }

  lemma StoredAndAired(env: Env, run: seq<Step>, st: State, more: seq<Step>, st': State, s: Sock,
                       said: ChatMessage, failure: string, air: Action)
    requires Works(env, run, st, more, st', s, [StoreMessage(said, failure), air]) && air.Air?
    ensures KeptOrTold(st', s, said, failure, |st.threads[s].outbox|) && Told(env, run, more, st', s, air)
  {
    var store := StoreMessage(said, failure);
    assert [store, air] == [] + ([store] + [air]);
    assert [store, air] == [store] + ([air] + []);
    StoreReaches(env, run, st, more, st', s, [], said, failure, [air]);
    BroadcastTold(env, run, st, more, st', s, [store], air, []);
  }

  /** Any other text is kept, trimmed and under the sender's name and room, or the sender is told that it
      could not be; and the other members of the room at the snapshot have been sent it. */
  lemma ChatIsHeard(env: Env, run: seq<Step>, st: State, s: Sock, input: Input, payload: string, more: seq<Step>, st': State)
    requires Reading(env, run, st, s, input, more, st') && st.threads[s].local.phase == Chatting
    requires Carrying(input, Chat, payload) && Trim(payload) != ""
    ensures var local := st.threads[s].local;
            var said := ChatMessage(local.room, local.username, Trim(payload), input.now);
            && KeptOrTold(st', s, said, "Failed to store the message in history.", |st.threads[s].outbox|)
            && Told(env, run + [Receive(s, input)], more, st', s, Air(said, Some(s)))
  {
    var local := st.threads[s].local;
    var said := ChatMessage(local.room, local.username, Trim(payload), input.now);
    ChatHandle(s, local, input, payload);
    ReadWorks(env, run, st, s, input, more, st');
    StoredAndAired(env, run + [Receive(s, input)], Next(env, st, Receive(s, input)), more, st', s, said,
                   "Failed to store the message in history.", Air(said, Some(s)));
  }

  // ----- A direct message -----

  /** The message has reached the oldest session of the target and its sender, and is kept, or the sender is
      told that it could not be; without a session the sender is told that. */
  ghost predicate Routed(env: Env, run: seq<Step>, more: seq<Step>, st': State, s: Sock, dm: DirectMessage, base: nat) {
    exists k: nat, mid, ok ::
      && RunIn(env, run, more, s, Route(dm.from, dm.to, dm.content, dm.timestamp), [], k, mid, ok)
      && match FindUser(mid.shared.clients, dm.to)
         case None => Reached(st', s, Note("User '" + dm.to + "' not found or offline."), base)
         case Some(found) =>
           && found in mid.threads && Reached(st', found, DirectNote(env, dm), |mid.threads[found].outbox|)
           && Reached(st', s, DirectNote(env, dm), base)
           && KeptOrTold(st', s, ChatMessage(DmKey(dm.from, dm.to), dm.from, dm.content, dm.timestamp), DIRECT_STORE_FAILED, base)
  }

  lemma DirectReads(username: string, payload: string, now: Int64)
    ensures HandleDirect(username, payload, now) ==
            match ReadDirectRequest(payload)
            case None => [Reply(Note("Usage: /msg <user> <message>"))]
            case Some((target, content)) => [Route(username, target, content, now)]
  {
  }

  lemma DirectFrame(s: Sock, username: string, room: string, frame: string, m: Msg, now: Int64)
    requires DecodeMessage(frame) == Some(m) && m.kind == Direct
    ensures HandleFrame(s, username, room, frame, now) == HandleDirect(username, m.payload, now)
  {
    match m.kind
    case Direct =>
    case _ =>
  }

  lemma DirectHandle(s: Sock, local: Local, input: Input, payload: string)
    requires Carrying(input, Direct, payload) && local.phase == Chatting
    ensures Handle(s, local, input) == HandleDirect(local.username, payload, input.now)
  {
    DirectFrame(s, local.username, local.room, input.data, Msg(Direct, payload), input.now);
  }

  lemma NotFoundNext(env: Env, sh: Shared, s: Sock, dm: DirectMessage, ok: bool)
    requires FindUser(sh.clients, dm.to).None?
    ensures NextBlocks(env, sh, s, Route(dm.from, dm.to, dm.content, dm.timestamp), ok)
            == [Reply(Note("User '" + dm.to + "' not found or offline."))]
  {
  }

  lemma FoundNext(env: Env, sh: Shared, s: Sock, dm: DirectMessage, ok: bool, found: Sock)
    requires FindUser(sh.clients, dm.to) == Some(found)
    ensures NextBlocks(env, sh, s, Route(dm.from, dm.to, dm.content, dm.timestamp), ok)
            == [StoreMessage(RowOf(dm), DIRECT_STORE_FAILED)] + [SendTo(found, DirectNote(env, dm)), SendTo(s, DirectNote(env, dm))]
  {
  }

  lemma DirectRowIs(dm: DirectMessage)
    ensures RowOf(dm) == ChatMessage(DmKey(dm.from, dm.to), dm.from, dm.content, dm.timestamp)
  {
  }

  lemma RouteReaches(env: Env, run: seq<Step>, st: State, more: seq<Step>, st': State, s: Sock, dm: DirectMessage,
                     k: nat, mid: State, ok: bool, found: Sock, r: Sock)
    requires After(env, run) == Some(st) && After(env, run + more) == Some(st') && s in st'.threads && st'.threads[s].todo == []
    requires RunIn(env, run, more, s, Route(dm.from, dm.to, dm.content, dm.timestamp), [], k, mid, ok)
    requires FindUser(mid.shared.clients, dm.to) == Some(found) && (r == found || r == s)
    ensures r in mid.threads && Reached(st', r, DirectNote(env, dm), |mid.threads[r].outbox|)
  {
    var a := Route(dm.from, dm.to, dm.content, dm.timestamp);
    RunGoesOn(env, run, more, s, a, [], k, mid, ok);
    RouteArrives(env, run + more[..k], mid, s, ok, more[k + 1..], st', found, r);
    assert RoutedMessage(a) == dm;
  }

  lemma RouteKeeps(env: Env, run: seq<Step>, st: State, more: seq<Step>, st': State, s: Sock, dm: DirectMessage,
                   k: nat, mid: State, ok: bool, found: Sock)
    requires After(env, run) == Some(st) && s in st.threads && After(env, run + more) == Some(st')
    requires s in st'.threads && st'.threads[s].todo == []
    requires RunIn(env, run, more, s, Route(dm.from, dm.to, dm.content, dm.timestamp), [], k, mid, ok)
    requires FindUser(mid.shared.clients, dm.to) == Some(found)
    ensures KeptOrTold(st', s, RowOf(dm), DIRECT_STORE_FAILED, |st.threads[s].outbox|)
  {
    FoundNext(env, mid.shared, s, dm, ok, found);
    StoreIsFirst(env, run, st, more, st', s, Route(dm.from, dm.to, dm.content, dm.timestamp), k, mid, ok,
                 RowOf(dm), DIRECT_STORE_FAILED, [SendTo(found, DirectNote(env, dm)), SendTo(s, DirectNote(env, dm))]);
  }

  lemma StoreIsFirst(env: Env, run: seq<Step>, st: State, more: seq<Step>, st': State, s: Sock, a: Action,
                     k: nat, mid: State, ok: bool, m: ChatMessage, failure: string, sends: seq<Action>)
    requires After(env, run) == Some(st) && s in st.threads && After(env, run + more) == Some(st')
    requires s in st'.threads && st'.threads[s].todo == [] && RunIn(env, run, more, s, a, [], k, mid, ok)
    requires NextBlocks(env, mid.shared, s, a, ok) == [StoreMessage(m, failure)] + sends
    ensures KeptOrTold(st', s, m, failure, |st.threads[s].outbox|)
  {
    var todo := [StoreMessage(m, failure)] + sends;
    assert todo + [] == todo;
    var after := WorksOn(env, run, more, st', s, a, [], k, mid, ok, todo);
    FirstIsStored(env, run, st, more, st', s, k + 1, after, m, failure, sends);
  }

  lemma FirstIsStored(env: Env, run: seq<Step>, st: State, more: seq<Step>, st': State, s: Sock, j: nat, after: State,
                      m: ChatMessage, failure: string, post: seq<Action>)
    requires After(env, run) == Some(st) && s in st.threads && After(env, run + more) == Some(st') && j <= |more|
    requires Works(env, run + more[..j], after, more[j..], st', s, [StoreMessage(m, failure)] + post)
    ensures KeptOrTold(st', s, m, failure, |st.threads[s].outbox|)
  {
    assert [StoreMessage(m, failure)] + post == [] + ([StoreMessage(m, failure)] + post);
    StoreReaches(env, run + more[..j], after, more[j..], st', s, [], m, failure, post);
    BeforeMore(env, run, more[..j], s);
    if !Kept(st'.shared.db, Stored(m)) {
      ReachedSince(env, run + more, st', s, Note(failure), |st.threads[s].outbox|, |after.threads[s].outbox|);
    }
  }

  lemma RouteIsRouted(env: Env, run: seq<Step>, st: State, more: seq<Step>, st': State, s: Sock, dm: DirectMessage,
                      k: nat, mid: State, ok: bool)
    requires After(env, run) == Some(st) && s in st.threads && After(env, run + more) == Some(st')
    requires s in st'.threads && st'.threads[s].todo == []
    requires RunIn(env, run, more, s, Route(dm.from, dm.to, dm.content, dm.timestamp), [], k, mid, ok)
    ensures Routed(env, run, more, st', s, dm, |st.threads[s].outbox|)
  {
    match FindUser(mid.shared.clients, dm.to)
    case None =>
      NotFoundNext(env, mid.shared, s, dm, ok);
      AnswerReaches(env, run, st, more, st', s, Route(dm.from, dm.to, dm.content, dm.timestamp), [], k, mid, ok,
                    Note("User '" + dm.to + "' not found or offline."));
    case Some(found) =>
      RouteReaches(env, run, st, more, st', s, dm, k, mid, ok, found, found);
      RouteReaches(env, run, st, more, st', s, dm, k, mid, ok, found, s);
      BeforeMore(env, run, more[..k], s);
      ReachedSince(env, run + more, st', s, DirectNote(env, dm), |st.threads[s].outbox|, |mid.threads[s].outbox|);
      RouteKeeps(env, run, st, more, st', s, dm, k, mid, ok, found);
      DirectRowIs(dm);
  }

  /** `/msg`: what is not a user and a text is answered with the usage. */
  lemma DirectIsAnswered(env: Env, run: seq<Step>, st: State, s: Sock, input: Input, payload: string, more: seq<Step>, st': State)
    requires Reading(env, run, st, s, input, more, st') && st.threads[s].local.phase == Chatting
    requires Carrying(input, Direct, payload)
    ensures match ReadDirectRequest(payload)
            case None => Reached(st', s, Note("Usage: /msg <user> <message>"), |st.threads[s].outbox|)
            case Some((target, content)) =>
              Routed(env, run + [Receive(s, input)], more, st', s,
                     DirectMessage(st.threads[s].local.username, target, content, input.now), |st.threads[s].outbox|)
  {
    DirectHandle(s, st.threads[s].local, input, payload);
    DirectReads(st.threads[s].local.username, payload, input.now);
    match ReadDirectRequest(payload)
    case None => OneReply(env, run, st, s, input, more, st', Note("Usage: /msg <user> <message>"));
    case Some((target, content)) =>
      OneRoute(env, run, st, s, input, more, st', DirectMessage(st.threads[s].local.username, target, content, input.now));
  }

  lemma OneRoute(env: Env, run: seq<Step>, st: State, s: Sock, input: Input, more: seq<Step>, st': State, dm: DirectMessage)
    requires Reading(env, run, st, s, input, more, st')
    requires Handle(s, st.threads[s].local, input) == [Route(dm.from, dm.to, dm.content, dm.timestamp)]
    ensures Routed(env, run + [Receive(s, input)], more, st', s, dm, |st.threads[s].outbox|)
  {
    var k, mid, ok := OneBlock(env, run, st, s, input, more, st', Route(dm.from, dm.to, dm.content, dm.timestamp));
    ReadWorks(env, run, st, s, input, more, st');
    RouteIsRouted(env, run + [Receive(s, input)], Next(env, st, Receive(s, input)), more, st', s, dm, k, mid, ok);
  }

  // ----- /join -----

  lemma JoinHandle(s: Sock, local: Local, input: Input, payload: string)
    requires Carrying(input, Join, payload) && local.phase == Chatting
    ensures var room, todo := SanitizeRoom(payload), Handle(s, local, input);
            if room == "" then todo == [Reply(Note("Room name cannot be empty."))]
            else if room == local.room then todo == [Reply(Note("You are already in room '" + local.room + "'."))]
            else todo == Journey(s, local.username, local.room, room)
  {
  }

  /** From one room to another. */
  function Journey(s: Sock, username: string, room: string, newRoom: string): seq<Action> {
    [Broadcast(room, Note(username + " left " + room), Some(s)),
     MoveTo(newRoom),
     Reply(Msg(Joined, newRoom)),
     Broadcast(newRoom, Note(username + " joined " + newRoom), Some(s)),
     Replay(newRoom, 50)]
  }

  /** Told the old room, told the client, told the new room, and shown its history. */
  ghost predicate Journeyed(env: Env, run: seq<Step>, more: seq<Step>, st': State, s: Sock,
                            username: string, room: string, newRoom: string, base: nat) {
    && Told(env, run, more, st', s, Broadcast(room, Note(username + " left " + room), Some(s)))
    && Reached(st', s, Msg(Joined, newRoom), base)
    && Told(env, run, more, st', s, Broadcast(newRoom, Note(username + " joined " + newRoom), Some(s)))
    && Replayed(env, run, more, st', s, newRoom, 50, base)
  }

  /** The thread is in the chat under this name and room, and so is its one entry. */
  ghost predicate IsIn(st: State, s: Sock, username: string, room: string) {
    && s in st.threads && st.threads[s].local == Local(Chatting, username, room)
    && ClientInfo(s, username, room) in st.shared.clients && Unique(st.shared.clients)
  }

  lemma StandsIn(env: Env, run: seq<Step>, st: State, more: seq<Step>, st': State, s: Sock, username: string, room: string)
    requires After(env, run) == Some(st) && After(env, run + more) == Some(st') && NoReads(more, s)
    requires s in st.threads && AllSend(st.threads[s].todo) && st.threads[s].local == Local(Chatting, username, room)
    ensures IsIn(st', s, username, room)
  {
    StaysPut(env, run, st, more, st', s);
    RegistryIsExact(env, run + more, st', s);
  }

  lemma JourneyIsMade(env: Env, run: seq<Step>, st: State, more: seq<Step>, st': State, s: Sock,
                      username: string, room: string, newRoom: string)
    requires Works(env, run, st, more, st', s, Journey(s, username, room, newRoom))
    ensures Journeyed(env, run, more, st', s, username, room, newRoom, |st.threads[s].outbox|)
  {
    var todo := Journey(s, username, room, newRoom);
    assert todo == [] + ([todo[0]] + todo[1..]);
    BroadcastTold(env, run, st, more, st', s, [], todo[0], todo[1..]);
    assert todo == todo[..2] + ([todo[2]] + todo[3..]);
    ReplyReaches(env, run, st, more, st', s, todo[..2], Msg(Joined, newRoom), todo[3..]);
    assert todo == todo[..3] + ([todo[3]] + todo[4..]);
    BroadcastTold(env, run, st, more, st', s, todo[..3], todo[3], todo[4..]);
    assert todo == todo[..4] + ([todo[4]] + []);
    ReplayReaches(env, run, st, more, st', s, todo[..4], newRoom, 50, []);
  }

  lemma MovedLocal(env: Env, st: State, s: Sock, ok: bool, room: string)
    requires s in st.threads && st.threads[s].todo != [] && st.threads[s].todo[0] == MoveTo(room)
    ensures s in RunBlock(env, st, s, ok).threads && RunBlock(env, st, s, ok).threads[s].local == st.threads[s].local.(room := room)
  {
  }

  lemma MovesAndStays(env: Env, run: seq<Step>, st: State, more: seq<Step>, st': State, s: Sock,
                      pre: seq<Action>, newRoom: string, post: seq<Action>)
    requires Works(env, run, st, more, st', s, pre + ([MoveTo(newRoom)] + post)) && AllSend(pre) && AllSend(post)
    requires NoReads(more, s) && st.threads[s].local.phase == Chatting
    ensures IsIn(st', s, st.threads[s].local.username, newRoom)
  {
    var k, mid, ok := BlockIsRun(env, run, st, more, st', s, pre, MoveTo(newRoom), post);
    assert [] + post == post;
    var after := WorksOn(env, run, more, st', s, MoveTo(newRoom), post, k, mid, ok, post);
    MovedLocal(env, mid, s, ok, newRoom);
    StandsIn(env, run + more[..k + 1], after, more[k + 1..], st', s, st.threads[s].local.username, newRoom);
  }

  lemma JourneyArrives(env: Env, run: seq<Step>, st: State, more: seq<Step>, st': State, s: Sock,
                       username: string, room: string, newRoom: string)
    requires Works(env, run, st, more, st', s, Journey(s, username, room, newRoom)) && NoReads(more, s)
    requires st.threads[s].local == Local(Chatting, username, room)
    ensures IsIn(st', s, username, newRoom)
  {
    var todo := Journey(s, username, room, newRoom);
    assert todo == todo[..1] + ([MoveTo(newRoom)] + todo[2..]);
    MovesAndStays(env, run, st, more, st', s, todo[..1], newRoom, todo[2..]);
  }

  /** `/join`: nowhere and to one's own room is refused; otherwise the old room, the client and the new room
      are told, the client gets the last fifty messages there, and once it waits again it is there. */
  lemma JoinIsAnswered(env: Env, run: seq<Step>, st: State, s: Sock, input: Input, payload: string, more: seq<Step>, st': State)
    requires Reading(env, run, st, s, input, more, st') && st.threads[s].local.phase == Chatting
    requires Carrying(input, Join, payload)
    ensures var local, room, base := st.threads[s].local, SanitizeRoom(payload), |st.threads[s].outbox|;
            if room == "" then Reached(st', s, Note("Room name cannot be empty."), base)
            else if room == local.room then Reached(st', s, Note("You are already in room '" + local.room + "'."), base)
            else
              && Journeyed(env, run + [Receive(s, input)], more, st', s, local.username, local.room, room, base)
              && (NoReads(more, s) ==> IsIn(st', s, local.username, room))
  {
    var local, room := st.threads[s].local, SanitizeRoom(payload);
    JoinHandle(s, local, input, payload);
    if room == "" {
      OneReply(env, run, st, s, input, more, st', Note("Room name cannot be empty."));
    } else if room == local.room {
      OneReply(env, run, st, s, input, more, st', Note("You are already in room '" + local.room + "'."));
    } else {
      ReadWorks(env, run, st, s, input, more, st');
      var run1, st1 := run + [Receive(s, input)], Next(env, st, Receive(s, input));
      JourneyIsMade(env, run1, st1, more, st', s, local.username, local.room, room);
      if NoReads(more, s) {
        JourneyArrives(env, run1, st1, more, st', s, local.username, local.room, room);
      }
    }
  }

  // ----- Logging in -----

  /** What a frame with a name and a password leads to. */
  lemma CredentialsHandle(s: Sock, local: Local, input: Input, kind: MsgType, username: string, password: string)
    requires (kind == Login || kind == Register) && Carrying(input, kind, username + "\n" + password)
    requires local.phase == Authenticating && '\n' !in username
    ensures var name, todo := Trim(username), Handle(s, local, input);
            if kind == Login then todo == [TryLogin(name, password)]
            else if !ValidUsername(name) then todo == [Reply(Msg(AuthFail, BAD_USERNAME))]
            else if |password| < 6 then todo == [Reply(Msg(AuthFail, SHORT_PASSWORD))]
            else todo == [TryRegister(name, password, input.salt, input.now)]
  {
    CredentialsRoundTrip(username, password);
  }

  function Welcome(username: string): Msg {
    Note("Welcome, " + username + "! You are in room '" + "general" + "'.")
  }

  /** Into the chat. */
  function Arrival(s: Sock, username: string): seq<Action> {
    [Enter(username),
     Reply(Msg(AuthOk, username + "\n" + "general")),
     Reply(Welcome(username)),
     Reply(Note(COMMANDS)),
     Replay("general", 50),
     Broadcast("general", Note(username + " joined " + "general"), Some(s))]
  }

  lemma ArrivalIs(s: Sock, username: string)
    ensures Entrance(s, username) == Arrival(s, username)
  {
  }

  /** Welcomed, shown the history of the first room, announced to it; and there once the thread waits. */
  ghost predicate InChat(env: Env, run: seq<Step>, more: seq<Step>, st': State, s: Sock, username: string, base: nat) {
    && Reached(st', s, Msg(AuthOk, username + "\n" + "general"), base)
    && Reached(st', s, Welcome(username), base)
    && Reached(st', s, Note(COMMANDS), base)
    && Replayed(env, run, more, st', s, "general", 50, base)
    && Told(env, run, more, st', s, Broadcast("general", Note(username + " joined " + "general"), Some(s)))
    && (NoReads(more, s) ==> IsIn(st', s, username, "general"))
  }

  lemma EnteredLocal(env: Env, st: State, s: Sock, ok: bool, username: string)
    requires s in st.threads && st.threads[s].todo != [] && st.threads[s].todo[0] == Enter(username)
    ensures s in RunBlock(env, st, s, ok).threads && RunBlock(env, st, s, ok).threads[s].local == Local(Chatting, username, "general")
  {
  }

  lemma EntersAndStays(env: Env, run: seq<Step>, st: State, more: seq<Step>, st': State, s: Sock,
                       pre: seq<Action>, username: string, post: seq<Action>)
    requires Works(env, run, st, more, st', s, pre + ([Enter(username)] + post)) && AllSend(post) && NoReads(more, s)
    ensures IsIn(st', s, username, "general")
  {
    var k, mid, ok := BlockIsRun(env, run, st, more, st', s, pre, Enter(username), post);
    assert [] + post == post;
    var after := WorksOn(env, run, more, st', s, Enter(username), post, k, mid, ok, post);
    EnteredLocal(env, mid, s, ok, username);
    StandsIn(env, run + more[..k + 1], after, more[k + 1..], st', s, username, "general");
  }

  lemma ArrivalGreets(env: Env, run: seq<Step>, st: State, more: seq<Step>, st': State, s: Sock, pre: seq<Action>, username: string)
    requires Works(env, run, st, more, st', s, pre + Arrival(s, username))
    ensures Reached(st', s, Msg(AuthOk, username + "\n" + "general"), |st.threads[s].outbox|)
    ensures Reached(st', s, Welcome(username), |st.threads[s].outbox|)
    ensures Reached(st', s, Note(COMMANDS), |st.threads[s].outbox|)
  {
    var a := Arrival(s, username);
    assert pre + a == (pre + a[..1]) + ([a[1]] + a[2..]);
    ReplyReaches(env, run, st, more, st', s, pre + a[..1], a[1].msg, a[2..]);
    assert pre + a == (pre + a[..2]) + ([a[2]] + a[3..]);
    ReplyReaches(env, run, st, more, st', s, pre + a[..2], a[2].msg, a[3..]);
    assert pre + a == (pre + a[..3]) + ([a[3]] + a[4..]);
    ReplyReaches(env, run, st, more, st', s, pre + a[..3], a[3].msg, a[4..]);
  }

  lemma ArrivalReaches(env: Env, run: seq<Step>, st: State, more: seq<Step>, st': State, s: Sock, pre: seq<Action>, username: string)
    requires Works(env, run, st, more, st', s, pre + Arrival(s, username))
    ensures InChat(env, run, more, st', s, username, |st.threads[s].outbox|)
  {
    ArrivalGreets(env, run, st, more, st', s, pre, username);
    ArrivalShows(env, run, st, more, st', s, pre, username);
    if NoReads(more, s) {
      ArrivalStays(env, run, st, more, st', s, pre, username);
    }
  }

  lemma ArrivalStays(env: Env, run: seq<Step>, st: State, more: seq<Step>, st': State, s: Sock, pre: seq<Action>, username: string)
    requires Works(env, run, st, more, st', s, pre + Arrival(s, username)) && NoReads(more, s)
    ensures IsIn(st', s, username, "general")
  {
    var a := Arrival(s, username);
    assert pre + a == pre + ([Enter(username)] + a[1..]);
    EntersAndStays(env, run, st, more, st', s, pre, username, a[1..]);
  }

  lemma ArrivalShows(env: Env, run: seq<Step>, st: State, more: seq<Step>, st': State, s: Sock, pre: seq<Action>, username: string)
    requires Works(env, run, st, more, st', s, pre + Arrival(s, username))
    ensures Replayed(env, run, more, st', s, "general", 50, |st.threads[s].outbox|)
    ensures Told(env, run, more, st', s, Broadcast("general", Note(username + " joined " + "general"), Some(s)))
  {
    var a := Arrival(s, username);
    assert pre + a == (pre + a[..4]) + ([a[4]] + a[5..]);
    ReplayReaches(env, run, st, more, st', s, pre + a[..4], "general", 50, a[5..]);
    assert pre + a == (pre + a[..5]) + ([a[5]] + []);
    BroadcastTold(env, run, st, more, st', s, pre + a[..5], a[5], []);
  }

  // What an attempt leads to.

  lemma AttemptFails(env: Env, sh: Shared, s: Sock, a: Action, ok: bool)
    requires a.TryLogin? && !(ok && AuthenticateUser(env.hash, sh.db, a.username, a.password))
    ensures NextBlocks(env, sh, s, a, ok) == [Reply(Msg(AuthFail, "Login failed: " + INVALID))]
  {
  }

  lemma AttemptSucceeds(env: Env, sh: Shared, s: Sock, a: Action, ok: bool)
    requires a.TryLogin? && ok && AuthenticateUser(env.hash, sh.db, a.username, a.password)
    ensures NextBlocks(env, sh, s, a, ok) == [] + Arrival(s, a.username)
  {
    ArrivalIs(s, a.username);
    assert [] + Arrival(s, a.username) == Arrival(s, a.username);
  }

  function Created(username: string): Msg {
    Note("Account '" + username + "' created. Welcome!")
  }

  /** The name is new to the database, and the call works. */
  predicate Registers(db: Db, username: string, ok: bool) {
    ok && UserOf(db.users, CStr(username)).None?
  }

  lemma RegistrationSucceeds(env: Env, sh: Shared, s: Sock, a: Action, ok: bool)
    requires a.TryRegister? && Registers(sh.db, a.username, ok)
    ensures NextBlocks(env, sh, s, a, ok) == [Reply(Created(a.username))] + Arrival(s, a.username)
  {
    ArrivalIs(s, a.username);
  }

  lemma RegistrationFails(env: Env, sh: Shared, s: Sock, a: Action, ok: bool)
    requires a.TryRegister? && !Registers(sh.db, a.username, ok)
    ensures NextBlocks(env, sh, s, a, ok) ==
            [Reply(Msg(AuthFail, "Registration failed: " + if UserOf(sh.db.users, CStr(a.username)).Some? then TAKEN else NOT_STORED))]
  {
  }

  /** From an attempt that goes through. */
  lemma AttemptArrives(env: Env, run: seq<Step>, st: State, more: seq<Step>, st': State, s: Sock, a: Action,
                       k: nat, mid: State, ok: bool, pre: seq<Action>, username: string)
    requires After(env, run) == Some(st) && s in st.threads && After(env, run + more) == Some(st')
    requires s in st'.threads && st'.threads[s].todo == [] && RunIn(env, run, more, s, a, [], k, mid, ok)
    requires Sent(s, a).None? && NextBlocks(env, mid.shared, s, a, ok) == pre + Arrival(s, username)
    ensures k < |more| && s in mid.threads && |st.threads[s].outbox| <= |mid.threads[s].outbox|
    ensures InChat(env, run + more[..k + 1], more[k + 1..], st', s, username, |mid.threads[s].outbox|)
  {
    var todo := pre + Arrival(s, username);
    assert todo + [] == todo;
    var after := WorksOn(env, run, more, st', s, a, [], k, mid, ok, todo);
    UnsentOutbox(env, mid, s, ok, s);
    BeforeMore(env, run, more[..k], s);
    ArrivalReaches(env, run + more[..k + 1], after, more[k + 1..], st', s, pre, username);
  }

  /** The attempt is made in some state, and goes through there exactly if the call works and the database
      knows name and password: then the client is in the chat, otherwise it is told. */
  ghost predicate LoggedIn(env: Env, run: seq<Step>, more: seq<Step>, st': State, s: Sock, name: string, password: string, base: nat) {
    exists k: nat, mid, ok ::
      && RunIn(env, run, more, s, TryLogin(name, password), [], k, mid, ok) && k < |more| && s in mid.threads
      && if ok && AuthenticateUser(env.hash, mid.shared.db, name, password)
         then InChat(env, run + more[..k + 1], more[k + 1..], st', s, name, |mid.threads[s].outbox|)
         else Reached(st', s, Msg(AuthFail, "Login failed: " + INVALID), base)
  }

  /** The same for a new account, which then exists. */
  ghost predicate SignedUp(env: Env, run: seq<Step>, more: seq<Step>, st': State, s: Sock, a: Action, base: nat)
    requires a.TryRegister?
  {
    exists k: nat, mid, ok ::
      && RunIn(env, run, more, s, a, [], k, mid, ok) && k < |more| && s in mid.threads
      && if Registers(mid.shared.db, a.username, ok)
         then
           && InChat(env, run + more[..k + 1], more[k + 1..], st', s, a.username, |mid.threads[s].outbox|)
           && Reached(st', s, Created(a.username), |mid.threads[s].outbox|) && HasAccount(st'.shared.db, CStr(a.username))
         else Reached(st', s, Msg(AuthFail, "Registration failed: " + if UserOf(mid.shared.db.users, CStr(a.username)).Some?
                                                                     then TAKEN else NOT_STORED), base)
  }

  lemma OneLogin(env: Env, run: seq<Step>, st: State, s: Sock, input: Input, more: seq<Step>, st': State, name: string, password: string)
    requires Reading(env, run, st, s, input, more, st') && Handle(s, st.threads[s].local, input) == [TryLogin(name, password)]
    ensures LoggedIn(env, run + [Receive(s, input)], more, st', s, name, password, |st.threads[s].outbox|)
  {
    var a, run1, st1 := TryLogin(name, password), run + [Receive(s, input)], Next(env, st, Receive(s, input));
    var k, mid, ok := OneBlock(env, run, st, s, input, more, st', a);
    ReadWorks(env, run, st, s, input, more, st');
    if ok && AuthenticateUser(env.hash, mid.shared.db, name, password) {
      AttemptSucceeds(env, mid.shared, s, a, ok);
      AttemptArrives(env, run1, st1, more, st', s, a, k, mid, ok, [], name);
    } else {
      AttemptFails(env, mid.shared, s, a, ok);
      OneAnswer(env, run, st, s, input, more, st', a, k, mid, ok, Msg(AuthFail, "Login failed: " + INVALID));
    }
  }

  /** A login frame. */
  lemma LoginIsAnswered(env: Env, run: seq<Step>, st: State, s: Sock, input: Input, username: string, password: string,
                        more: seq<Step>, st': State)
    requires Reading(env, run, st, s, input, more, st') && st.threads[s].local.phase == Authenticating
    requires Carrying(input, Login, username + "\n" + password) && '\n' !in username
    ensures LoggedIn(env, run + [Receive(s, input)], more, st', s, Trim(username), password, |st.threads[s].outbox|)
  {
    CredentialsHandle(s, st.threads[s].local, input, Login, username, password);
    OneLogin(env, run, st, s, input, more, st', Trim(username), password);
  }

  lemma AccountMade(env: Env, run: seq<Step>, more: seq<Step>, st': State, s: Sock, a: Action, k: nat, mid: State, ok: bool)
    requires After(env, run + more) == Some(st') && RunIn(env, run, more, s, a, [], k, mid, ok)
    requires a.TryRegister? && Registers(mid.shared.db, a.username, ok)
    ensures HasAccount(st'.shared.db, CStr(a.username))
  {
    RunGoesOn(env, run, more, s, a, [], k, mid, ok);
    RegisterKeepsAccounts(env, mid.shared.db, a, CStr(a.username));
    RunGrows(env, (run + more[..k]) + [Run(s, ok)], RunBlock(env, mid, s, ok), more[k + 1..], st');
  }

  /** The greeting of a new account comes before everything else. */
  lemma CreatedReaches(env: Env, run: seq<Step>, more: seq<Step>, st': State, s: Sock, a: Action, k: nat, mid: State, ok: bool,
                       m: Msg, post: seq<Action>)
    requires After(env, run + more) == Some(st') && s in st'.threads && st'.threads[s].todo == []
    requires RunIn(env, run, more, s, a, [], k, mid, ok) && s in mid.threads
    requires Sent(s, a).None? && NextBlocks(env, mid.shared, s, a, ok) == [Reply(m)] + post
    ensures Reached(st', s, m, |mid.threads[s].outbox|)
  {
    var todo := [Reply(m)] + post;
    assert todo + [] == todo;
    var after := WorksOn(env, run, more, st', s, a, [], k, mid, ok, todo);
    UnsentOutbox(env, mid, s, ok, s);
    assert todo == [] + ([Reply(m)] + post);
    ReplyReaches(env, run + more[..k + 1], after, more[k + 1..], st', s, [], m, post);
  }

  lemma OneRegistration(env: Env, run: seq<Step>, st: State, s: Sock, input: Input, more: seq<Step>, st': State, a: Action)
    requires Reading(env, run, st, s, input, more, st') && a.TryRegister? && Handle(s, st.threads[s].local, input) == [a]
    ensures SignedUp(env, run + [Receive(s, input)], more, st', s, a, |st.threads[s].outbox|)
  {
    var run1, st1 := run + [Receive(s, input)], Next(env, st, Receive(s, input));
    var k, mid, ok := OneBlock(env, run, st, s, input, more, st', a);
    ReadWorks(env, run, st, s, input, more, st');
    if Registers(mid.shared.db, a.username, ok) {
      RegistrationSucceeds(env, mid.shared, s, a, ok);
      AttemptArrives(env, run1, st1, more, st', s, a, k, mid, ok, [Reply(Created(a.username))], a.username);
      CreatedReaches(env, run1, more, st', s, a, k, mid, ok, Created(a.username), Arrival(s, a.username));
      AccountMade(env, run1, more, st', s, a, k, mid, ok);
    } else {
      RegistrationFails(env, mid.shared, s, a, ok);
      OneAnswer(env, run, st, s, input, more, st', a, k, mid, ok,
                Msg(AuthFail, "Registration failed: " + if UserOf(mid.shared.db.users, CStr(a.username)).Some? then TAKEN else NOT_STORED));
    }
  }

  /** A registration frame: a name that is not valid and a short password are refused. */
  lemma RegisterIsAnswered(env: Env, run: seq<Step>, st: State, s: Sock, input: Input, username: string, password: string,
                           more: seq<Step>, st': State)
    requires Reading(env, run, st, s, input, more, st') && st.threads[s].local.phase == Authenticating
    requires Carrying(input, Register, username + "\n" + password) && '\n' !in username
    ensures var name, base := Trim(username), |st.threads[s].outbox|;
            if !ValidUsername(name) then Reached(st', s, Msg(AuthFail, BAD_USERNAME), base)
            else if |password| < 6 then Reached(st', s, Msg(AuthFail, SHORT_PASSWORD), base)
            else SignedUp(env, run + [Receive(s, input)], more, st', s, TryRegister(name, password, input.salt, input.now), base)
  {
    var name := Trim(username);
    CredentialsHandle(s, st.threads[s].local, input, Register, username, password);
    if !ValidUsername(name) {
      OneReply(env, run, st, s, input, more, st', Msg(AuthFail, BAD_USERNAME));
    } else if |password| < 6 {
      OneReply(env, run, st, s, input, more, st', Msg(AuthFail, SHORT_PASSWORD));
    } else {
      OneRegistration(env, run, st, s, input, more, st', TryRegister(name, password, input.salt, input.now));
    }
  }

  /** Why a frame is refused before the login, if it is not a login or registration with two lines. */
  function Complaint(frame: string): Option<string> {
    if frame == "" then Some("Malformed login request.")
    else if DecodeMessage(frame).value.kind !in [Login, Register] then Some("Please log in or register an account first.")
    else if '\n' !in DecodeMessage(frame).value.payload then Some("Invalid credentials format.")
    else None
  }

  lemma ComplaintHandle(s: Sock, local: Local, input: Input, text: string)
    requires input.Arrived? && local.phase == Authenticating && Complaint(input.data) == Some(text)
    ensures Handle(s, local, input) == [Reply(Msg(AuthFail, text))]
  {
  }

  lemma OthersAreTurnedAway(env: Env, run: seq<Step>, st: State, s: Sock, input: Input, text: string, more: seq<Step>, st': State)
    requires Reading(env, run, st, s, input, more, st') && st.threads[s].local.phase == Authenticating
    requires input.Arrived? && Complaint(input.data) == Some(text)
    ensures Reached(st', s, Msg(AuthFail, text), |st.threads[s].outbox|)
  {
    ComplaintHandle(s, st.threads[s].local, input, text);
    OneReply(env, run, st, s, input, more, st', Msg(AuthFail, text));
  }

  /** A connection that is gone before its login is closed. */
  lemma GoneBeforeLogin(env: Env, run: seq<Step>, st: State, s: Sock, more: seq<Step>, st': State)
    requires Reading(env, run, st, s, Disconnected, more, st') && st.threads[s].local.phase == Authenticating
    ensures st'.threads[s].local.phase == Closed && !Listed(st'.shared.clients, s)
  {
    ReadWorks(env, run, st, s, Disconnected, more, st');
    assert [] + ([Close] + []) == [Close];
    ClosesAtLast(env, run + [Receive(s, Disconnected)], Next(env, st, Receive(s, Disconnected)), more, st', s, []);
  }
}
