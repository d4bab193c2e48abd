/** What the client believes about itself (`g_username`, `g_room`), against the server's registry:
    `receive_messages` of chat_client.cpp at the other end of a connection of the server. */
module ClientView {
  import opened Bytes
  import opened Seqs
  import opened Text
  import opened Names
  import opened Messages
  import opened Codec
  import opened Framing
  import opened Transport
  import opened Registry
  import opened Server
  import opened Invariant
  import opened Reachable
  import opened Guarantees

  // ----- What the client makes of the messages it is sent -----

  datatype View = View(username: string, room: string)

  const NOBODY := View("", "")

  /** AuthOk names the account and the room, Joined the room.  Without a separator,
      `substr(0, npos)` and `substr(npos + 1)` are both the whole payload. */
  function Seen(v: View, m: Msg): View {
    match m.kind
    case AuthOk =>
      var separator := Find(m.payload, '\n');
      if separator == NPOS then View(m.payload, m.payload)
      else View(m.payload[..separator], m.payload[separator + 1..])
    case Joined => View(v.username, m.payload)
    case _ => v
  }

  function SeenAll(v: View, msgs: seq<Msg>): View {
    if msgs == [] then v else Seen(SeenAll(v, msgs[..|msgs| - 1]), msgs[|msgs| - 1])
  }

  lemma SeenOneMore(v: View, msgs: seq<Msg>, m: Msg)
    ensures SeenAll(v, msgs + [m]) == Seen(SeenAll(v, msgs), m)
  {
    assert (msgs + [m])[..|msgs|] == msgs;
  }

  /** Names without a newline survive the AuthOk payload. */
  lemma AuthOkRoundTrip(v: View, username: string, room: string)
    requires '\n' !in username
    ensures Seen(v, Msg(AuthOk, username + "\n" + room)) == View(username, room)
  {
    FindBehind(username, '\n', room);
    SlicesOfThree(username, "\n", room);
  }

  // ----- Both sides of one connection -----

  /** What the client has seen, and what the server's thread has in its locals. */
  datatype Sides = Sides(seen: View, here: View) {
    /** The same, or, if the name is too long to be announced, no name on the client's side. */
    predicate Agree() {
      if Announced(here.username) then seen == here else seen.username == ""
    }
  }

  /** The AuthOk of the name fits a frame. */
  predicate Announced(username: string) {
    |username| + 2 + |DEFAULT_ROOM| <= MAX_PAYLOAD
  }

  function Effect(p: Sides, a: Action): Sides {
    match a
    case Enter(username) => p.(here := View(username, DEFAULT_ROOM))
    case MoveTo(room) => p.(here := View(p.here.username, room))
    case Reply(m) => if Sendable(m) then p.(seen := Seen(p.seen, m)) else p
    case _ => p
  }

  function Planned(p: Sides, todo: seq<Action>): Sides
    decreases |todo|
  {
    if todo == [] then p else Planned(Effect(p, todo[0]), todo[1..])
  }

  function ViewOf(local: Local): View {
    View(local.username, local.room)
  }

  function SidesOf(t: Thread): Sides {
    Sides(SeenAll(NOBODY, t.outbox), ViewOf(t.local))
  }

  predicate Named(m: Msg) {
    !m.kind.Other?
  }

  predicate Speaks(a: Action) {
    a.Reply? ==> Named(a.msg)
  }

  /** Nobody has logged in on this connection yet. */
  ghost predicate Outside(t: Thread) {
    t.local.phase == Authenticating && forall i | 0 <= i < |t.todo| :: !t.todo[i].Enter?
  }

  /** Until then the client has been told nothing. */
  ghost predicate Untold(t: Thread) {
    Outside(t) ==> SeenAll(NOBODY, t.outbox) == NOBODY && AllNeutral(t.todo)
  }

  /** Once the thread has run its remaining blocks, the two sides will agree. */
  ghost predicate WillAgree(t: Thread) {
    && Planned(SidesOf(t), t.todo).Agree()
    && (forall i | 0 <= i < |t.todo| :: Speaks(t.todo[i]))
    && (forall i | 0 <= i < |t.outbox| :: Named(t.outbox[i]) && Sendable(t.outbox[i]))
  }

  /** Blocks that change neither side. */
  predicate Neutral(a: Action) {
    !a.Enter? && !a.MoveTo? && (a.Reply? ==> Named(a.msg) && a.msg.kind != AuthOk && a.msg.kind != Joined)
  }

  ghost predicate AllNeutral(blocks: seq<Action>) {
    forall i | 0 <= i < |blocks| :: Neutral(blocks[i])
  }

  lemma {:induction false} NeutralSkipped(p: Sides, blocks: seq<Action>, rest: seq<Action>)
    requires AllNeutral(blocks)
    ensures Planned(p, blocks + rest) == Planned(p, rest)
    decreases |blocks|
  {
    if blocks == [] {
      assert blocks + rest == rest;
    } else {
      assert (blocks + rest)[1..] == blocks[1..] + rest;
      NeutralSkipped(p, blocks[1..], rest);
    }
  }

  lemma AllNeutralAgree(p: Sides, blocks: seq<Action>)
    requires AllNeutral(blocks) && p.Agree()
    ensures Planned(p, blocks).Agree()
  {
    NeutralSkipped(p, blocks, []);
    assert blocks + [] == blocks;
  }

  // ----- Handlers -----

  /** A connection enters the chat with AuthOk saying what the registry says. */
  lemma EntranceAgrees(p: Sides, s: Sock, username: string)
    requires '\n' !in username && p.seen.username == ""
    ensures Planned(p, Entrance(s, username)).Agree()
  {
    var e := Entrance(s, username);
    var behind := e[2..];
    var entered := Effect(p, e[0]);
    var told := Effect(entered, e[1]);
    AuthOkRoundTrip(p.seen, username, DEFAULT_ROOM);
    assert |e[1].msg.payload| == |username| + 1 + |DEFAULT_ROOM|;
    assert told.Agree();
    AllNeutralAgree(told, behind);
    assert e[1..][1..] == behind;
    assert Planned(entered, e[1..]) == Planned(told, behind);
  }

  lemma EntranceSpeaks(s: Sock, username: string)
    ensures forall i | 0 <= i < 6 :: Speaks(Entrance(s, username)[i])
  {
  }

  /** A change of room and the Joined message that announces it cancel out. */
  lemma MoveAgrees(p: Sides, todo: seq<Action>, room: string)
    requires |todo| == 5 && p.Agree() && ChatRoom(room)
    requires todo[1] == MoveTo(room) && todo[2] == Reply(Msg(Joined, room))
    requires Neutral(todo[0]) && Neutral(todo[3]) && Neutral(todo[4])
    ensures Planned(p, todo).Agree()
  {
    var behind := todo[3..];
    var moved := Effect(p, todo[1]);
    var told := Effect(moved, todo[2]);
    AllNeutralAgree(told, behind);
    assert todo[2..][1..] == behind;
    assert Planned(moved, todo[2..]) == Planned(told, behind);
    assert todo[1..][1..] == todo[2..];
    assert Planned(p, todo[1..]) == Planned(moved, todo[2..]);
  }

  lemma JoinAgrees(p: Sides, s: Sock, username: string, room: string, payload: string)
    requires p.Agree()
    ensures Planned(p, HandleJoin(s, username, room, payload)).Agree()
  {
    var newRoom := SanitizeRoom(payload);
    SanitizedIsChatRoom(payload);
    if newRoom == "" || newRoom == room {
      AllNeutralAgree(p, HandleJoin(s, username, room, payload));
    } else {
      JoinBlocks(s, username, room, payload);
      MoveAgrees(p, HandleJoin(s, username, room, payload), newRoom);
    }
  }

  lemma NeutralMovesNobody(blocks: seq<Action>, room: string)
    requires AllNeutral(blocks)
    ensures MoveTo(room) !in blocks && Reply(Msg(Joined, room)) !in blocks
  {
    forall i | 0 <= i < |blocks| ensures blocks[i] != MoveTo(room) && blocks[i] != Reply(Msg(Joined, room)) {
      assert Neutral(blocks[i]);
    }
  }

  /** Whatever a thread reads: Joined is sent for the rooms that it moves to, and for no others. */
  lemma JoinedIffMoved(s: Sock, local: Local, input: Input, room: string)
    ensures Reply(Msg(Joined, room)) in Handle(s, local, input) <==> MoveTo(room) in Handle(s, local, input)
  {
    if input.Disconnected? {
      DepartureNeutral(local.username, local.room);
      NeutralMovesNobody(Handle(s, local, input), room);
    } else if local.phase != Chatting {
      AuthNeutral(input.data, input.salt, input.now);
      NeutralMovesNobody(Handle(s, local, input), room);
    } else if DecodeMessage(input.data).Some? && DecodeMessage(input.data).value.kind == Join {
      JoinedIfMoved(s, local.username, local.room, DecodeMessage(input.data).value.payload, room);
    } else {
      OtherFramesNeutral(s, local.username, local.room, input.data, input.now);
      NeutralMovesNobody(Handle(s, local, input), room);
    }
  }

  lemma JoinedIfMoved(s: Sock, username: string, room: string, payload: string, r: string)
    ensures var todo := HandleJoin(s, username, room, payload); Reply(Msg(Joined, r)) in todo <==> MoveTo(r) in todo
  {
    var todo, newRoom := HandleJoin(s, username, room, payload), SanitizeRoom(payload);
    if newRoom == "" || newRoom == room {
      assert AllNeutral(todo);
      NeutralMovesNobody(todo, r);
    } else {
      JoinBlocks(s, username, room, payload);
      assert todo == [todo[0], todo[1], todo[2], todo[3], todo[4]];
    }
  }

  lemma JoinSpeaks(s: Sock, username: string, room: string, payload: string)
    ensures forall i | 0 <= i < |HandleJoin(s, username, room, payload)| :: Speaks(HandleJoin(s, username, room, payload)[i])
  {
  }

  lemma AuthNeutral(frame: string, salt: string, now: Int64)
    ensures AllNeutral(HandleAuth(frame, salt, now))
  {
  }

  lemma DepartureNeutral(username: string, room: string)
    ensures AllNeutral(Departure(username, room))
  {
  }

  /** Nothing but Join changes the room. */
  lemma OtherFramesNeutral(s: Sock, username: string, room: string, frame: string, now: Int64)
    requires DecodeMessage(frame).Some? ==> DecodeMessage(frame).value.kind != Join
    ensures AllNeutral(HandleFrame(s, username, room, frame, now))
  {
  }

  lemma InputAgrees(p: Sides, s: Sock, local: Local, input: Input)
    requires p.Agree()
    ensures Planned(p, Handle(s, local, input)).Agree()
    ensures forall i | 0 <= i < |Handle(s, local, input)| :: Speaks(Handle(s, local, input)[i])
  {
    var todo := Handle(s, local, input);
    if input.Disconnected? {
      DepartureNeutral(local.username, local.room);
      AllNeutralAgree(p, todo);
    } else if local.phase != Chatting {
      AuthNeutral(input.data, input.salt, input.now);
      AllNeutralAgree(p, todo);
    } else if DecodeMessage(input.data).Some? && DecodeMessage(input.data).value.kind == Join {
      JoinAgrees(p, s, local.username, local.room, DecodeMessage(input.data).value.payload);
      JoinSpeaks(s, local.username, local.room, DecodeMessage(input.data).value.payload);
    } else {
      OtherFramesNeutral(s, local.username, local.room, input.data, input.now);
      AllNeutralAgree(p, todo);
    }
  }

  // ----- One block -----

  lemma NextNeutral(env: Env, sh: Shared, s: Sock, a: Action, ok: bool)
    requires !a.TryRegister? && !a.TryLogin?
    ensures AllNeutral(NextBlocks(env, sh, s, a, ok))
  {
  }

  /** A block moves the two sides as planned. */
  lemma SidesAfter(env: Env, sh: Shared, s: Sock, t: Thread, ok: bool)
    requires t.todo != [] && !t.todo[0].TryRegister? && !t.todo[0].TryLogin?
    requires Allowed(t.local.phase, t.todo[0])
    ensures ViewOf(LocalAfter(env, sh, t.local, t.todo[0], ok)) == Effect(SidesOf(t), t.todo[0]).here
    ensures t.todo[0].Reply? ==>
              SeenAll(NOBODY, Receiving(t, t.todo[0].msg).outbox) == Effect(SidesOf(t), t.todo[0]).seen
  {
    if t.todo[0].Reply? {
      SeenOneMore(NOBODY, t.outbox, t.todo[0].msg);
    }
  }

  /** A message that another thread sends changes nothing the client believes. */
  lemma OverheardIsNeutral(t: Thread, m: Msg)
    requires WillAgree(t) && Untold(t) && (m.kind == System || m.kind == ChatMsg || m.kind == DirectMsg)
    ensures WillAgree(Receiving(t, m)) && Untold(Receiving(t, m))
  {
    SeenOneMore(NOBODY, t.outbox, m);
  }

  lemma RefusalNeutral(env: Env, sh: Shared, s: Sock, a: Action, ok: bool)
    requires (a.TryRegister? || a.TryLogin?) && !Succeeds(env, sh.db, a, ok)
    ensures AllNeutral(NextBlocks(env, sh, s, a, ok))
  {
    var next := NextBlocks(env, sh, s, a, ok);
    assert |next| == 1 && next[0].Reply? && next[0].msg.kind == AuthFail;
  }

  lemma AdmittedAgrees(env: Env, sh: Shared, s: Sock, a: Action, ok: bool, p: Sides)
    requires (a.TryRegister? || a.TryLogin?) && Succeeds(env, sh.db, a, ok) && '\n' !in a.username && p.seen.username == ""
    ensures var next := NextBlocks(env, sh, s, a, ok);
            Planned(p, next).Agree() && forall i | 0 <= i < |next| :: Speaks(next[i])
  {
    var next := NextBlocks(env, sh, s, a, ok);
    EntranceSpeaks(s, a.username);
    if a.TryLogin? {
      EntranceAgrees(p, s, a.username);
    } else {
      var welcomed := Effect(p, next[0]);
      assert next[1..] == Entrance(s, a.username);
      EntranceAgrees(welcomed, s, a.username);
      assert Planned(p, next) == Planned(welcomed, next[1..]);
      assert forall i | 1 <= i < |next| :: next[i] == next[1..][i - 1];
    }
  }

  lemma AttemptName(env: Env, sh: Shared, local: Local, a: Action)
    requires (a.TryRegister? || a.TryLogin?) && Safe(env, sh, local.username, a)
    ensures '\n' !in a.username
  {
    if a.TryRegister? {
      UsernameChars(a.username, '\n');
    }
  }

  lemma AttemptOutside(t: Thread)
    requires Shaped(t.local.phase, t.todo) && t.todo != [] && (t.todo[0].TryRegister? || t.todo[0].TryLogin?)
    ensures Outside(t)
  {
  }

  lemma AttemptAgrees(env: Env, sh: Shared, s: Sock, t: Thread, ok: bool)
    requires t.todo != [] && (t.todo[0].TryRegister? || t.todo[0].TryLogin?)
    requires ThreadOk(env, sh, t) && MayRun(env, sh, t.local, t.todo[0]) && WillAgree(t) && Untold(t)
    ensures WillAgree(Advanced(env, sh, s, t, ok))
  {
    var a, t' := t.todo[0], Advanced(env, sh, s, t, ok);
    var next := NextBlocks(env, sh, s, a, ok);
    assert t.todo[1..] == [];
    assert t'.todo == next;
    if Succeeds(env, sh.db, a, ok) {
      AttemptName(env, sh, t.local, a);
      AttemptOutside(t);
      AdmittedAgrees(env, sh, s, a, ok, SidesOf(t'));
    } else {
      RefusalNeutral(env, sh, s, a, ok);
      assert Planned(SidesOf(t), t.todo) == Planned(SidesOf(t), t.todo[1..]) == SidesOf(t) == SidesOf(t');
      AllNeutralAgree(SidesOf(t'), next);
    }
  }

  lemma OwnBlockAgrees(env: Env, sh: Shared, s: Sock, t: Thread, ok: bool)
    requires t.todo != [] && ThreadOk(env, sh, t) && MayRun(env, sh, t.local, t.todo[0]) && WillAgree(t) && Untold(t)
    ensures WillAgree(AdvancedAndTold(env, sh, s, t, ok)) && Untold(AdvancedAndTold(env, sh, s, t, ok))
  {
    if t.todo[0].TryRegister? || t.todo[0].TryLogin? {
      AttemptAgrees(env, sh, s, t, ok);
    } else {
      PlainBlockAgrees(env, sh, s, t, ok);
    }
    if Outside(AdvancedAndTold(env, sh, s, t, ok)) {
      OwnBlockUntold(env, sh, s, t, ok);
    }
  }

  /** Before a login, failed attempts and refusals tell the client nothing. */
  lemma OwnBlockUntold(env: Env, sh: Shared, s: Sock, t: Thread, ok: bool)
    requires t.todo != [] && Untold(t) && Allowed(t.local.phase, t.todo[0]) && Outside(AdvancedAndTold(env, sh, s, t, ok))
    ensures Untold(AdvancedAndTold(env, sh, s, t, ok))
  {
    var a, t' := t.todo[0], AdvancedAndTold(env, sh, s, t, ok);
    var next := NextBlocks(env, sh, s, a, ok);
    assert t'.todo == next + t.todo[1..];
    StillOutside(env, sh, s, t, ok);
    if a.TryRegister? || a.TryLogin? {
      AttemptEnters(env, sh, s, a, ok);
      RefusalNeutral(env, sh, s, a, ok);
    } else {
      NextNeutral(env, sh, s, a, ok);
    }
    if a.Reply? {
      SeenOneMore(NOBODY, t.outbox, a.msg);
    }
  }

  lemma StillOutside(env: Env, sh: Shared, s: Sock, t: Thread, ok: bool)
    requires t.todo != [] && Allowed(t.local.phase, t.todo[0]) && Outside(AdvancedAndTold(env, sh, s, t, ok))
    ensures Outside(t)
    ensures forall i | 0 <= i < |NextBlocks(env, sh, s, t.todo[0], ok)| :: !NextBlocks(env, sh, s, t.todo[0], ok)[i].Enter?
  {
    var t', next := AdvancedAndTold(env, sh, s, t, ok), NextBlocks(env, sh, s, t.todo[0], ok);
    LocalPhase(env, sh, t.local, t.todo[0], ok);
    forall i | 1 <= i < |t.todo| ensures !t.todo[i].Enter? {
      assert t'.todo[|next| + i - 1] == t.todo[i];
    }
    forall i | 0 <= i < |next| ensures !next[i].Enter? {
      assert t'.todo[i] == next[i];
    }
  }

  lemma AttemptEnters(env: Env, sh: Shared, s: Sock, a: Action, ok: bool)
    requires a.TryRegister? || a.TryLogin?
    ensures var next := NextBlocks(env, sh, s, a, ok);
            Succeeds(env, sh.db, a, ok) ==> exists i :: 0 <= i < |next| && next[i].Enter?
  {
    if Succeeds(env, sh.db, a, ok) {
      assert NextBlocks(env, sh, s, a, ok)[if a.TryLogin? then 0 else 1] == Enter(a.username);
    }
  }

  /** The thread whose block runs, with what it sends itself. */
  function AdvancedAndTold(env: Env, sh: Shared, s: Sock, t: Thread, ok: bool): Thread
    requires t.todo != []
  {
    var t' := Advanced(env, sh, s, t, ok);
    if t.todo[0].Reply? then Receiving(t', t.todo[0].msg) else t'
  }

  lemma PlainBlockAgrees(env: Env, sh: Shared, s: Sock, t: Thread, ok: bool)
    requires t.todo != [] && !t.todo[0].TryRegister? && !t.todo[0].TryLogin?
    requires Allowed(t.local.phase, t.todo[0]) && WillAgree(t)
    ensures WillAgree(AdvancedAndTold(env, sh, s, t, ok))
  {
    var a := t.todo[0];
    var next := NextBlocks(env, sh, s, a, ok);
    NextNeutral(env, sh, s, a, ok);
    SidesAfter(env, sh, s, t, ok);
    NeutralSkipped(Effect(SidesOf(t), a), next, t.todo[1..]);
    var t' := AdvancedAndTold(env, sh, s, t, ok);
    assert t'.todo == next + t.todo[1..];
    assert SidesOf(t') == Effect(SidesOf(t), a);
    forall i | 0 <= i < |t'.todo| ensures Speaks(t'.todo[i]) {
      if i < |next| {
        assert Neutral(next[i]);
      } else {
        assert t'.todo[i] == t.todo[i - |next| + 1];
      }
    }
  }

  lemma RunAgrees(env: Env, st: State, s: Sock, ok: bool, r: Sock)
    requires Inv(env, st) && s in st.threads && st.threads[s].todo != [] && r in st.threads
    requires WillAgree(st.threads[s]) && WillAgree(st.threads[r]) && Untold(st.threads[s]) && Untold(st.threads[r])
    ensures r in RunBlock(env, st, s, ok).threads
    ensures WillAgree(RunBlock(env, st, s, ok).threads[r]) && Untold(RunBlock(env, st, s, ok).threads[r])
  {
    var t, a := st.threads[s], st.threads[s].todo[0];
    HeadMayRun(env, st, s);
    assert ThreadOk(env, st.shared, t);
    var t' := Advanced(env, st.shared, s, t, ok);
    var threads := st.threads[s := t'];
    DeliveredThread(threads, Sent(s, a), r);
    if r == s {
      OwnBlockAgrees(env, st.shared, s, t, ok);
    }
    if a.SendTo? && a.socket == r {
      OverheardIsNeutral(threads[r], a.msg);
    }
  }

  // ----- All runs -----

  ghost predicate ViewsOk(st: State) {
    forall s | s in st.threads :: WillAgree(st.threads[s]) && Untold(st.threads[s])
  }

  lemma RunKeepsViews(env: Env, st: State, s: Sock, ok: bool)
    requires Inv(env, st) && ViewsOk(st) && s in st.threads && st.threads[s].todo != []
    ensures ViewsOk(RunBlock(env, st, s, ok))
  {
    DeliveredKeys(st.threads[s := Advanced(env, st.shared, s, st.threads[s], ok)], Sent(s, st.threads[s].todo[0]));
    forall r | r in RunBlock(env, st, s, ok).threads
      ensures WillAgree(RunBlock(env, st, s, ok).threads[r]) && Untold(RunBlock(env, st, s, ok).threads[r])
    {
      RunAgrees(env, st, s, ok, r);
    }
  }

  lemma ReaderAgrees(s: Sock, t: Thread, input: Input)
    requires WillAgree(t) && Untold(t) && AtRead(t)
    ensures WillAgree(t.(todo := Handle(s, t.local, input))) && Untold(t.(todo := Handle(s, t.local, input)))
  {
    InputAgrees(SidesOf(t), s, t.local, input);
    if t.local.phase == Authenticating && input.Arrived? {
      AuthNeutral(input.data, input.salt, input.now);
    }
  }

  lemma StepAgrees(env: Env, st: State, step: Step)
    requires Inv(env, st) && ViewsOk(st) && Enabled(st, step)
    ensures ViewsOk(Next(env, st, step))
  {
    match step
    case Accept(_) =>
    case Receive(s, input) =>
      ReaderAgrees(s, st.threads[s], input);
    case Run(s, ok) => RunKeepsViews(env, st, s, ok);
  }

  lemma {:induction false} AlwaysAgree(env: Env, run: seq<Step>)
    requires After(env, run).Some?
    ensures ViewsOk(After(env, run).value)
  {
    if run != [] {
      var front := run[..|run| - 1];
      AlwaysAgree(env, front);
      AlwaysInv(env, front);
      StepAgrees(env, After(env, front).value, run[|run| - 1]);
    }
  }

  // ----- receive_messages -----

  /** The client's globals that the receive thread writes. */
  datatype Globals = Globals(view: View, authenticated: bool, authFailed: bool)

  const FRESH := Globals(NOBODY, false, false)

  function Take(g: Globals, frame: string): Globals {
    match DecodeMessage(frame)
    case None => g
    case Some(m) => Globals(Seen(g.view, m), g.authenticated || m.kind == AuthOk, g.authFailed || m.kind == AuthFail)
  }

  function TakeAll(g: Globals, frames: seq<string>): Globals {
    if frames == [] then g else Take(TakeAll(g, frames[..|frames| - 1]), frames[|frames| - 1])
  }

  lemma {:induction false} TakeAppend(g: Globals, a: seq<string>, b: seq<string>)
    ensures TakeAll(g, a + b) == TakeAll(TakeAll(g, a), b)
  {
    if b == [] {
      assert a + b == a;
    } else {
      assert (a + b)[..|a + b| - 1] == a + b[..|b| - 1];
      TakeAppend(g, a, b[..|b| - 1]);
    }
  }

  /** What a client ends with when `recv` still returns `incoming`, one chunk a call. */
  function Outcome(g: Globals, pending: string, incoming: seq<string>): Globals {
    TakeAll(g, Deliverable(pending, [], incoming))
  }

  lemma QueueFirst(pending: string, queue: seq<string>, incoming: seq<string>)
    ensures Deliverable(pending, queue, incoming) == queue + Deliverable(pending, [], incoming)
  {
  }

  lemma ChunkTaken(g: Globals, pending: string, incoming: seq<string>, i: nat)
    requires i < |incoming|
    ensures var now := Split(pending + incoming[i]);
            Outcome(g, pending, incoming[i..]) ==
            if now.ok then Outcome(TakeAll(g, now.frames), now.rest, incoming[i + 1..]) else g
  {
    var now := Split(pending + incoming[i]);
    assert incoming[i..][1..] == incoming[i + 1..];
    if now.ok {
      QueueFirst(now.rest, now.frames, incoming[i + 1..]);
      var later := Deliverable(now.rest, [], incoming[i + 1..]);
      assert [] + (now.frames + later) == now.frames + later;
      TakeAppend(g, now.frames, later);
    }
  }

  class Client {
    var connected: bool
    var authenticated: bool
    var authFailed: bool
    var username: string
    var room: string

    constructor ()
      ensures connected && State() == FRESH
    {
      connected, authenticated, authFailed := true, false, false;
      username, room := "", "";
    }

    function State(): Globals
      reads this
    {
      Globals(View(username, room), authenticated, authFailed)
    }

    method Dispatch(frame: string)
      modifies this
      ensures State() == Take(old(State()), frame)
      ensures connected == old(connected)
    {
      if frame == "" {
        return;
      }
      var kind, payload := KindOf(Octet(frame[0])), frame[1..];
      if kind == AuthOk {
        var separator := Find(payload, '\n');
        username := if separator == NPOS then payload else payload[..separator];
        room := payload[separator + 1..];
        authenticated := true;
      } else if kind == AuthFail {
        authFailed := true;
      } else if kind == Joined {
        room := payload;
      }
    }

    method DispatchAll(frames: seq<string>)
      modifies this
      ensures State() == TakeAll(old(State()), frames)
      ensures connected == old(connected)
    {
      for i := 0 to |frames|
        invariant State() == TakeAll(old(State()), frames[..i])
        invariant connected == old(connected)
      {
        assert frames[..i + 1][..i] == frames[..i];
        Dispatch(frames[i]);
      }
      assert frames[..|frames|] == frames;
    }

    /** One `recv`: split what has arrived and dispatch it, or give up. */
    method TakeChunk(pending: string, chunk: string) returns (pending': string)
      requires connected
      modifies this
      ensures var now := Split(pending + chunk);
              && connected == now.ok
              && State() == (if now.ok then TakeAll(old(State()), now.frames) else old(State()))
              && (now.ok ==> pending' == now.rest)
    {
      var ok, rest, frames := ExtractFrames(pending + chunk, []);
      pending' := rest;
      if !ok {
        connected := false;
      } else {
        assert [] + Split(pending + chunk).frames == Split(pending + chunk).frames;
        DispatchAll(frames);
      }
    }

    /** Until the connection ends or an oversized header arrives, whatever `recv` hands out is
        split and dispatched; the frames of the call that fails are not. */
    method ReceiveMessages(incoming: seq<string>)
      requires connected
      modifies this
      ensures !connected
      ensures State() == Outcome(old(State()), "", incoming)
    {
      var pending, i := "", 0;
      ghost var whole := Outcome(State(), "", incoming);
      assert incoming[0..] == incoming;
      while connected
        invariant 0 <= i <= |incoming|
        invariant connected ==> whole == Outcome(State(), pending, incoming[i..])
        invariant !connected ==> whole == State()
        decreases |incoming| - i, connected
      {
        if i == |incoming| {
          connected := false;
          break;
        }
        ChunkTaken(State(), pending, incoming, i);
        pending := TakeChunk(pending, incoming[i]);
        i := i + 1;
      }
    }
  }

  // ----- The client against the registry -----

  function Frames(msgs: seq<Msg>): (frames: seq<string>)
    ensures |frames| == |msgs| && forall i | 0 <= i < |msgs| :: frames[i] == EncodeMessage(msgs[i])
  {
    seq(|msgs|, i requires 0 <= i < |msgs| => EncodeMessage(msgs[i]))
  }

  lemma NamedIsProper(m: Msg)
    requires Named(m)
    ensures DecodeMessage(EncodeMessage(m)) == Some(m)
  {
    MessageRoundTrip(m, "");
  }

  lemma {:induction false} TakenIsSeen(msgs: seq<Msg>)
    requires forall i | 0 <= i < |msgs| :: Named(msgs[i])
    ensures TakeAll(FRESH, Frames(msgs)).view == SeenAll(NOBODY, msgs)
  {
    if msgs != [] {
      var front := msgs[..|msgs| - 1];
      TakenIsSeen(front);
      assert Frames(msgs)[..|msgs| - 1] == Frames(front);
      NamedIsProper(msgs[|msgs| - 1]);
    }
  }

  lemma FramesSendable(msgs: seq<Msg>)
    requires forall i | 0 <= i < |msgs| :: Sendable(msgs[i])
    ensures AllSendable(Frames(msgs))
  {
  }

  lemma SettledAgree(t: Thread)
    requires WillAgree(t) && Untold(t) && AtRead(t)
    ensures t.local.phase == Authenticating ==> SeenAll(NOBODY, t.outbox) == NOBODY
    ensures SeenAll(NOBODY, t.outbox) == ViewOf(t.local) <==> Announced(t.local.username)
  {
    assert Planned(SidesOf(t), t.todo) == SidesOf(t);
  }

  lemma BytesSeen(msgs: seq<Msg>, incoming: seq<string>)
    requires forall i | 0 <= i < |msgs| :: Named(msgs[i]) && Sendable(msgs[i])
    requires Concat(incoming) == Stream(Frames(msgs))
    ensures Outcome(FRESH, "", incoming).view == SeenAll(NOBODY, msgs)
  {
    FramesSendable(msgs);
    EndToEnd(Frames(msgs), incoming);
    TakenIsSeen(msgs);
  }

  /** When a connection's thread waits for its next frame, a client that has consumed the bytes
      sent to it, cut into whatever chunks, shows the account and the room of its entry in the
      server's registry, exactly if the name was short enough to be announced; and nobody before a
      login.  This holds after any failed logins and joins. */
  lemma ClientShowsRegistry(env: Env, run: seq<Step>, st: State, s: Sock, incoming: seq<string>)
    requires After(env, run) == Some(st) && s in st.threads && AtRead(st.threads[s])
    requires Concat(incoming) == Stream(Frames(st.threads[s].outbox))
    ensures var view, local := Outcome(FRESH, "", incoming).view, st.threads[s].local;
            && (local.phase == Authenticating ==> view == NOBODY)
            && (view == ViewOf(local) <==> Announced(local.username))
            && (local.phase == Chatting ==> ClientInfo(s, local.username, local.room) in st.shared.clients)
  {
    AlwaysAgree(env, run);
    RegistryIsExact(env, run, st, s);
    BytesSeen(st.threads[s].outbox, incoming);
    SettledAgree(st.threads[s]);
  }
}
