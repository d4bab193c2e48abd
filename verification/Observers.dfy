/** When handlers run one at a time, every observer's count of its room is exact: Presence, over
    all runs of the server. */
module Observers {
  import opened Seqs
  import opened Text
  import opened Names
  import opened Requests
  import opened Messages
  import opened Codec
  import opened Registry
  import opened Store
  import opened Server
  import opened Invariant
  import opened Reachable
  import opened RoomListing
  import opened Presence

  // ----- Texts that are no notes -----

  lemma StoreTextsNoNotes()
    ensures NoNote(STORE_FAILED) && NoNote(DIRECT_STORE_FAILED)
  {
    OtherText(STORE_FAILED, "", 6);
    assert STORE_FAILED + "" == STORE_FAILED;
    DirectStoreText();
  }

  lemma DirectStoreText()
    ensures NoNote(DIRECT_STORE_FAILED)
  {
    OtherText("Failed to ", "store the direct message in history.", 6);
  }

  lemma HistoryUsageMute()
    ensures Mute(Note(HISTORY_USAGE))
  {
    OtherText(HISTORY_USAGE, "", 6);
    assert HISTORY_USAGE + "" == HISTORY_USAGE;
  }

  lemma DirectUsageMute()
    ensures Mute(Note(DIRECT_USAGE))
  {
    OtherText(DIRECT_USAGE, "", 6);
    assert DIRECT_USAGE + "" == DIRECT_USAGE;
  }

  lemma MalformedMute()
    ensures Mute(Note(MALFORMED))
  {
    OtherText(MALFORMED, "", 8);
    assert MALFORMED + "" == MALFORMED;
  }

  lemma UnsupportedMute()
    ensures Mute(Note(UNSUPPORTED))
  {
    OtherText(UNSUPPORTED, "", 11);
    assert UNSUPPORTED + "" == UNSUPPORTED;
  }

  lemma NoHistoryMute(room: string)
    ensures Mute(Note("No message history in room '" + room + "' yet."))
  {
    OtherText("No message history in room '", room + "' yet.", 2);
    Associative("No message history in room '", room, "' yet.");
  }

  lemma RoomListMute(clients: seq<ClientInfo>, known: seq<string>)
    ensures Mute(Note(RoomList(clients, known)))
  {
    var rooms := ListedRooms(clients, known);
    var none := if rooms == [] then "\n  (none yet)" else "";
    OtherText("Known rooms:", none + RoomLines(clients, rooms), 5);
    Associative("Known rooms:", none, RoomLines(clients, rooms));
  }

  lemma OfflineMute(user: string)
    ensures Mute(Note("User '" + user + "' not found or offline."))
  {
    OtherText("User '", user + "' not found or offline.", 4);
    Associative("User '", user, "' not found or offline.");
  }

  // ----- Handlers -----

  lemma AuthSilent(frame: string, salt: string, now: Int64)
    ensures AllSilent(HandleAuth(frame, salt, now))
  {
  }

  lemma ChatSilent(s: Sock, username: string, room: string, payload: string, now: Int64)
    ensures AllSilent(HandleChat(s, username, room, payload, now))
  {
    StoreTextsNoNotes();
  }

  lemma HistorySilent(username: string, room: string, payload: string)
    ensures AllSilent(HandleHistory(username, room, payload))
  {
    match ReadHistoryRequest(payload)
    case Usage => HistoryUsageMute();
    case OfRoom(limit) => ReplaySilent(room, limit);
    case OfThread(user, limit) => ReplaySilent(DmKey(username, user), limit);
  }

  lemma DirectSilent(username: string, payload: string, now: Int64)
    ensures AllSilent(HandleDirect(username, payload, now))
  {
    DirectUsageMute();
  }

  lemma UsersSilent(room: string, payload: string)
    ensures AllSilent(HandleUsers(room, payload))
  {
  }

  lemma MessageSilent(s: Sock, username: string, room: string, frame: string, m: Msg, now: Int64)
    requires DecodeMessage(frame) == Some(m) && m.kind != Join && m.kind != Quit
    ensures AllSilent(HandleFrame(s, username, room, frame, now))
  {
    match m.kind
    case Chat => ChatSilent(s, username, room, m.payload, now);
    case HistoryReq => HistorySilent(username, room, m.payload);
    case Direct => DirectSilent(username, m.payload, now);
    case UsersReq => UsersSilent(room, m.payload);
    case RoomsReq =>
    case _ => UnsupportedMute();
  }

  lemma OtherFrameSilent(s: Sock, username: string, room: string, frame: string, now: Int64)
    requires DecodeMessage(frame).Some? ==> DecodeMessage(frame).value.kind != Join && DecodeMessage(frame).value.kind != Quit
    ensures AllSilent(HandleFrame(s, username, room, frame, now))
  {
    if DecodeMessage(frame).Some? {
      MessageSilent(s, username, room, frame, DecodeMessage(frame).value, now);
    } else {
      MalformedMute();
    }
  }

  /** Whatever a thread reads, once its handler has run every observer is exact again. */
  lemma InputExact(sc: Scene, o: Sock, s: Sock, local: Local, input: Input)
    requires Known(sc.clients, s, local) && Exact(sc, o)
    ensures Exact(PlannedAll(sc, o, s, Handle(s, local, input)), o)
  {
    if local.phase != Chatting {
      if input.Arrived? {
        AuthSilent(input.data, input.salt, input.now);
      }
      AllSilentUnnoticed(sc, o, s, Handle(s, local, input));
    } else if input.Disconnected? {
      DepartureExact(sc, o, s, local);
    } else {
      FrameExact(sc, o, s, local, input.data, input.now);
    }
  }

  lemma FrameExact(sc: Scene, o: Sock, s: Sock, local: Local, frame: string, now: Int64)
    requires Known(sc.clients, s, local) && local.phase == Chatting && Exact(sc, o)
    ensures Exact(PlannedAll(sc, o, s, HandleFrame(s, local.username, local.room, frame, now)), o)
  {
    var m := DecodeMessage(frame);
    if m.Some? && m.value.kind == Join {
      JoinExact(sc, o, s, local, m.value.payload);
    } else if m.Some? && m.value.kind == Quit {
      GoodbyeMute(local.username);
      QuitExact(sc, o, s, local, Note("Goodbye, " + local.username + "!"));
    } else {
      OtherFrameSilent(s, local.username, local.room, frame, now);
      AllSilentUnnoticed(sc, o, s, HandleFrame(s, local.username, local.room, frame, now));
    }
  }

  /** A block that says it may fail to store says so in a text that is no note. */
  predicate Tame(a: Action) {
    a.StoreMessage? ==> NoNote(a.onFailure)
  }

  ghost predicate AllTame(todo: seq<Action>) {
    forall i | 0 <= i < |todo| :: Tame(todo[i])
  }

  lemma SilentTame(blocks: seq<Action>)
    requires AllSilent(blocks)
    ensures AllTame(blocks)
  {
    forall i | 0 <= i < |blocks| ensures Tame(blocks[i]) {
      assert Silent(blocks[i]);
    }
  }

  lemma JoinTame(s: Sock, username: string, room: string, payload: string)
    ensures AllTame(HandleJoin(s, username, room, payload))
  {
  }

  lemma QuitTame(goodbye: Msg, username: string, room: string)
    ensures AllTame(Departure(username, room)) && AllTame([Reply(goodbye)] + Departure(username, room))
  {
  }

  lemma MoverTame(s: Sock, username: string, room: string, frame: string, m: Msg, now: Int64)
    requires DecodeMessage(frame) == Some(m) && (m.kind == Join || m.kind == Quit)
    ensures AllTame(HandleFrame(s, username, room, frame, now))
  {
    if m.kind == Join {
      JoinTame(s, username, room, m.payload);
    } else {
      QuitTame(Note("Goodbye, " + username + "!"), username, room);
    }
  }

  lemma FrameTame(s: Sock, username: string, room: string, frame: string, now: Int64)
    ensures AllTame(HandleFrame(s, username, room, frame, now))
  {
    var m := DecodeMessage(frame);
    if m.Some? && (m.value.kind == Join || m.value.kind == Quit) {
      MoverTame(s, username, room, frame, m.value, now);
    } else {
      OtherFrameSilent(s, username, room, frame, now);
      SilentTame(HandleFrame(s, username, room, frame, now));
    }
  }

  lemma InputTame(s: Sock, local: Local, input: Input)
    ensures AllTame(Handle(s, local, input))
  {
    if local.phase == Chatting && input.Arrived? {
      FrameTame(s, local.username, local.room, input.data, input.now);
    } else if local.phase == Chatting {
      QuitTame(Note(""), local.username, local.room);
    } else if input.Arrived? {
      AuthSilent(input.data, input.salt, input.now);
      SilentTame(HandleAuth(input.data, input.salt, input.now));
    }
  }

  // ----- One block -----

  /** The sends of a broadcast, one by one, are heard as planned. */
  lemma {:induction false} SendsHeard(sc: Scene, o: Sock, s: Sock, sockets: seq<Sock>, m: Msg, rest: seq<Action>)
    requires Distinct(sockets)
    ensures PlannedAll(sc, o, s, SendsTo(sockets, m) + rest) ==
            PlannedAll(if o in sockets then Hear(sc, o, m) else sc, o, s, rest)
    decreases |sockets|
  {
    if sockets == [] {
      assert SendsTo(sockets, m) + rest == rest;
    } else {
      var sends := SendsTo(sockets, m) + rest;
      assert sends[1..] == SendsTo(sockets[1..], m) + rest;
      assert sockets == [sockets[0]] + sockets[1..];
      SendsHeard(Planned(sc, o, s, sends[0]), o, s, sockets[1..], m, rest);
    }
  }

  lemma RouteSilent(env: Env, target: Option<Sock>, s: Sock, dm: DirectMessage)
    ensures AllSilent(Deliveries(env, target, s, dm))
  {
    if target.None? {
      OfflineMute(dm.to);
    } else {
      DirectStoreText();
      var d := Deliveries(env, target, s, dm);
      assert |d| == 3 && d[0].StoreMessage? && d[0].onFailure == DIRECT_STORE_FAILED;
      assert d[1].SendTo? && d[1].msg.kind == DirectMsg && d[2].SendTo? && d[2].msg.kind == DirectMsg;
    }
  }

  lemma NextSilent(env: Env, sh: Shared, s: Sock, a: Action, ok: bool)
    requires !a.TryRegister? && !a.TryLogin? && !a.Broadcast? && Tame(a)
    ensures AllSilent(NextBlocks(env, sh, s, a, ok))
  {
    match a
    case Replay(room, _) => NoHistoryMute(room);
    case ListRoomsFor(clients) => RoomListMute(clients, if ok then ListRooms(sh.db, LISTED_ROOMS) else []);
    case Route(_, target, _, _) => RouteSilent(env, FindUser(sh.clients, target), s, RoutedMessage(a));
    case _ =>
  }

  lemma ClientsAfter(env: Env, sh: Shared, sc: Scene, o: Sock, s: Sock, a: Action, ok: bool)
    requires sc.clients == sh.clients
    ensures Played(sc, o, s, a).clients == SharedAfter(env, sh, s, a, ok).clients
  {
  }

  /** Running a block leaves the plan where it was. */
  lemma BlockPlanned(env: Env, sh: Shared, sc: Scene, o: Sock, s: Sock, todo: seq<Action>, ok: bool)
    requires sc.clients == sh.clients && Unique(sh.clients)
    requires todo != [] && !todo[0].TryRegister? && !todo[0].TryLogin? && Tame(todo[0])
    ensures PlannedAll(Played(sc, o, s, todo[0]), o, s, NextBlocks(env, sh, s, todo[0], ok) + todo[1..]) ==
            PlannedAll(sc, o, s, todo)
  {
    var a := todo[0];
    if a.Broadcast? {
      RecipientsDistinct(sh.clients, a.room, a.exclude);
      SendsHeard(sc, o, s, Recipients(sh.clients, a.room, a.exclude), a.msg, todo[1..]);
    } else {
      NextSilent(env, sh, s, a, ok);
      SilentSkipped(Played(sc, o, s, a), o, s, NextBlocks(env, sh, s, a, ok), todo[1..]);
    }
  }

  lemma RouteTame(env: Env, sh: Shared, s: Sock, a: Action, ok: bool)
    requires a.Route?
    ensures AllTame(NextBlocks(env, sh, s, a, ok))
  {
    RouteSilent(env, FindUser(sh.clients, a.target), s, RoutedMessage(a));
    SilentTame(NextBlocks(env, sh, s, a, ok));
  }

  /** Only a routed direct message puts a store in front. */
  lemma NextTame(env: Env, sh: Shared, s: Sock, a: Action, ok: bool)
    ensures AllTame(NextBlocks(env, sh, s, a, ok))
  {
    if a.Route? {
      RouteTame(env, sh, s, a, ok);
    }
  }

  lemma AdmittedExact(env: Env, sh: Shared, sc: Scene, o: Sock, s: Sock, a: Action, ok: bool)
    requires (a.TryRegister? || a.TryLogin?) && Succeeds(env, sh.db, a, ok) && ValidUsername(a.username)
    requires Unique(sc.clients) && !Listed(sc.clients, s) && RoomOf(sc.clients, s).None? && Exact(sc, o)
    ensures Exact(PlannedAll(sc, o, s, NextBlocks(env, sh, s, a, ok)), o)
  {
    UniqueFresh(sc.clients, ClientInfo(s, a.username, DEFAULT_ROOM));
    EntranceExact(sc, o, s, a.username);
    if a.TryRegister? {
      CreatedMute(a.username);
      SilentSkipped(sc, o, s, [Reply(Note("Account '" + a.username + "' created. Welcome!"))], Entrance(s, a.username));
    }
  }

  lemma RefusedExact(env: Env, sh: Shared, sc: Scene, o: Sock, s: Sock, a: Action, ok: bool)
    requires (a.TryRegister? || a.TryLogin?) && !Succeeds(env, sh.db, a, ok)
    ensures PlannedAll(sc, o, s, NextBlocks(env, sh, s, a, ok)) == sc
  {
    var next := NextBlocks(env, sh, s, a, ok);
    assert |next| == 1 && next[0].Reply? && next[0].msg.kind == AuthFail;
    OneMuteReply(sc, o, s, next);
  }

  // ----- Names without a NUL -----

  /** Notes can be read only if names are as they were registered: a login frame may put a NUL, and
      anything behind it, after the name of an account. */
  predicate PlainLogin(input: Input) {
    input.Arrived? ==>
      match DecodeMessage(input.data)
      case None => true
      case Some(m) =>
        m.kind == Login && ReadCredentials(m.payload).Some? ==> NUL !in ReadCredentials(m.payload).value.0
  }

  predicate NamesPlainly(a: Action) {
    a.TryRegister? || a.TryLogin? || a.Enter? ==> NUL !in a.username
  }

  ghost predicate AllPlain(blocks: seq<Action>) {
    forall i | 0 <= i < |blocks| :: NamesPlainly(blocks[i])
  }

  ghost predicate PlainThread(t: Thread) {
    (t.local.phase == Chatting ==> NUL !in t.local.username) && AllPlain(t.todo)
  }

  ghost predicate PlainNames(st: State) {
    forall s | s in st.threads :: PlainThread(st.threads[s])
  }

  lemma AuthPlain(input: Input)
    requires input.Arrived? && PlainLogin(input)
    ensures AllPlain(HandleAuth(input.data, input.salt, input.now))
  {
    var todo := HandleAuth(input.data, input.salt, input.now);
    if todo[0].TryRegister? {
      NameHasNoNul(todo[0].username);
    }
  }

  lemma ReaderPlain(s: Sock, t: Thread, input: Input)
    requires PlainThread(t) && AtRead(t) && (t.local.phase == Authenticating ==> PlainLogin(input))
    requires Shaped(t.local.phase, Handle(s, t.local, input))
    ensures PlainThread(t.(todo := Handle(s, t.local, input)))
  {
    if t.local.phase == Chatting {
      InsideStays(t.local.phase, Handle(s, t.local, input));
    } else if input.Arrived? {
      AuthPlain(input);
    }
  }

  lemma NextPlain(env: Env, sh: Shared, s: Sock, a: Action, ok: bool)
    requires NamesPlainly(a)
    ensures AllPlain(NextBlocks(env, sh, s, a, ok))
  {
  }

  lemma RunnerPlain(env: Env, sh: Shared, s: Sock, t: Thread, ok: bool)
    requires t.todo != [] && PlainThread(t) && Allowed(t.local.phase, t.todo[0])
    ensures PlainThread(Advanced(env, sh, s, t, ok))
  {
    var next, t' := NextBlocks(env, sh, s, t.todo[0], ok), Advanced(env, sh, s, t, ok);
    NextPlain(env, sh, s, t.todo[0], ok);
    assert NamesPlainly(t.todo[0]);
    forall i | 0 <= i < |t'.todo| ensures NamesPlainly(t'.todo[i]) {
      if i >= |next| {
        assert t'.todo[i] == t.todo[i - |next| + 1];
      }
    }
  }

  lemma RunPlain(env: Env, st: State, s: Sock, ok: bool)
    requires Inv(env, st) && PlainNames(st) && s in st.threads && st.threads[s].todo != []
    ensures PlainNames(RunBlock(env, st, s, ok))
  {
    var t := st.threads[s];
    var threads := st.threads[s := Advanced(env, st.shared, s, t, ok)];
    assert ThreadOk(env, st.shared, t);
    RunnerPlain(env, st.shared, s, t, ok);
    DeliveredKeys(threads, Sent(s, t.todo[0]));
    forall r | r in RunBlock(env, st, s, ok).threads ensures PlainThread(RunBlock(env, st, s, ok).threads[r]) {
      DeliveredThread(threads, Sent(s, t.todo[0]), r);
    }
  }

  /** No name is cut by what this step reads. */
  predicate PlainStep(st: State, step: Step) {
    step.Receive? && step.socket in st.threads && st.threads[step.socket].local.phase == Authenticating ==> PlainLogin(step.input)
  }

  lemma StepPlain(env: Env, st: State, step: Step)
    requires Inv(env, st) && PlainNames(st) && Enabled(st, step) && PlainStep(st, step)
    ensures PlainNames(Next(env, st, step))
  {
    match step
    case Accept(_) =>
    case Receive(s, input) =>
      ReceivedShaped(env, st, s, input);
      ReaderPlain(s, st.threads[s], input);
    case Run(s, ok) => RunPlain(env, st, s, ok);
  }

  lemma PlainIsValid(env: Env, st: State, s: Sock)
    requires Inv(env, st) && PlainNames(st) && s in st.threads && st.threads[s].local.phase == Chatting
    ensures ValidUsername(st.threads[s].local.username)
  {
    assert ThreadOk(env, st.shared, st.threads[s]);
    assert PlainThread(st.threads[s]);
  }

  // ----- Steps -----

  ghost predicate AllIdle(st: State) {
    forall s | s in st.threads :: st.threads[s].todo == []
  }

  /** Only `s` has blocks left to run. */
  ghost predicate OnlyBusy(st: State, s: Sock) {
    forall r | r in st.threads && r != s :: st.threads[r].todo == []
  }

  ghost predicate TodoTame(st: State) {
    forall s | s in st.threads :: AllTame(st.threads[s].todo)
  }

  /** Of at most one busy thread: after the blocks it has left, the observer will be exact. */
  ghost predicate Foreseen(st: State, o: Sock, view: multiset<string>) {
    || (AllIdle(st) && Exact(Scene(st.shared.clients, view), o))
    || (exists s :: ForeseenAfter(st, s, o, view))
  }

  ghost predicate ForeseenAfter(st: State, s: Sock, o: Sock, view: multiset<string>) {
    s in st.threads && OnlyBusy(st, s) && Exact(PlannedAll(Scene(st.shared.clients, view), o, s, st.threads[s].todo), o)
  }

  /** What `o` holds after a step. */
  function Updated(st: State, step: Step, o: Sock, view: multiset<string>): multiset<string>
    requires Enabled(st, step)
  {
    if step.Run? then Played(Scene(st.shared.clients, view), o, step.socket, st.threads[step.socket].todo[0]).view else view
  }

  lemma {:induction false} UnlistedNowhere(clients: seq<ClientInfo>, s: Sock)
    requires forall i | 0 <= i < |clients| :: clients[i].socket != s
    ensures RoomOf(clients, s).None?
  {
    if clients != [] {
      UnlistedNowhere(clients[1..], s);
    }
  }

  lemma ChatterListed(env: Env, st: State, s: Sock)
    requires Inv(env, st) && s in st.threads && st.threads[s].local.phase == Chatting
    ensures Unique(st.shared.clients)
    ensures ClientInfo(s, st.threads[s].local.username, st.threads[s].local.room) in st.shared.clients
  {
    assert Listed(st.shared.clients, s);
    var i :| 0 <= i < |st.shared.clients| && st.shared.clients[i].socket == s;
    assert Agrees(st.threads, st.shared.clients[i]);
    assert st.shared.clients[i] == ClientInfo(s, st.threads[s].local.username, st.threads[s].local.room);
  }

  /** The invariant says what a handler may rely on. */
  lemma ThreadKnown(env: Env, st: State, s: Sock)
    requires Inv(env, st) && PlainNames(st) && s in st.threads
    ensures Known(st.shared.clients, s, st.threads[s].local)
    ensures st.threads[s].local.phase != Chatting ==> !Listed(st.shared.clients, s)
  {
    var clients, local := st.shared.clients, st.threads[s].local;
    assert ThreadOk(env, st.shared, st.threads[s]);
    if local.phase == Chatting {
      assert Listed(clients, s);
      var i :| 0 <= i < |clients| && clients[i].socket == s;
      assert Agrees(st.threads, clients[i]);
      assert clients[i] == ClientInfo(s, local.username, local.room);
      PlainIsValid(env, st, s);
    } else {
      forall i | 0 <= i < |clients| ensures clients[i].socket != s {
        assert Agrees(st.threads, clients[i]);
      }
      UnlistedNowhere(clients, s);
    }
  }

  lemma IdleExact(st: State, o: Sock, view: multiset<string>)
    requires Foreseen(st, o, view) && AllIdle(st)
    ensures Exact(Scene(st.shared.clients, view), o)
  {
  }

  lemma ReceiveForeseen(env: Env, st: State, s: Sock, input: Input, o: Sock, view: multiset<string>)
    requires Inv(env, st) && PlainNames(st) && AllIdle(st) && Enabled(st, Receive(s, input))
    requires Exact(Scene(st.shared.clients, view), o)
    ensures ForeseenAfter(Next(env, st, Receive(s, input)), s, o, view)
  {
    ThreadKnown(env, st, s);
    InputExact(Scene(st.shared.clients, view), o, s, st.threads[s].local, input);
  }

  /** The block of an attempt, which is always the last. */
  lemma AttemptForeseen(env: Env, st: State, s: Sock, ok: bool, o: Sock, view: multiset<string>)
    requires Inv(env, st) && PlainNames(st) && ForeseenAfter(st, s, o, view) && st.threads[s].todo != []
    requires st.threads[s].todo[0].TryRegister? || st.threads[s].todo[0].TryLogin?
    ensures Exact(PlannedAll(Scene(st.shared.clients, view), o, s, NextBlocks(env, st.shared, s, st.threads[s].todo[0], ok)), o)
  {
    var t, a, sc := st.threads[s], st.threads[s].todo[0], Scene(st.shared.clients, view);
    assert ThreadOk(env, st.shared, t);
    HeadMayRun(env, st, s);
    assert t.todo[1..] == [];
    assert PlannedAll(sc, o, s, t.todo) == sc;
    if Succeeds(env, st.shared.db, a, ok) {
      if a.TryLogin? {
        LoginIsValid(env.hash, st.shared, a.username, a.password);
        assert NamesPlainly(a);
      }
      ThreadKnown(env, st, s);
      AdmittedExact(env, st.shared, sc, o, s, a, ok);
    } else {
      RefusedExact(env, st.shared, sc, o, s, a, ok);
    }
  }

  lemma OnlyBusyStill(env: Env, st: State, s: Sock, ok: bool)
    requires s in st.threads && st.threads[s].todo != [] && OnlyBusy(st, s)
    ensures OnlyBusy(RunBlock(env, st, s, ok), s) && s in RunBlock(env, st, s, ok).threads
  {
    TodoAfter(env, st, s, ok, s);
    forall r | r in RunBlock(env, st, s, ok).threads && r != s ensures RunBlock(env, st, s, ok).threads[r].todo == [] {
      TodoAfter(env, st, s, ok, r);
    }
  }

  /** The plan of the busy thread, before and after one of its blocks. */
  lemma PlanStays(env: Env, st: State, s: Sock, ok: bool, o: Sock, view: multiset<string>)
    requires Inv(env, st) && PlainNames(st) && TodoTame(st) && ForeseenAfter(st, s, o, view) && st.threads[s].todo != []
    ensures var a := st.threads[s].todo[0];
            var sc := Played(Scene(st.shared.clients, view), o, s, a);
            && sc.clients == SharedAfter(env, st.shared, s, a, ok).clients
            && Exact(PlannedAll(sc, o, s, NextBlocks(env, st.shared, s, a, ok) + st.threads[s].todo[1..]), o)
  {
    var t, a, sc := st.threads[s], st.threads[s].todo[0], Scene(st.shared.clients, view);
    ClientsAfter(env, st.shared, sc, o, s, a, ok);
    if a.TryRegister? || a.TryLogin? {
      AttemptForeseen(env, st, s, ok, o, view);
      assert ThreadOk(env, st.shared, t);
      assert NextBlocks(env, st.shared, s, a, ok) + t.todo[1..] == NextBlocks(env, st.shared, s, a, ok);
    } else {
      BlockPlanned(env, st.shared, sc, o, s, t.todo, ok);
    }
  }

  lemma RunForeseen(env: Env, st: State, s: Sock, ok: bool, o: Sock, view: multiset<string>)
    requires Inv(env, st) && PlainNames(st) && TodoTame(st) && ForeseenAfter(st, s, o, view) && st.threads[s].todo != []
    ensures ForeseenAfter(RunBlock(env, st, s, ok), s, o, Updated(st, Run(s, ok), o, view))
  {
    var a, st' := st.threads[s].todo[0], RunBlock(env, st, s, ok);
    var sc := Played(Scene(st.shared.clients, view), o, s, a);
    OnlyBusyStill(env, st, s, ok);
    TodoAfter(env, st, s, ok, s);
    PlanStays(env, st, s, ok, o, view);
    assert Scene(st'.shared.clients, Updated(st, Run(s, ok), o, view)) == sc;
  }

  lemma BusyIsForeseen(st: State, s: Sock, o: Sock, view: multiset<string>)
    requires Foreseen(st, o, view) && s in st.threads && st.threads[s].todo != []
    ensures ForeseenAfter(st, s, o, view)
  {
    var r :| ForeseenAfter(st, r, o, view);
    assert r == s;
  }

  lemma RunTame(env: Env, st: State, s: Sock, ok: bool)
    requires TodoTame(st) && s in st.threads && st.threads[s].todo != []
    ensures TodoTame(RunBlock(env, st, s, ok))
  {
    var st' := RunBlock(env, st, s, ok);
    NextTame(env, st.shared, s, st.threads[s].todo[0], ok);
    forall r | r in st'.threads ensures AllTame(st'.threads[r].todo) {
      TodoAfter(env, st, s, ok, r);
      TamePrepended(NextBlocks(env, st.shared, s, st.threads[s].todo[0], ok), st.threads[s].todo);
    }
  }

  lemma TamePrepended(next: seq<Action>, todo: seq<Action>)
    requires AllTame(next) && AllTame(todo) && todo != []
    ensures AllTame(next + todo[1..])
  {
  }

  lemma StepForeseen(env: Env, st: State, step: Step, o: Sock, view: multiset<string>)
    requires Inv(env, st) && PlainNames(st) && TodoTame(st) && Foreseen(st, o, view) && Enabled(st, step)
    requires !step.Run? ==> AllIdle(st)
    ensures TodoTame(Next(env, st, step)) && Foreseen(Next(env, st, step), o, Updated(st, step, o, view))
  {
    match step
    case Accept(_) =>
      IdleExact(st, o, view);
    case Receive(s, input) =>
      IdleExact(st, o, view);
      InputTame(s, st.threads[s].local, input);
      ReceiveForeseen(env, st, s, input, o, view);
    case Run(s, ok) =>
      RunTame(env, st, s, ok);
      BusyIsForeseen(st, s, o, view);
      RunForeseen(env, st, s, ok, o, view);
  }

  /** What an observer makes of the one message, if any, that a block adds to its outbox. */
  ghost predicate FromOutbox(t: Thread, t': Thread, view: multiset<string>, view': multiset<string>) {
    || (t'.outbox == t.outbox && view' == view)
    || (exists m ::
          && t'.outbox == t.outbox + [m]
          && view' == if m.kind == System then Noted(view, t.local.room, m.payload) else view)
  }

  /** Unless the observer itself enters a room, what it holds changes by what it receives and by
      nothing else. */
  lemma HeldFollowsOutbox(env: Env, st: State, s: Sock, ok: bool, o: Sock, view: multiset<string>)
    requires Inv(env, st) && s in st.threads && st.threads[s].todo != []
    requires o in st.threads && st.threads[o].local.phase == Chatting
    requires o == s ==> !st.threads[s].todo[0].MoveTo?
    ensures o in RunBlock(env, st, s, ok).threads
    ensures FromOutbox(st.threads[o], RunBlock(env, st, s, ok).threads[o], view, Updated(st, Run(s, ok), o, view))
  {
    var a, local := st.threads[s].todo[0], st.threads[o].local;
    HeadMayRun(env, st, s);
    ChatterListed(env, st, o);
    RoomOfEntry(st.shared.clients, ClientInfo(o, local.username, local.room));
    DeliveredThread(st.threads[s := Advanced(env, st.shared, s, st.threads[s], ok)], Sent(s, a), o);
    HeardOnDelivery(Scene(st.shared.clients, view), o, s, a, st.threads[o]);
  }

  lemma HeardOnDelivery(sc: Scene, o: Sock, s: Sock, a: Action, t: Thread)
    requires RoomOf(sc.clients, o) == Some(t.local.room) && t.local.phase == Chatting
    requires o == s ==> !a.MoveTo? && !a.Enter?
    ensures var sent := Sent(s, a);
            if sent.Some? && sent.value.0 == o
            then FromOutbox(t, Receiving(t, sent.value.1), sc.view, Played(sc, o, s, a).view)
            else Played(sc, o, s, a).view == sc.view
  {
    if Sent(s, a).Some? && Sent(s, a).value.0 == o {
      var m := Sent(s, a).value.1;
      if Sendable(m) {
        assert Receiving(t, m).outbox == t.outbox + [m];
      }
    }
  }

  // ----- Runs -----

  /** Handlers do not overlap: a thread reads, and a connection is accepted, only while no thread
      has blocks left to run. */
  ghost predicate Atomic(env: Env, run: seq<Step>) {
    if run == [] then true
    else
      var front, step := run[..|run| - 1], run[|run| - 1];
      Atomic(env, front) && (step.Run? || After(env, front).None? || AllIdle(After(env, front).value))
  }

  /** What the observer `o` holds after a run. */
  function Held(env: Env, run: seq<Step>, o: Sock): multiset<string>
    requires After(env, run).Some?
  {
    if run == [] then multiset{}
    else
      var front := run[..|run| - 1];
      Updated(After(env, front).value, run[|run| - 1], o, Held(env, front, o))
  }

  /** Nobody logs in under a name that the database cuts. */
  ghost predicate PlainRun(env: Env, run: seq<Step>) {
    if run == [] then true
    else
      var front, step := run[..|run| - 1], run[|run| - 1];
      PlainRun(env, front) && (After(env, front).None? || PlainStep(After(env, front).value, step))
  }

  lemma {:induction false} AlwaysPlain(env: Env, run: seq<Step>)
    requires After(env, run).Some? && PlainRun(env, run)
    ensures PlainNames(After(env, run).value)
  {
    if run != [] {
      var front := run[..|run| - 1];
      AlwaysPlain(env, front);
      AlwaysInv(env, front);
      StepPlain(env, After(env, front).value, run[|run| - 1]);
    }
  }

  lemma {:induction false} AlwaysForeseen(env: Env, run: seq<Step>, o: Sock)
    requires After(env, run).Some? && Atomic(env, run) && PlainRun(env, run)
    ensures TodoTame(After(env, run).value) && Foreseen(After(env, run).value, o, Held(env, run, o))
  {
    if run != [] {
      var front := run[..|run| - 1];
      AlwaysForeseen(env, front, o);
      AlwaysInv(env, front);
      AlwaysPlain(env, front);
      StepForeseen(env, After(env, front).value, run[|run| - 1], o, Held(env, front, o));
    }
  }

  /** Between handlers, and as long as nobody logs in under a name with a NUL, whoever is in a room
      and has applied every note since entering it holds exactly the names that `users_in_room`
      returns there, each as often as it has sessions. */
  lemma ObserversAreExact(env: Env, run: seq<Step>, st: State, o: Sock)
    requires After(env, run) == Some(st) && Atomic(env, run) && PlainRun(env, run) && AllIdle(st)
    requires o in st.threads && st.threads[o].local.phase == Chatting
    ensures Held(env, run, o) == multiset(UsersIn(st.shared.clients, st.threads[o].local.room))
  {
    AlwaysInv(env, run);
    AlwaysForeseen(env, run, o);
    IdleExact(st, o, Held(env, run, o));
    ChatterListed(env, st, o);
    RoomOfEntry(st.shared.clients, ClientInfo(o, st.threads[o].local.username, st.threads[o].local.room));
  }
}
