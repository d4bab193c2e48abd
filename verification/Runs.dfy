/** Runs of two threads from the empty server, each an example of what the theorems about all runs
    leave open: overlapping handlers after which an observer counts a name twice; handlers that do not
    overlap, after which an observer misses a session whose name has a NUL; a message that is kept and
    reaches nobody; and a direct message that makes its key appear in the list of rooms. */
module Runs {
  import opened Seqs
  import opened Text
  import opened Framing
  import opened Names
  import opened Requests
  import opened Messages
  import opened Registry
  import opened Store
  import opened RoomListing
  import opened Server
  import opened Invariant
  import opened Reachable
  import opened Privacy
  import opened Guarantees
  import opened ClientView
  import opened Replays
  import opened Delivery
  import opened Serving
  import opened Presence
  import opened Observers

  // ----- Extending a run -----

  /** All threads but `s` have the same left to do, and the same locals; and there are no new ones. */
  ghost predicate Elsewhere(st: State, st': State, s: Sock) {
    && (forall r | r in st.threads && r != s ::
          r in st'.threads && st'.threads[r].todo == st.threads[r].todo && st'.threads[r].local == st.threads[r].local)
    && (forall r | r in st'.threads :: r in st.threads || r == s)
  }

  lemma Extend(env: Env, run: seq<Step>, st: State, step: Step, o: Sock) returns (run': seq<Step>, st': State)
    requires After(env, run) == Some(st) && Enabled(st, step)
    ensures run' == run + [step] && After(env, run') == Some(st') && st' == Next(env, st, step)
    ensures Held(env, run', o) == Updated(st, step, o, Held(env, run, o))
    ensures Atomic(env, run) && (step.Run? || AllIdle(st)) ==> Atomic(env, run')
  {
    run', st' := run + [step], Next(env, st, step);
    PrefixOfLonger(run, step, |run|);
  }

  lemma OnlyMoves(env: Env, st: State, step: Step)
    requires Enabled(st, step)
    ensures Elsewhere(st, Next(env, st, step), step.socket)
  {
    forall r | r in st.threads && r != step.socket
      ensures r in Next(env, st, step).threads && Next(env, st, step).threads[r].todo == st.threads[r].todo
      ensures Next(env, st, step).threads[r].local == st.threads[r].local
    {
      OtherStep(env, st, step, r);
    }
    if step.Run? {
      forall r | r in Next(env, st, step).threads ensures r in st.threads {
        TodoAfter(env, st, step.socket, step.ok, r);
      }
    }
  }

  // ----- Running one thread until it waits -----

  /** How many steps a block takes at most, with `n` clients. */
  function Weight(a: Action, n: nat): nat {
    if a.Broadcast? then n + 1 else if a.Replay? then 2 else 1
  }

  function Weights(todo: seq<Action>, n: nat): nat {
    if todo == [] then 0 else Weight(todo[0], n) + Weights(todo[1..], n)
  }

  lemma {:induction false} WeightsAppend(a: seq<Action>, b: seq<Action>, n: nat)
    ensures Weights(a + b, n) == Weights(a, n) + Weights(b, n)
  {
    if a == [] {
      assert a + b == b;
    } else {
      assert (a + b)[1..] == a[1..] + b;
      WeightsAppend(a[1..], b, n);
    }
  }

  lemma {:induction false} SendsWeight(sockets: seq<Sock>, m: Msg, n: nat)
    ensures Weights(SendsTo(sockets, m), n) == |sockets|
  {
    if sockets != [] {
      assert SendsTo(sockets, m)[1..] == SendsTo(sockets[1..], m);
      SendsWeight(sockets[1..], m, n);
    }
  }

  lemma {:induction false} FewRecipients(clients: seq<ClientInfo>, room: string, exclude: Option<Sock>)
    ensures |Recipients(clients, room, exclude)| <= |clients|
  {
    if clients != [] {
      FewRecipients(clients[1..], room, exclude);
    }
  }

  lemma NextSends(env: Env, sh: Shared, s: Sock, a: Action, ok: bool)
    requires Sends(a)
    ensures AllSend(NextBlocks(env, sh, s, a, ok))
    ensures Weights(NextBlocks(env, sh, s, a, ok), |sh.clients|) < Weight(a, |sh.clients|)
    ensures SharedAfter(env, sh, s, a, ok).clients == sh.clients && SharedAfter(env, sh, s, a, ok).db == sh.db
  {
    if a.Broadcast? {
      FewRecipients(sh.clients, a.room, a.exclude);
      SendsWeight(Recipients(sh.clients, a.room, a.exclude), a.msg, |sh.clients|);
    } else if a.Replay? {
      var next := NextBlocks(env, sh, s, a, ok);
      assert |next| == 1 && next[0].Reply? && next[1..] == [];
    }
  }

  lemma StepSends(env: Env, st: State, s: Sock)
    requires s in st.threads && st.threads[s].todo != [] && AllSend(st.threads[s].todo)
    ensures var st' := RunBlock(env, st, s, true);
            && s in st'.threads && AllSend(st'.threads[s].todo) && st'.threads[s].local == st.threads[s].local
            && st'.shared.clients == st.shared.clients && st'.shared.db == st.shared.db
            && Weights(st'.threads[s].todo, |st.shared.clients|) < Weights(st.threads[s].todo, |st.shared.clients|)
  {
    var todo, n := st.threads[s].todo, |st.shared.clients|;
    NextSends(env, st.shared, s, todo[0], true);
    TodoAfter(env, st, s, true, s);
    WeightsAppend(NextBlocks(env, st.shared, s, todo[0], true), todo[1..], n);
    SenderKeepsLocal(env, st, s, true);
  }

  lemma ElsewhereTwice(st: State, st': State, st'': State, s: Sock)
    requires Elsewhere(st, st', s) && Elsewhere(st', st'', s)
    ensures Elsewhere(st, st'', s)
  {
  }

  /** A thread that only sends comes to its end, and an observer then holds what was planned. */
  lemma {:induction false} Finish(env: Env, run: seq<Step>, st: State, s: Sock, o: Sock) returns (run': seq<Step>, st': State)
    requires After(env, run) == Some(st) && s in st.threads && AllSend(st.threads[s].todo) && Unique(st.shared.clients)
    ensures After(env, run') == Some(st') && s in st'.threads && st'.threads[s].todo == []
    ensures st'.threads[s].local == st.threads[s].local && Elsewhere(st, st', s)
    ensures st'.shared.clients == st.shared.clients && st'.shared.db == st.shared.db
    ensures Held(env, run', o) == PlannedAll(Scene(st.shared.clients, Held(env, run, o)), o, s, st.threads[s].todo).view
    ensures Atomic(env, run) ==> Atomic(env, run')
    decreases Weights(st.threads[s].todo, |st.shared.clients|)
  {
    if st.threads[s].todo == [] {
      run', st' := run, st;
    } else {
      var todo, sc := st.threads[s].todo, Scene(st.shared.clients, Held(env, run, o));
      var run1, st1 := Extend(env, run, st, Run(s, true), o);
      OnlyMoves(env, st, Run(s, true));
      StepSends(env, st, s);
      TodoAfter(env, st, s, true, s);
      BlockPlanned(env, st.shared, sc, o, s, todo, true);
      PlayedSends(sc, o, s, todo[0]);
      run', st' := Finish(env, run1, st1, s, o);
      ElsewhereTwice(st, st1, st', s);
    }
  }

  lemma PlayedSends(sc: Scene, o: Sock, s: Sock, a: Action)
    requires Sends(a)
    ensures Played(sc, o, s, a).clients == sc.clients
  {
  }

  // ----- Two threads -----

  const ANN := "ann"
  const BOB := "bob"

  function Registration(name: string): Input {
    Arrived(EncodeMessage(Msg(Register, name + "\n" + "secret")), seq(32, i => '0'), 0)
  }

  predicate Registrable(name: string) {
    ValidUsername(name) && Tight(name) && '\n' !in name && CStr(name) == name
  }

  lemma RegistrationReads(s: Sock, name: string)
    requires Registrable(name)
    ensures InputOk(Registration(name))
    ensures var i := Registration(name); HandleAuth(i.data, i.salt, i.now) == [TryRegister(name, "secret", i.salt, 0)]
  {
    CredentialsAreTried(name, "secret", Registration(name).salt, 0);
  }

  /** A thread that is about to enter the chat. */
  predicate AtDoor(st: State, s: Sock, name: string) {
    s in st.threads && st.threads[s].local.phase == Authenticating && st.threads[s].todo == Entrance(s, name)
  }

  /** A new connection sends its first frame. */
  lemma Connect(env: Env, run: seq<Step>, st: State, s: Sock, input: Input, o: Sock) returns (run': seq<Step>, st': State)
    requires After(env, run) == Some(st) && s !in st.threads && InputOk(input) && input.Arrived?
    ensures After(env, run') == Some(st') && Elsewhere(st, st', s) && s in st'.threads
    ensures st'.threads[s].local.phase == Authenticating && st'.shared == st.shared
    ensures st'.threads[s].todo == HandleAuth(input.data, input.salt, input.now)
    ensures o != s ==> Held(env, run', o) == Held(env, run, o)
    ensures Atomic(env, run) && AllIdle(st) ==> Atomic(env, run')
  {
    var run1, st1 := Extend(env, run, st, Accept(s), o);
    OnlyMoves(env, st, Accept(s));
    run', st' := Extend(env, run1, st1, Receive(s, input), o);
    OnlyMoves(env, st1, Receive(s, input));
    ElsewhereTwice(st, st1, st', s);
  }

  /** One more block of a thread. */
  lemma Go(env: Env, run: seq<Step>, st: State, st1: State, s: Sock, o: Sock) returns (run': seq<Step>, st': State)
    requires After(env, run) == Some(st1) && s in st1.threads && st1.threads[s].todo != []
    requires Elsewhere(st, st1, s) && Enabled(st1, Run(s, true))
    ensures run' == run + [Run(s, true)] && After(env, run') == Some(st') && st' == RunBlock(env, st1, s, true) && Elsewhere(st, st', s)
    ensures Held(env, run', o) == Updated(st1, Run(s, true), o, Held(env, run, o))
    ensures Atomic(env, run) ==> Atomic(env, run')
  {
    run', st' := Extend(env, run, st1, Run(s, true), o);
    OnlyMoves(env, st1, Run(s, true));
    ElsewhereTwice(st, st1, st', s);
  }

  lemma RegisteringLeads(env: Env, st: State, s: Sock, name: string)
    requires s in st.threads && st.threads[s].local.phase == Authenticating && Registrable(name)
    requires st.threads[s].todo == [TryRegister(name, "secret", Registration(name).salt, 0)]
    requires UserOf(st.shared.db.users, name).None?
    ensures var st' := RunBlock(env, st, s, true);
            && s in st'.threads && st'.threads[s].local.phase == Authenticating
            && st'.threads[s].todo == [Reply(Note("Account '" + name + "' created. Welcome!"))] + Entrance(s, name)
            && st'.shared.clients == st.shared.clients && st'.shared.db.messages == st.shared.db.messages
            && (exists row: UserRow :: row.username == name && st'.shared.db.users == st.shared.db.users + [row])
            && (HexValued(env.hash) ==> AuthenticateUser(env.hash, st'.shared.db, name, "secret"))
  {
    var t, a := st.threads[s], st.threads[s].todo[0];
    assert Succeeds(env, st.shared.db, a, true);
    if HexValued(env.hash) {
      RegisteredCanLogIn(env.hash, st.shared.db, name, "secret", a.salt, 0);
    }
    TodoAfter(env, st, s, true, s);
    assert t.todo[1..] == [];
  }

  lemma GreetingLeads(env: Env, st: State, s: Sock, m: Msg, rest: seq<Action>)
    requires s in st.threads && st.threads[s].local.phase == Authenticating && st.threads[s].todo == [Reply(m)] + rest
    ensures var st' := RunBlock(env, st, s, true);
            && s in st'.threads && st'.threads[s].local.phase == Authenticating && st'.threads[s].todo == rest
            && st'.shared.clients == st.shared.clients && st'.shared.db == st.shared.db
  {
    TodoAfter(env, st, s, true, s);
    assert [] + st.threads[s].todo[1..] == rest;
    SenderKeepsLocal(env, st, s, true);
  }

  /** A new connection registers and comes to the point where it enters. */
  lemma Arrive(env: Env, run: seq<Step>, st: State, s: Sock, name: string) returns (run': seq<Step>, st': State)
    requires After(env, run) == Some(st) && s !in st.threads && Registrable(name) && UserOf(st.shared.db.users, name).None?
    ensures After(env, run') == Some(st') && AtDoor(st', s, name) && Elsewhere(st, st', s)
    ensures st'.shared.clients == st.shared.clients && st'.shared.db.messages == st.shared.db.messages
    ensures exists row: UserRow :: row.username == name && st'.shared.db.users == st.shared.db.users + [row]
    ensures HexValued(env.hash) ==> AuthenticateUser(env.hash, st'.shared.db, name, "secret")
    ensures Atomic(env, run) && AllIdle(st) ==> Atomic(env, run')
  {
    RegistrationReads(s, name);
    var run1, st1 := Connect(env, run, st, s, Registration(name), s);
    RegisteringLeads(env, st1, s, name);
    var run2, st2 := Go(env, run1, st, st1, s, s);
    GreetingLeads(env, st2, s, Note("Account '" + name + "' created. Welcome!"), Entrance(s, name));
    run', st' := Go(env, run2, st, st2, s, s);
  }

  lemma WelcomeSends(s: Sock, name: string)
    ensures AllSend(Entrance(s, name)[1..])
  {
  }

  /** A thread that is about to enter does. */
  lemma ComeIn(env: Env, run: seq<Step>, st: State, s: Sock, name: string, o: Sock) returns (run': seq<Step>, st': State)
    requires After(env, run) == Some(st) && AtDoor(st, s, name)
    ensures After(env, run') == Some(st') && Elsewhere(st, st', s) && s in st'.threads
    ensures st'.threads[s].todo == Entrance(s, name)[1..] && st'.threads[s].local == Local(Chatting, name, DEFAULT_ROOM)
    ensures st'.shared.clients == st.shared.clients + [ClientInfo(s, name, DEFAULT_ROOM)] && st'.shared.db == st.shared.db
    ensures Held(env, run', o) == if o == s then Members(st'.shared.clients, DEFAULT_ROOM) else Held(env, run, o)
    ensures Atomic(env, run) ==> Atomic(env, run')
  {
    run', st' := Extend(env, run, st, Run(s, true), o);
    OnlyMoves(env, st, Run(s, true));
    TodoAfter(env, st, s, true, s);
    assert [] + Entrance(s, name)[1..] == Entrance(s, name)[1..];
    DeliveredThread(st.threads[s := Advanced(env, st.shared, s, st.threads[s], true)], Sent(s, st.threads[s].todo[0]), s);
  }

  lemma NamesRegistrable()
    ensures Registrable(ANN) && Registrable(BOB)
  {
    UsernameChars(ANN, NUL);
    UsernameChars(BOB, NUL);
    UsernameChars(ANN, '\n');
    UsernameChars(BOB, '\n');
  }

  /** Both are at the door. */
  lemma BothArrive(env: Env) returns (run: seq<Step>, st: State)
    ensures After(env, run) == Some(st) && AtDoor(st, 1, ANN) && AtDoor(st, 2, BOB)
    ensures st.shared.clients == [] && st.shared.db.messages == []
    ensures forall s :: s in st.threads ==> s == 1 || s == 2
  {
    NamesRegistrable();
    var run1, st1 := Arrive(env, [], INIT, 1, ANN);
    var row: UserRow :| row.username == ANN && st1.shared.db.users == [] + [row];
    run, st := Arrive(env, run1, st1, 2, BOB);
  }

  /** Both have entered, BOB first, and neither has said so. */
  lemma BothEnter(env: Env) returns (run: seq<Step>, st: State)
    ensures After(env, run) == Some(st) && 1 in st.threads && 2 in st.threads
    ensures forall s :: s in st.threads ==> s == 1 || s == 2
    ensures st.shared.clients == [ClientInfo(2, BOB, DEFAULT_ROOM), ClientInfo(1, ANN, DEFAULT_ROOM)]
    ensures st.shared.db.messages == []
    ensures st.threads[1].todo == Entrance(1, ANN)[1..] && st.threads[1].local == Local(Chatting, ANN, DEFAULT_ROOM)
    ensures st.threads[2].todo == Entrance(2, BOB)[1..] && st.threads[2].local == Local(Chatting, BOB, DEFAULT_ROOM)
    ensures Held(env, run, 1) == Members(st.shared.clients, DEFAULT_ROOM)
  {
    var run1, st1 := BothArrive(env);
    var run2, st2 := ComeIn(env, run1, st1, 2, BOB, 1);
    run, st := ComeIn(env, run2, st2, 1, ANN, 1);
  }

  lemma FinishEntrance(env: Env, run: seq<Step>, st: State, s: Sock, name: string, o: Sock)
    returns (run': seq<Step>, st': State)
    requires After(env, run) == Some(st) && s in st.threads && st.threads[s].todo == Entrance(s, name)[1..]
    requires Unique(st.shared.clients) && ValidUsername(name)
    ensures After(env, run') == Some(st') && s in st'.threads && st'.threads[s].todo == []
    ensures st'.threads[s].local == st.threads[s].local && Elsewhere(st, st', s)
    ensures st'.shared.clients == st.shared.clients && st'.shared.db == st.shared.db
    ensures Held(env, run', o) == Plus(Scene(st.shared.clients, Held(env, run, o)), o, name, DEFAULT_ROOM, Some(s)).view
    ensures Atomic(env, run) ==> Atomic(env, run')
  {
    WelcomeSends(s, name);
    WelcomePlanned(Scene(st.shared.clients, Held(env, run, o)), o, s, name);
    run', st' := Finish(env, run, st, s, o);
  }

  lemma BothTold(env: Env, run: seq<Step>, st: State) returns (run': seq<Step>, st': State)
    requires After(env, run) == Some(st) && 1 in st.threads && 2 in st.threads
    requires forall s :: s in st.threads ==> s == 1 || s == 2
    requires st.threads[1].todo == Entrance(1, ANN)[1..] && st.threads[2].todo == Entrance(2, BOB)[1..]
    requires Unique(st.shared.clients)
    ensures After(env, run') == Some(st') && AllIdle(st') && st'.shared.clients == st.shared.clients && st'.shared.db == st.shared.db
    ensures 1 in st'.threads && 2 in st'.threads && st'.threads[1].local == st.threads[1].local
    ensures var sc := Scene(st.shared.clients, Held(env, run, 1));
            Held(env, run', 1) == Plus(Plus(sc, 1, ANN, DEFAULT_ROOM, Some(1)), 1, BOB, DEFAULT_ROOM, Some(2)).view
  {
    NamesRegistrable();
    var run1, st1 := FinishEntrance(env, run, st, 1, ANN, 1);
    run', st' := FinishEntrance(env, run1, st1, 2, BOB, 1);
  }

  /** A run of two threads whose handlers overlap, after which both wait for their next frames: the
      observer counts a name twice that is there once. */
  lemma OverlapMiscounts(env: Env) returns (run: seq<Step>, st: State)
    ensures After(env, run) == Some(st) && AllIdle(st) && 1 in st.threads && st.threads[1].local.phase == Chatting
    ensures UsersIn(st.shared.clients, st.threads[1].local.room) == [BOB, ANN]
    ensures Held(env, run, 1) == multiset{BOB, BOB, ANN}
    ensures st.shared.db.messages == [] && st.threads[1].local == Local(Chatting, ANN, DEFAULT_ROOM) && 2 in st.threads
    ensures FindUser(st.shared.clients, BOB) == Some(2) && Recipients(st.shared.clients, DEFAULT_ROOM, Some(1)) == [2]
  {
    var run1, st1 := BothEnter(env);
    var clients := st1.shared.clients;
    run, st := BothTold(env, run1, st1);
    TwoMembers(clients);
    assert RoomOf(clients, 1) == Some(DEFAULT_ROOM);
  }

  lemma TwoMembers(clients: seq<ClientInfo>)
    requires clients == [ClientInfo(2, BOB, DEFAULT_ROOM), ClientInfo(1, ANN, DEFAULT_ROOM)]
    ensures UsersIn(clients, DEFAULT_ROOM) == [BOB, ANN] && Members(clients, DEFAULT_ROOM) == multiset{BOB, ANN}
    ensures Recipients(clients, DEFAULT_ROOM, Some(1)) == [2]
    ensures RoomOf(clients, 1) == Some(DEFAULT_ROOM)
  {
    assert clients[1..] == [ClientInfo(1, ANN, DEFAULT_ROOM)];
    assert clients[1..][1..] == [];
    assert UsersIn(clients[1..], DEFAULT_ROOM) == [ANN];
    assert Recipients(clients[1..], DEFAULT_ROOM, Some(1)) == [];
  }

  // ----- A login name with a NUL -----

  /** The same account, under another name. */
  const ANN_CUT := ANN + [NUL]

  /** The names of a thread's login. */
  function LoginOf(name: string): Input {
    Arrived(EncodeMessage(Msg(Login, name + "\n" + "secret")), seq(32, i => '0'), 0)
  }

  lemma LoginReads(s: Sock, name: string)
    requires Tight(name) && '\n' !in name && |name| + 8 <= MAX_PAYLOAD
    ensures InputOk(LoginOf(name))
    ensures var i := LoginOf(name); HandleAuth(i.data, i.salt, i.now) == [TryLogin(name, "secret")]
  {
    CredentialsAreTried(name, "secret", LoginOf(name).salt, 0);
  }

  /** A login name that is accepted and too long to be announced to its client. */
  lemma UnannouncedName(s: Sock)
    ensures var name := "bob" + [NUL] + seq(65524, i => 'x');
            && InputOk(LoginOf(name)) && HandleAuth(LoginOf(name).data, LoginOf(name).salt, 0) == [TryLogin(name, "secret")]
            && LoginName(name) && !Announced(name)
            && forall h, db :: AuthenticateUser(h, db, name, "secret") == AuthenticateUser(h, db, "bob", "secret")
  {
    var tail := seq(65524, i => 'x');
    var name := "bob" + [NUL] + tail;
    UsernameChars("bob", NUL);
    LoginReads(s, name);
    FindBehind("bob", NUL, tail);
    SlicesOfThree("bob", [NUL], tail);
    forall h, db ensures AuthenticateUser(h, db, name, "secret") == AuthenticateUser(h, db, "bob", "secret") {
      LoginIgnoresTail(h, db, "bob", tail, "secret");
    }
  }

  lemma CutNameIs()
    ensures CStr(ANN_CUT) == ANN && Tight(ANN_CUT) && '\n' !in ANN_CUT && !ValidUsername(ANN_CUT)
  {
    NamesRegistrable();
    CStrOfConcat(ANN, [NUL]);
    assert CStr([NUL]) == "";
    assert ANN_CUT[3] == NUL;
  }

  lemma LoginLeads(env: Env, st: State, s: Sock, name: string)
    requires s in st.threads && st.threads[s].local.phase == Authenticating && st.threads[s].todo == [TryLogin(name, "secret")]
    requires AuthenticateUser(env.hash, st.shared.db, name, "secret")
    ensures var st' := RunBlock(env, st, s, true);
            AtDoor(st', s, name) && st'.shared.clients == st.shared.clients
  {
    var t, a := st.threads[s], st.threads[s].todo[0];
    assert Succeeds(env, st.shared.db, a, true);
    TodoAfter(env, st, s, true, s);
    assert t.todo[1..] == [];
    assert Entrance(s, name) + [] == Entrance(s, name);
    DeliveredThread(st.threads[s := Advanced(env, st.shared, s, t, true)], Sent(s, a), s);
  }

  /** A new connection logs in and comes to the point where it enters. */
  lemma LogIn(env: Env, run: seq<Step>, st: State, s: Sock, name: string, o: Sock) returns (run': seq<Step>, st': State)
    requires After(env, run) == Some(st) && s !in st.threads && o != s
    requires Tight(name) && '\n' !in name && |name| + 8 <= MAX_PAYLOAD && AuthenticateUser(env.hash, st.shared.db, name, "secret")
    ensures After(env, run') == Some(st') && AtDoor(st', s, name) && Elsewhere(st, st', s)
    ensures st'.shared.clients == st.shared.clients && Held(env, run', o) == Held(env, run, o)
    ensures Atomic(env, run) && AllIdle(st) ==> Atomic(env, run')
  {
    LoginReads(s, name);
    var run1, st1 := Connect(env, run, st, s, LoginOf(name), o);
    LoginLeads(env, st1, s, name);
    run', st' := Go(env, run1, st, st1, s, o);
  }

  /** No observer reads the note of a name with a NUL. */
  lemma CutNoteMute(room: string)
    ensures Mute(JoinedNote(ANN_CUT, room))
  {
    GreetingText(ANN_CUT, " joined " + room, 3);
    Associative(ANN_CUT, " joined ", room);
  }

  lemma CutWelcomeUnheard(sc: Scene, o: Sock, s: Sock)
    ensures PlannedAll(sc, o, s, Entrance(s, ANN_CUT)[1..]).view == sc.view
  {
    var todo := Entrance(s, ANN_CUT);
    GreetingSilent(s, ANN_CUT);
    SilentSkipped(sc, o, s, todo[1..5], todo[5..]);
    assert todo[1..] == todo[1..5] + todo[5..];
    LastBlock(sc, o, s, todo[5..]);
    CutNoteMute(DEFAULT_ROOM);
    MuteUnheard(sc, o, JoinedNote(ANN_CUT, DEFAULT_ROOM));
  }

  /** One session, and nothing left to do. */
  lemma OneSession(env: Env) returns (run: seq<Step>, st: State)
    requires HexValued(env.hash)
    ensures After(env, run) == Some(st) && Atomic(env, run) && 1 in st.threads && (forall s :: s in st.threads ==> s == 1)
    ensures st.threads[1].todo == [] && st.threads[1].local == Local(Chatting, ANN, DEFAULT_ROOM)
    ensures st.shared.clients == [ClientInfo(1, ANN, DEFAULT_ROOM)] && Held(env, run, 1) == multiset{ANN}
    ensures AuthenticateUser(env.hash, st.shared.db, ANN, "secret")
  {
    NamesRegistrable();
    var run1, st1 := Arrive(env, [], INIT, 1, ANN);
    var run2, st2 := ComeIn(env, run1, st1, 1, ANN, 1);
    run, st := FinishEntrance(env, run2, st2, 1, ANN, 1);
    assert UsersIn(st.shared.clients, DEFAULT_ROOM) == [ANN];
  }

  /** The other session has entered, and both wait. */
  lemma SecondSession(env: Env, run: seq<Step>, st: State) returns (run': seq<Step>, st': State)
    requires After(env, run) == Some(st) && Atomic(env, run) && AllIdle(st) && 1 in st.threads && 2 !in st.threads
    requires AuthenticateUser(env.hash, st.shared.db, ANN, "secret") && Unique(st.shared.clients + [ClientInfo(2, ANN_CUT, DEFAULT_ROOM)])
    ensures After(env, run') == Some(st') && Atomic(env, run') && AllIdle(st')
    ensures 1 in st'.threads && st'.threads[1].local == st.threads[1].local
    ensures st'.shared.clients == st.shared.clients + [ClientInfo(2, ANN_CUT, DEFAULT_ROOM)]
    ensures Held(env, run', 1) == Held(env, run, 1)
  {
    CutNameIs();
    NamesRegistrable();
    LoginIgnoresTail(env.hash, st.shared.db, ANN, "", "secret");
    assert ANN + [NUL] + "" == ANN_CUT;
    var run1, st1 := LogIn(env, run, st, 2, ANN_CUT, 1);
    var run2, st2 := ComeIn(env, run1, st1, 2, ANN_CUT, 1);
    WelcomeSends(2, ANN_CUT);
    CutWelcomeUnheard(Scene(st2.shared.clients, Held(env, run2, 1)), 1, 2);
    run', st' := Finish(env, run2, st2, 2, 1);
  }

  /** A run whose handlers do not overlap, in which an observer misses the session of a name with a
      NUL. */
  lemma CutNameIsMissed(env: Env) returns (run: seq<Step>, st: State)
    requires HexValued(env.hash)
    ensures After(env, run) == Some(st) && Atomic(env, run) && AllIdle(st)
    ensures 1 in st.threads && st.threads[1].local.phase == Chatting
    ensures UsersIn(st.shared.clients, st.threads[1].local.room) == [ANN, ANN_CUT]
    ensures Held(env, run, 1) == multiset{ANN}
  {
    var run1, st1 := OneSession(env);
    run, st := SecondSession(env, run1, st1);
    var clients := st.shared.clients;
    assert clients[1..] == [ClientInfo(2, ANN_CUT, DEFAULT_ROOM)];
    assert clients[1..][1..] == [];
    assert UsersIn(clients[1..], DEFAULT_ROOM) == [ANN_CUT];
  }

  // ----- A text that is too long to send -----

  const LONG: string := seq(65530, i => 'a')

  function LongChat(): Input {
    Arrived(EncodeMessage(Msg(Chat, LONG)), seq(32, i => '0'), 0)
  }

  const LONG_SAID := ChatMessage(DEFAULT_ROOM, ANN, LONG, 0)

  lemma StoreAndAirLead(env: Env, st: State, said: ChatMessage)
    requires 1 in st.threads && 2 in st.threads && st.threads[1].local.phase == Chatting
    requires st.threads[1].todo == [StoreMessage(said, STORE_FAILED), Air(said, Some(1))]
    ensures var st1 := RunBlock(env, st, 1, true);
            && 1 in st1.threads && 2 in st1.threads && st1.threads[1].todo == [Air(said, Some(1))]
            && st1.shared.clients == st.shared.clients && st1.threads[2].outbox == st.threads[2].outbox
            && Kept(st1.shared.db, Stored(said))
  {
    var row := MessageRow(|st.shared.db.messages| + 1, Stored(said));
    TodoAfter(env, st, 1, true, 1);
    assert [] + st.threads[1].todo[1..] == [Air(said, Some(1))];
    UnsentOutbox(env, st, 1, true, 2);
    assert RunBlock(env, st, 1, true).shared.db.messages == st.shared.db.messages + [row];
    assert row in RunBlock(env, st, 1, true).shared.db.messages;
  }

  lemma AiringLeads(env: Env, st: State, said: ChatMessage)
    requires 1 in st.threads && 2 in st.threads && st.threads[1].todo == [Air(said, Some(1))]
    requires Recipients(st.shared.clients, said.room, Some(1)) == [2]
    ensures var st1 := RunBlock(env, st, 1, true);
            && 1 in st1.threads && 2 in st1.threads && st1.threads[1].todo == [SendTo(2, ChatNote(env, said))]
            && said in st1.shared.aired && st1.shared.db == st.shared.db && st1.threads[2].outbox == st.threads[2].outbox
  {
    TodoAfter(env, st, 1, true, 1);
    assert SendsTo([2], ChatNote(env, said)) + st.threads[1].todo[1..] == [SendTo(2, ChatNote(env, said))];
    UnsentOutbox(env, st, 1, true, 2);
  }

  lemma RefusedSendLeads(env: Env, st: State, m: Msg)
    requires 1 in st.threads && 2 in st.threads && st.threads[1].todo == [SendTo(2, m)] && !Sendable(m)
    ensures var st1 := RunBlock(env, st, 1, true);
            && 1 in st1.threads && 2 in st1.threads && st1.threads[1].todo == [] && st1.threads[2].outbox == st.threads[2].outbox
            && st1.shared == st.shared
  {
    TodoAfter(env, st, 1, true, 1);
    DeliveredThread(st.threads[1 := Advanced(env, st.shared, 1, st.threads[1], true)], Sent(1, SendTo(2, m)), 2);
  }

  /** Both wait, and `ANN` is in a room with the other alone. */
  ghost predicate BothWait(st: State) {
    && AllIdle(st) && 1 in st.threads && 2 in st.threads && st.threads[1].local == Local(Chatting, ANN, DEFAULT_ROOM)
    && Recipients(st.shared.clients, DEFAULT_ROOM, Some(1)) == [2]
  }

  lemma LongChatIsRead(env: Env, run: seq<Step>, before: State) returns (run': seq<Step>, st: State)
    requires PrintsChats(env) && After(env, run) == Some(before) && BothWait(before)
    ensures run' == run + [Receive(1, LongChat())] && After(env, run') == Some(st) && Elsewhere(before, st, 1)
    ensures 1 in st.threads && 2 in st.threads && st.threads[1].local.phase == Chatting
    ensures st.threads[1].todo == [StoreMessage(LONG_SAID, STORE_FAILED), Air(LONG_SAID, Some(1))]
    ensures st.shared.clients == before.shared.clients && st.threads[2].outbox == before.threads[2].outbox
  {
    LongChatIsRefused(env, 1, ANN, 0);
    run', st := Extend(env, run, before, Receive(1, LongChat()), 1);
    OnlyMoves(env, before, Receive(1, LongChat()));
  }

  lemma ChatIsStored(env: Env, run: seq<Step>, before: State, st: State, said: ChatMessage) returns (run': seq<Step>, st': State)
    requires After(env, run) == Some(st) && Elsewhere(before, st, 1)
    requires 1 in st.threads && 2 in st.threads && st.threads[1].local.phase == Chatting
    requires st.threads[1].todo == [StoreMessage(said, STORE_FAILED), Air(said, Some(1))]
    ensures run' == run + [Run(1, true)] && After(env, run') == Some(st') && Elsewhere(before, st', 1)
    ensures 1 in st'.threads && 2 in st'.threads && st'.threads[1].todo == [Air(said, Some(1))]
    ensures Kept(st'.shared.db, Stored(said)) && st'.shared.clients == st.shared.clients
    ensures st'.threads[2].outbox == st.threads[2].outbox
  {
    StoreAndAirLead(env, st, said);
    run', st' := Go(env, run, before, st, 1, 1);
  }

  lemma ChatIsAired(env: Env, run: seq<Step>, before: State, st: State, said: ChatMessage) returns (run': seq<Step>, st': State)
    requires After(env, run) == Some(st) && Elsewhere(before, st, 1)
    requires 1 in st.threads && 2 in st.threads && st.threads[1].todo == [Air(said, Some(1))]
    requires Recipients(st.shared.clients, said.room, Some(1)) == [2]
    ensures run' == run + [Run(1, true)] && After(env, run') == Some(st') && Elsewhere(before, st', 1)
    ensures 1 in st'.threads && 2 in st'.threads && st'.threads[1].todo == [SendTo(2, ChatNote(env, said))]
    ensures st'.shared.db == st.shared.db && said in st'.shared.aired
    ensures st'.threads[2].outbox == st.threads[2].outbox
  {
    AiringLeads(env, st, said);
    run', st' := Go(env, run, before, st, 1, 1);
  }

  lemma LongChatIsSent(env: Env, run: seq<Step>, before: State, st: State) returns (run': seq<Step>, st': State)
    requires PrintsChats(env) && After(env, run) == Some(st) && Elsewhere(before, st, 1) && AllIdle(before)
    requires 1 in st.threads && 2 in st.threads && st.threads[1].todo == [SendTo(2, ChatNote(env, LONG_SAID))]
    ensures run' == run + [Run(1, true)] && After(env, run') == Some(st') && AllIdle(st')
    ensures 1 in st'.threads && 2 in st'.threads && st'.threads[2].outbox == st.threads[2].outbox && st'.shared == st.shared
  {
    LongChatIsRefused(env, 1, ANN, 0);
    RefusedSendLeads(env, st, ChatNote(env, LONG_SAID));
    run', st' := Go(env, run, before, st, 1, 1);
  }

  /** A run after which a message is kept, its broadcast is over, and the only other member of the room
      has been sent nothing. */
  lemma LongMessageReachesNobody(env: Env) returns (run: seq<Step>, before: State, st: State)
    requires PrintsChats(env)
    ensures After(env, run) == Some(before) && BothWait(before)
    ensures After(env, run + [Receive(1, LongChat())] + [Run(1, true)] + [Run(1, true)] + [Run(1, true)]) == Some(st) && AllIdle(st)
    ensures Kept(st.shared.db, Stored(LONG_SAID)) && LONG_SAID in st.shared.aired
    ensures 2 in st.threads && st.threads[2].outbox == before.threads[2].outbox
  {
    run, before := OverlapMiscounts(env);
    var run1, st1 := LongChatIsRead(env, run, before);
    var run2, st2 := ChatIsStored(env, run1, before, st1, LONG_SAID);
    var run3, st3 := ChatIsAired(env, run2, before, st2, LONG_SAID);
    var run4, st4 := LongChatIsSent(env, run3, before, st3);
    st := st4;
  }

  // ----- A direct message, and the list of rooms -----

  const GREETING := ChatMessage(DmKey(ANN, BOB), ANN, "hi", 0)

  function Direction(): Input {
    Arrived(EncodeMessage(Msg(Direct, BOB + "\n" + "hi")), seq(32, i => '0'), 0)
  }

  lemma DirectionSplits()
    ensures ReadDirectRequest(BOB + "\n" + "hi") == Some((BOB, "hi"))
  {
    NamesRegistrable();
    FindBehind(BOB, '\n', "hi");
    SlicesOfThree(BOB, "\n", "hi");
    TrimOfTight(BOB);
    TrimOfTight("hi");
  }

  lemma DirectionReads(room: string)
    ensures InputOk(Direction())
    ensures HandleFrame(1, ANN, room, Direction().data, 0) == [Route(ANN, BOB, "hi", 0)]
  {
    FrameDecodes(Direct, BOB + "\n" + "hi");
    DirectionSplits();
  }

  lemma RoutingLeads(env: Env, st: State)
    requires 1 in st.threads && st.threads[1].todo == [Route(ANN, BOB, "hi", 0)]
    requires FindUser(st.shared.clients, BOB) == Some(2) && st.shared.db.messages == []
    ensures var st' := RunBlock(env, st, 1, true);
            && 1 in st'.threads && st'.threads[1].todo != [] && st'.threads[1].todo[0] == StoreMessage(GREETING, DIRECT_STORE_FAILED)
            && st'.shared.db.messages == []
  {
    TodoAfter(env, st, 1, true, 1);
  }

  lemma StoringLeads(env: Env, st: State)
    requires 1 in st.threads && st.threads[1].todo != [] && st.threads[1].todo[0] == StoreMessage(GREETING, DIRECT_STORE_FAILED)
    requires st.shared.db.messages == []
    ensures RunBlock(env, st, 1, true).shared.db.messages == [MessageRow(1, Stored(GREETING))]
  {
  }

  lemma OneStored(db: Db, row: MessageRow)
    requires db.messages == [row]
    ensures StoredFirst(db, row.message.room)
  {
    var names := RoomNames(db.messages);
    assert names == [row.message.room];
    assert names[0] in names;
    LessTotal(row.message.room, row.message.room);
    assert (set x | x in names && Less(x, row.message.room)) == {};
  }

  /** A run after which the list of rooms names the key of a conversation. */
  lemma KeyIsListed(env: Env) returns (run: seq<Step>, st: State)
    ensures After(env, run) == Some(st) && DmKey(ANN, BOB) in Listing(st)
  {
    var run0, st0 := OverlapMiscounts(env);
    DirectionReads(st0.threads[1].local.room);
    var run1, st1 := Extend(env, run0, st0, Receive(1, Direction()), 1);
    var run2, st2 := Extend(env, run1, st1, Run(1, true), 1);
    RoutingLeads(env, st1);
    run, st := Extend(env, run2, st2, Run(1, true), 1);
    StoringLeads(env, st2);
    NamesRegistrable();
    KeyUncut(ANN, BOB);
    OneStored(st.shared.db, MessageRow(1, Stored(GREETING)));
    KeyListedIff(env, run, st, ANN, BOB);
  }
}
