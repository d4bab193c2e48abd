/** The invariant over all runs: what a thread does with a frame, and every step of the server. */
module Reachable {
  import opened Seqs
  import opened Text
  import opened Names
  import opened Requests
  import opened Messages
  import opened Codec
  import opened Framing
  import opened Registry
  import opened Server
  import opened Invariant

  // ----- Handlers -----

  /** Blocks that a thread in a phase may be given, by an account. */
  ghost predicate Wellformed(env: Env, sh: Shared, local: Local, todo: seq<Action>) {
    Shaped(local.phase, todo) && AllSafe(env, sh, local.username, todo)
  }

  lemma TrimmedSize(s: string)
    ensures |Trim(s)| <= |s| && forall c :: c !in s ==> c !in Trim(s)
  {
    TrimIdempotent(s);
    forall c | c !in s ensures c !in Trim(s) {
      if c in Trim(s) {
        TrimKeeps(s, c);
      }
    }
  }

  lemma Payload(frame: string)
    requires frame != "" && |frame| <= MAX_PAYLOAD
    ensures DecodeMessage(frame).Some? && |DecodeMessage(frame).value.payload| + 1 <= MAX_PAYLOAD
  {
  }

  lemma One(env: Env, sh: Shared, local: Local, a: Action)
    requires Allowed(local.phase, a) && !StoresChat(a) && Safe(env, sh, local.username, a)
    ensures Wellformed(env, sh, local, [a])
  {
    assert Shaped(NextPhase(local.phase, a), [a][1..]);
  }

  lemma AuthHandled(env: Env, sh: Shared, local: Local, input: Input)
    requires local.phase == Authenticating && input.Arrived? && InputOk(input)
    ensures Wellformed(env, sh, local, HandleAuth(input.data, input.salt, input.now))
  {
    var todo := HandleAuth(input.data, input.salt, input.now);
    if input.data != "" {
      Payload(input.data);
      var payload := DecodeMessage(input.data).value.payload;
      var i := Find(payload, '\n');
      if i != NPOS {
        TrimmedSize(payload[..i]);
      }
    }
    assert |todo| == 1;
    assert todo == [todo[0]];
    One(env, sh, local, todo[0]);
  }

  lemma ChatHandled(env: Env, sh: Shared, s: Sock, local: Local, payload: string, now: Int64)
    requires local.phase == Chatting && LocalOk(sh, local) && |payload| <= MAX_PAYLOAD
    ensures Wellformed(env, sh, local, HandleChat(s, local.username, local.room, payload, now))
  {
    var todo := HandleChat(s, local.username, local.room, payload, now);
    TrimmedSize(payload);
    if todo != [] {
      RoomHasNoNul(local.room);
      StoredTwice(todo[0].message);
      assert todo == [todo[0]] + [todo[1]];
      assert todo[1..] == [todo[1]];
      One(env, sh, local, todo[1]);
    }
  }

  /** The blocks of a join that is not refused. */
  lemma JoinBlocks(s: Sock, username: string, room: string, payload: string)
    requires SanitizeRoom(payload) != "" && SanitizeRoom(payload) != room
    ensures var todo, newRoom := HandleJoin(s, username, room, payload), SanitizeRoom(payload);
            && |todo| == 5
            && todo[0] == Broadcast(room, LeftNote(username, room), Some(s))
            && todo[1] == MoveTo(newRoom)
            && todo[2] == Reply(Msg(Joined, newRoom))
            && todo[3] == Broadcast(newRoom, JoinedNote(username, newRoom), Some(s))
            && todo[4] == Replay(newRoom, DEFAULT_LIMIT)
  {
  }

  lemma MoveSafe(env: Env, sh: Shared, user: string, room: string, todo: seq<Action>)
    requires |todo| == 5 && ChatRoom(room)
    requires todo[0].Broadcast? && todo[0].msg.kind == System && todo[1] == MoveTo(room)
    requires todo[2].Reply? && todo[2].msg.kind == Joined
    requires todo[3].Broadcast? && todo[3].msg.kind == System && todo[4] == Replay(room, DEFAULT_LIMIT)
    ensures AllSafe(env, sh, user, todo)
  {
  }

  lemma MoveHandled(env: Env, sh: Shared, local: Local, todo: seq<Action>)
    requires |todo| == 5 && todo[0].Broadcast? && todo[1].MoveTo? && todo[2].Reply? && todo[3].Broadcast? && todo[4].Replay?
    requires local.phase == Chatting && AllSafe(env, sh, local.username, todo)
    ensures Wellformed(env, sh, local, todo)
  {
    assert todo[4..][1..] == [];
    assert todo[3..][1..] == todo[4..];
    assert todo[2..][1..] == todo[3..];
    assert todo[1..][1..] == todo[2..];
    assert Shaped(Chatting, todo[4..]);
    assert Shaped(Chatting, todo[3..]);
    assert Shaped(Chatting, todo[2..]);
    assert Shaped(Chatting, todo[1..]);
  }

  lemma JoinHandled(env: Env, sh: Shared, s: Sock, local: Local, payload: string)
    requires local.phase == Chatting && LocalOk(sh, local)
    ensures Wellformed(env, sh, local, HandleJoin(s, local.username, local.room, payload))
  {
    var todo := HandleJoin(s, local.username, local.room, payload);
    var room := SanitizeRoom(payload);
    SanitizedIsChatRoom(payload);
    if room == "" || room == local.room {
      assert todo == [todo[0]];
      One(env, sh, local, todo[0]);
    } else {
      JoinBlocks(s, local.username, local.room, payload);
      MoveSafe(env, sh, local.username, room, todo);
      MoveHandled(env, sh, local, todo);
    }
  }

  lemma HistoryHandled(env: Env, sh: Shared, local: Local, payload: string)
    requires local.phase == Chatting && LocalOk(sh, local)
    requires ReadHistoryRequest(payload).OfThread? ==> (local.username, ReadHistoryRequest(payload).user) in sh.asked
    ensures Wellformed(env, sh, local, HandleHistory(local.username, local.room, payload))
  {
    var todo := HandleHistory(local.username, local.room, payload);
    assert todo == [todo[0]];
    One(env, sh, local, todo[0]);
  }

  lemma DirectHandled(env: Env, sh: Shared, local: Local, payload: string, now: Int64)
    requires local.phase == Chatting && |payload| <= MAX_PAYLOAD
    ensures Wellformed(env, sh, local, HandleDirect(local.username, payload, now))
  {
    var todo := HandleDirect(local.username, payload, now);
    assert todo == [todo[0]];
    var i := Find(payload, '\n');
    if i != NPOS {
      TrimmedSize(payload[i + 1..]);
    }
    One(env, sh, local, todo[0]);
  }

  lemma DepartureHandled(env: Env, sh: Shared, local: Local)
    requires local.phase == Chatting
    ensures Wellformed(env, sh, local, Departure(local.username, local.room))
  {
    var todo := Departure(local.username, local.room);
    assert todo[2..][1..] == [];
    assert todo[1..][1..] == todo[2..];
    assert Shaped(Leaving, todo[2..]);
    assert Shaped(Leaving, todo[1..]);
  }

  lemma QuitHandled(env: Env, sh: Shared, local: Local, goodbye: Msg)
    requires local.phase == Chatting && goodbye.kind == System
    ensures Wellformed(env, sh, local, [Reply(goodbye)] + Departure(local.username, local.room))
  {
    DepartureHandled(env, sh, local);
    var todo := [Reply(goodbye)] + Departure(local.username, local.room);
    assert todo[1..] == Departure(local.username, local.room);
  }

  /** What a frame asks for has been recorded. */
  ghost predicate Recorded(sh: Shared, local: Local, input: Input) {
    forall q :: q in Asked(local, input) ==> q in sh.asked
  }

  lemma AskedRecorded(sh: Shared, local: Local, input: Input, m: Msg)
    requires local.phase == Chatting && input.Arrived? && Recorded(sh, local, input)
    requires DecodeMessage(input.data) == Some(m) && m.kind == HistoryReq && ReadHistoryRequest(m.payload).OfThread?
    ensures (local.username, ReadHistoryRequest(m.payload).user) in sh.asked
  {
    assert Asked(local, input) == [(local.username, ReadHistoryRequest(m.payload).user)];
    assert (local.username, ReadHistoryRequest(m.payload).user) in Asked(local, input);
  }

  /** Whatever a chatting thread reads: frames of every type and content. */
  lemma FrameHandled(env: Env, sh: Shared, s: Sock, local: Local, input: Input)
    requires local.phase == Chatting && LocalOk(sh, local) && input.Arrived? && InputOk(input) && Recorded(sh, local, input)
    ensures Wellformed(env, sh, local, HandleFrame(s, local.username, local.room, input.data, input.now))
  {
    if input.data == "" {
      One(env, sh, local, Reply(Note(MALFORMED)));
    } else {
      Payload(input.data);
      MessageHandled(env, sh, s, local, input, DecodeMessage(input.data).value);
    }
  }

  lemma MessageHandled(env: Env, sh: Shared, s: Sock, local: Local, input: Input, m: Msg)
    requires local.phase == Chatting && LocalOk(sh, local) && input.Arrived? && Recorded(sh, local, input)
    requires DecodeMessage(input.data) == Some(m) && |m.payload| <= MAX_PAYLOAD
    ensures Wellformed(env, sh, local, HandleFrame(s, local.username, local.room, input.data, input.now))
  {
    match m.kind
    case Chat => ChatHandled(env, sh, s, local, m.payload, input.now);
    case Join => JoinHandled(env, sh, s, local, m.payload);
    case HistoryReq =>
      if ReadHistoryRequest(m.payload).OfThread? {
        AskedRecorded(sh, local, input, m);
      }
      HistoryHandled(env, sh, local, m.payload);
    case RoomsReq => One(env, sh, local, CountClients);
    case Direct => DirectHandled(env, sh, local, m.payload, input.now);
    case UsersReq => One(env, sh, local, HandleUsers(local.room, m.payload)[0]);
    case Quit => QuitHandled(env, sh, local, Note("Goodbye, " + local.username + "!"));
    case _ => One(env, sh, local, Reply(Note(UNSUPPORTED)));
  }

  lemma InputHandled(env: Env, sh: Shared, s: Sock, local: Local, input: Input)
    requires local.phase == Authenticating || local.phase == Chatting
    requires LocalOk(sh, local) && InputOk(input) && Recorded(sh, local, input)
    ensures Wellformed(env, sh, local, Handle(s, local, input))
  {
    if input.Disconnected? {
      if local.phase == Chatting {
        DepartureHandled(env, sh, local);
      } else {
        One(env, sh, local, Close);
      }
    } else if local.phase == Chatting {
      FrameHandled(env, sh, s, local, input);
    } else {
      AuthHandled(env, sh, local, input);
    }
  }

  // ----- Steps -----

  lemma TargetValid(env: Env, st: State, target: string)
    requires Inv(env, st) && FindUser(st.shared.clients, target).Some?
    ensures LoginName(target)
  {
    FindUserFirst(st.shared.clients, target);
    var i :| 0 <= i < |st.shared.clients| && st.shared.clients[i].username == target;
    var c := st.shared.clients[i];
    assert Agrees(st.threads, c);
    assert ThreadOk(env, st.shared, st.threads[c.socket]);
  }

  lemma HeadMayRun(env: Env, st: State, s: Sock)
    requires Inv(env, st) && s in st.threads && st.threads[s].todo != []
    ensures MayRun(env, st.shared, st.threads[s].local, st.threads[s].todo[0])
  {
    var t := st.threads[s];
    var a := t.todo[0];
    assert ThreadOk(env, st.shared, t);
    assert Safe(env, st.shared, t.local.username, a);
    if a.Route? && FindUser(st.shared.clients, a.target).Some? {
      TargetValid(env, st, a.target);
    }
  }

  /** Every thread is in order after a block of `s`, before its message is delivered. */
  lemma OthersOk(env: Env, st: State, s: Sock, ok: bool, r: Sock)
    requires Inv(env, st) && s in st.threads && st.threads[s].todo != [] && r in st.threads
    ensures var sh' := SharedAfter(env, st.shared, s, st.threads[s].todo[0], ok);
            ThreadOk(env, sh', st.threads[s := Advanced(env, st.shared, s, st.threads[s], ok)][r])
  {
    HeadMayRun(env, st, s);
    if r == s {
      BlockThreadOk(env, st.shared, s, st.threads[s], ok);
    } else {
      BlockGrows(env, st.shared, s, st.threads[s].todo[0], ok);
      ThreadOkGrows(env, st.shared, SharedAfter(env, st.shared, s, st.threads[s].todo[0], ok), st.threads[r]);
    }
  }

  lemma SentOk(env: Env, sh: Shared, sh': Shared, s: Sock, local: Local, a: Action, r: Sock, user: string, phase: Phase)
    requires Grows(sh, sh') && Allowed(local.phase, a) && Safe(env, sh, local.username, a)
    requires Sent(s, a).Some? && Sent(s, a).value.0 == r
    requires r == s ==> user == local.username && phase == local.phase
    ensures MayReceive(env, sh', user, Sent(s, a).value.1)
    ensures phase == Authenticating ==> Sent(s, a).value.1.kind != History
  {
    if a.Reply? {
      MayReceiveGrows(env, sh, sh', user, a.msg);
    }
  }

  lemma SendKeepsLocal(env: Env, sh: Shared, local: Local, s: Sock, a: Action, ok: bool)
    requires Sent(s, a).Some?
    ensures LocalAfter(env, sh, local, a, ok) == local
  {
  }

  lemma DeliveryOk(env: Env, st: State, s: Sock, ok: bool, r: Sock)
    requires Inv(env, st) && s in st.threads && st.threads[s].todo != [] && r in st.threads
    ensures r in RunBlock(env, st, s, ok).threads
    ensures ThreadOk(env, RunBlock(env, st, s, ok).shared, RunBlock(env, st, s, ok).threads[r])
  {
    var t, a := st.threads[s], st.threads[s].todo[0];
    var sh', threads := SharedAfter(env, st.shared, s, a, ok), st.threads[s := Advanced(env, st.shared, s, t, ok)];
    OthersOk(env, st, s, ok, r);
    DeliveredThread(threads, Sent(s, a), r);
    if Sent(s, a).Some? && Sent(s, a).value.0 == r {
      HeadMayRun(env, st, s);
      BlockGrows(env, st.shared, s, a, ok);
      SendKeepsLocal(env, st.shared, t.local, s, a, ok);
      SentOk(env, st.shared, sh', s, t.local, a, r, threads[r].local.username, threads[r].local.phase);
      ReceivingOk(env, sh', threads[r], Sent(s, a).value.1);
    }
  }

  /** A block changes the remaining blocks of its own thread only. */
  lemma TodoAfter(env: Env, st: State, s: Sock, ok: bool, r: Sock)
    requires s in st.threads && st.threads[s].todo != []
    ensures r in RunBlock(env, st, s, ok).threads <==> r in st.threads
    ensures r in st.threads ==>
              RunBlock(env, st, s, ok).threads[r].todo ==
              if r == s then NextBlocks(env, st.shared, s, st.threads[s].todo[0], ok) + st.threads[s].todo[1..] else st.threads[r].todo
  {
    var threads := st.threads[s := Advanced(env, st.shared, s, st.threads[s], ok)];
    DeliveredKeys(threads, Sent(s, st.threads[s].todo[0]));
    if r in st.threads {
      DeliveredThread(threads, Sent(s, st.threads[s].todo[0]), r);
    }
  }

  /** Steps of other threads leave a thread's remaining blocks and locals alone. */
  lemma OtherStep(env: Env, st: State, step: Step, s: Sock)
    requires Enabled(st, step) && s in st.threads && step.socket != s
    ensures var st' := Next(env, st, step);
            s in st'.threads && st'.threads[s].todo == st.threads[s].todo && st'.threads[s].local == st.threads[s].local
  {
    if step.Run? {
      var r := step.socket;
      DeliveredThread(st.threads[r := Advanced(env, st.shared, r, st.threads[r], step.ok)], Sent(r, st.threads[r].todo[0]), s);
    }
  }

  lemma AfterOneMore(env: Env, run: seq<Step>, step: Step)
    requires After(env, run + [step]).Some?
    ensures After(env, run).Some? && Enabled(After(env, run).value, step)
    ensures After(env, run + [step]).value == Next(env, After(env, run).value, step)
  {
    PrefixOfLonger(run, step, |run|);
  }

  lemma FreshEntry(env: Env, st: State, s: Sock)
    requires Inv(env, st) && s in st.threads && st.threads[s].todo != [] && st.threads[s].todo[0].Enter?
    ensures !Listed(st.shared.clients, s)
  {
    HeadMayRun(env, st, s);
    forall i | 0 <= i < |st.shared.clients| ensures st.shared.clients[i].socket != s {
      assert Agrees(st.threads, st.shared.clients[i]);
    }
  }

  lemma RunKeeps(env: Env, st: State, s: Sock, ok: bool)
    requires Inv(env, st) && s in st.threads && st.threads[s].todo != []
    ensures Inv(env, RunBlock(env, st, s, ok))
  {
    var t, a := st.threads[s], st.threads[s].todo[0];
    var threads := st.threads[s := Advanced(env, st.shared, s, t, ok)];
    var st' := RunBlock(env, st, s, ok);
    HeadMayRun(env, st, s);
    DeliveredKeys(threads, Sent(s, a));
    forall r | r in st'.threads ensures ThreadOk(env, st'.shared, st'.threads[r]) {
      DeliveryOk(env, st, s, ok, r);
    }
    BlockDbOk(env, st.shared, s, t.local, a, ok);
    BlockRegistryOk(env, st.shared, st.threads, s, ok);
    RegistryDelivered(st'.shared.clients, threads, Sent(s, a));
    if a.Enter? {
      FreshEntry(env, st, s);
    }
    BlockOrderOk(env, st.shared, st.threads, s, a, ok);
  }

  lemma RecordingGrows(sh: Shared, local: Local, input: Input)
    ensures var sh' := sh.(asked := sh.asked + Asked(local, input)); Grows(sh, sh') && Recorded(sh', local, input)
  {
  }

  lemma ReceiverOk(env: Env, sh: Shared, s: Sock, t: Thread, input: Input)
    requires ThreadOk(env, sh, t) && AtRead(t) && InputOk(input) && Recorded(sh, t.local, input)
    ensures ThreadOk(env, sh, t.(todo := Handle(s, t.local, input)))
  {
    InputHandled(env, sh, s, t.local, input);
  }

  lemma RecordingKeepsDb(sh: Shared, sh': Shared)
    requires DbOk(sh) && Grows(sh, sh') && sh'.db == sh.db
    ensures DbOk(sh')
  {
    forall i | 0 <= i < |sh.db.messages| ensures Keepable(sh'.routed, sh.db.messages[i].message) {
      KeepableGrows(sh, sh', sh.db.messages[i].message);
    }
  }

  lemma ReceiveKeeps(env: Env, st: State, s: Sock, input: Input)
    requires Inv(env, st) && Enabled(st, Receive(s, input))
    ensures Inv(env, Next(env, st, Receive(s, input)))
  {
    var t, st' := st.threads[s], Next(env, st, Receive(s, input));
    RecordingGrows(st.shared, t.local, input);
    RecordingKeepsDb(st.shared, st'.shared);
    forall r | r in st'.threads ensures ThreadOk(env, st'.shared, st'.threads[r]) {
      ThreadOkGrows(env, st.shared, st'.shared, st.threads[r]);
      if r == s {
        ReceiverOk(env, st'.shared, s, t, input);
      }
    }
    RegistryUntouched(st.shared.clients, st.threads, s, t.(todo := Handle(s, t.local, input)));
  }

  lemma ReceivedShaped(env: Env, st: State, s: Sock, input: Input)
    requires Inv(env, st) && Enabled(st, Receive(s, input))
    ensures Shaped(st.threads[s].local.phase, Handle(s, st.threads[s].local, input))
  {
    ReceiveKeeps(env, st, s, input);
    assert ThreadOk(env, Next(env, st, Receive(s, input)).shared, Next(env, st, Receive(s, input)).threads[s]);
  }

  lemma AcceptKeeps(env: Env, st: State, s: Sock)
    requires Inv(env, st) && s !in st.threads
    ensures Inv(env, Next(env, st, Accept(s)))
  {
    var st' := Next(env, st, Accept(s));
    forall i | 0 <= i < |st.shared.clients| ensures Agrees(st'.threads, st.shared.clients[i]) {
      assert Agrees(st.threads, st.shared.clients[i]);
    }
  }

  lemma StepKeeps(env: Env, st: State, step: Step)
    requires Inv(env, st) && Enabled(st, step)
    ensures Inv(env, Next(env, st, step))
  {
    match step
    case Accept(s) => AcceptKeeps(env, st, s);
    case Receive(s, input) => ReceiveKeeps(env, st, s, input);
    case Run(s, ok) => RunKeeps(env, st, s, ok);
  }

  /** The invariant holds after every run of any number of interleaved threads. */
  lemma {:induction false} AlwaysInv(env: Env, run: seq<Step>)
    requires After(env, run).Some?
    ensures Inv(env, After(env, run).value)
  {
    if run != [] {
      AlwaysInv(env, run[..|run| - 1]);
      StepKeeps(env, After(env, run[..|run| - 1]).value, run[|run| - 1]);
    }
  }
}
