/** Whose direct messages a connection is sent: only those from or to its own name. */
module Parties {
  import opened Messages
  import opened Codec
  import opened Registry
  import opened Server
  import opened Invariant
  import opened Reachable
  import opened Delivery

  /** The direct message is from or to the name, and survives its encoding. */
  predicate Concerns(username: string, d: DirectMessage) {
    DirectFields(d).Fit() && (d.from == username || d.to == username)
  }

  /** If the message is a direct one, `r` is logged in and one of its parties. */
  ghost predicate Personal(env: Env, threads: map<Sock, Thread>, r: Sock, m: Msg) {
    m.kind == DirectMsg ==>
      && r in threads && threads[r].local.phase != Authenticating
      && exists d :: m == DirectNote(env, d) && Concerns(threads[r].local.username, d)
  }

  ghost predicate BlockPersonal(env: Env, threads: map<Sock, Thread>, a: Action) {
    && (a.SendTo? ==> Personal(env, threads, a.socket, a.msg))
    && (a.Reply? ==> a.msg.kind != DirectMsg)
  }

  ghost predicate AllPersonal(env: Env, threads: map<Sock, Thread>, blocks: seq<Action>) {
    forall i | 0 <= i < |blocks| :: BlockPersonal(env, threads, blocks[i])
  }

  ghost predicate BoxPersonal(env: Env, threads: map<Sock, Thread>, r: Sock, outbox: seq<Msg>) {
    forall i | 0 <= i < |outbox| :: Personal(env, threads, r, outbox[i])
  }

  ghost predicate ThreadPersonal(env: Env, threads: map<Sock, Thread>, s: Sock, t: Thread) {
    AllPersonal(env, threads, t.todo) && BoxPersonal(env, threads, s, t.outbox)
  }

  ghost predicate PartiesOk(env: Env, st: State) {
    forall s | s in st.threads :: ThreadPersonal(env, st.threads, s, st.threads[s])
  }

  // ----- Names stay -----

  /** Whoever is logged in keeps the name. */
  ghost predicate NamesStay(threads: map<Sock, Thread>, threads': map<Sock, Thread>) {
    forall r | r in threads && threads[r].local.phase != Authenticating ::
      r in threads' && threads'[r].local.phase != Authenticating && threads'[r].local.username == threads[r].local.username
  }

  lemma BlockKeepsName(env: Env, sh: Shared, local: Local, a: Action, ok: bool)
    requires Allowed(local.phase, a) && local.phase != Authenticating
    ensures LocalAfter(env, sh, local, a, ok).phase != Authenticating
    ensures LocalAfter(env, sh, local, a, ok).username == local.username
  {
  }

  lemma StepKeepsNames(env: Env, st: State, step: Step)
    requires Inv(env, st) && Enabled(st, step)
    ensures NamesStay(st.threads, Next(env, st, step).threads)
  {
    var st' := Next(env, st, step);
    forall r | r in st.threads && st.threads[r].local.phase != Authenticating
      ensures r in st'.threads && st'.threads[r].local.phase != Authenticating
      ensures st'.threads[r].local.username == st.threads[r].local.username
    {
      if step.socket != r {
        OtherStep(env, st, step, r);
      } else if step.Run? {
        RunKeepsName(env, st, r, step.ok);
      }
    }
  }

  lemma RunKeepsName(env: Env, st: State, s: Sock, ok: bool)
    requires Inv(env, st) && s in st.threads && st.threads[s].todo != [] && st.threads[s].local.phase != Authenticating
    ensures var st' := RunBlock(env, st, s, ok);
            && s in st'.threads && st'.threads[s].local.phase != Authenticating
            && st'.threads[s].local.username == st.threads[s].local.username
  {
    var t := st.threads[s];
    assert ThreadOk(env, st.shared, t);
    BlockKeepsName(env, st.shared, t.local, t.todo[0], ok);
    DeliveredThread(st.threads[s := Advanced(env, st.shared, s, t, ok)], Sent(s, t.todo[0]), s);
  }

  lemma PersonalStays(env: Env, threads: map<Sock, Thread>, threads': map<Sock, Thread>, r: Sock, m: Msg)
    requires NamesStay(threads, threads') && Personal(env, threads, r, m)
    ensures Personal(env, threads', r, m)
  {
    if m.kind == DirectMsg {
      var d :| m == DirectNote(env, d) && Concerns(threads[r].local.username, d);
      assert Concerns(threads'[r].local.username, d);
    }
  }

  lemma AllPersonalStays(env: Env, threads: map<Sock, Thread>, threads': map<Sock, Thread>, blocks: seq<Action>)
    requires NamesStay(threads, threads') && AllPersonal(env, threads, blocks)
    ensures AllPersonal(env, threads', blocks)
  {
    forall i | 0 <= i < |blocks| ensures BlockPersonal(env, threads', blocks[i]) {
      assert BlockPersonal(env, threads, blocks[i]);
      if blocks[i].SendTo? {
        PersonalStays(env, threads, threads', blocks[i].socket, blocks[i].msg);
      }
    }
  }

  lemma BoxPersonalStays(env: Env, threads: map<Sock, Thread>, threads': map<Sock, Thread>, r: Sock, outbox: seq<Msg>)
    requires NamesStay(threads, threads') && BoxPersonal(env, threads, r, outbox)
    ensures BoxPersonal(env, threads', r, outbox)
  {
    forall i | 0 <= i < |outbox| ensures Personal(env, threads', r, outbox[i]) {
      PersonalStays(env, threads, threads', r, outbox[i]);
    }
  }

  // ----- New blocks -----

  /** Blocks that send no direct message. */
  predicate Impersonal(a: Action) {
    (a.SendTo? || a.Reply?) ==> a.msg.kind != DirectMsg
  }

  ghost predicate AllImpersonal(blocks: seq<Action>) {
    forall i | 0 <= i < |blocks| :: Impersonal(blocks[i])
  }

  lemma ImpersonalIsPersonal(env: Env, threads: map<Sock, Thread>, blocks: seq<Action>)
    requires AllImpersonal(blocks)
    ensures AllPersonal(env, threads, blocks)
  {
    forall i | 0 <= i < |blocks| ensures BlockPersonal(env, threads, blocks[i]) {
      assert Impersonal(blocks[i]);
    }
  }

  lemma JoinImpersonal(s: Sock, username: string, room: string, payload: string)
    ensures AllImpersonal(HandleJoin(s, username, room, payload))
  {
  }

  lemma HistoryImpersonal(username: string, room: string, payload: string)
    ensures AllImpersonal(HandleHistory(username, room, payload))
  {
    var todo := HandleHistory(username, room, payload);
    assert |todo| == 1 && (todo[0].Replay? || (todo[0].Reply? && todo[0].msg.kind == System));
  }

  lemma DirectImpersonal(username: string, payload: string, now: Int64)
    ensures AllImpersonal(HandleDirect(username, payload, now))
  {
    var todo := HandleDirect(username, payload, now);
    assert |todo| == 1 && (todo[0].Route? || (todo[0].Reply? && todo[0].msg.kind == System));
  }

  lemma DepartureImpersonal(username: string, room: string)
    ensures AllImpersonal(Departure(username, room))
    ensures AllImpersonal([Reply(Note("Goodbye, " + username + "!"))] + Departure(username, room))
  {
  }

  lemma FrameImpersonal(s: Sock, username: string, room: string, frame: string, now: Int64)
    ensures AllImpersonal(HandleFrame(s, username, room, frame, now))
  {
    if DecodeMessage(frame).Some? {
      var m := DecodeMessage(frame).value;
      match m.kind
      case Join => JoinImpersonal(s, username, room, m.payload);
      case HistoryReq => HistoryImpersonal(username, room, m.payload);
      case Direct => DirectImpersonal(username, m.payload, now);
      case Quit => DepartureImpersonal(username, room);
      case _ =>
    }
  }

  lemma AuthImpersonal(frame: string, salt: string, now: Int64)
    ensures AllImpersonal(HandleAuth(frame, salt, now))
  {
  }

  lemma InputImpersonal(s: Sock, local: Local, input: Input)
    ensures AllImpersonal(Handle(s, local, input))
  {
    if input.Arrived? {
      FrameImpersonal(s, local.username, local.room, input.data, input.now);
      AuthImpersonal(input.data, input.salt, input.now);
    }
  }

  lemma SendsImpersonal(env: Env, sh: Shared, s: Sock, user: string, a: Action, ok: bool)
    requires (a.Broadcast? || a.Air?) && Safe(env, sh, user, a)
    ensures AllImpersonal(NextBlocks(env, sh, s, a, ok))
  {
  }

  lemma AttemptImpersonal(env: Env, sh: Shared, s: Sock, a: Action, ok: bool)
    requires a.TryRegister? || a.TryLogin?
    ensures AllImpersonal(NextBlocks(env, sh, s, a, ok))
  {
  }

  lemma AnswerImpersonal(env: Env, sh: Shared, s: Sock, a: Action, ok: bool)
    requires a.StoreMessage? || a.CountClients? || a.ListRoomsFor? || a.ListUsers? || a.Replay?
    ensures AllImpersonal(NextBlocks(env, sh, s, a, ok))
  {
    var next := NextBlocks(env, sh, s, a, ok);
    assert |next| <= 1;
    assert next != [] ==> next[0].ListRoomsFor? || (next[0].Reply? && next[0].msg.kind != DirectMsg);
  }

  lemma NextImpersonal(env: Env, sh: Shared, s: Sock, user: string, a: Action, ok: bool)
    requires !a.Route? && Safe(env, sh, user, a)
    ensures AllImpersonal(NextBlocks(env, sh, s, a, ok))
  {
    if a.Broadcast? || a.Air? {
      SendsImpersonal(env, sh, s, user, a, ok);
    } else if a.TryRegister? || a.TryLogin? {
      AttemptImpersonal(env, sh, s, a, ok);
    } else if a.StoreMessage? || a.CountClients? || a.ListRoomsFor? || a.ListUsers? || a.Replay? {
      AnswerImpersonal(env, sh, s, a, ok);
    } else {
      QuietNext(env, sh, s, a, ok);
    }
  }

  lemma DeliveriesPersonal(env: Env, threads: map<Sock, Thread>, target: Option<Sock>, s: Sock, dm: DirectMessage)
    requires DirectFields(dm).Fit()
    requires s in threads && threads[s].local.phase != Authenticating && threads[s].local.username == dm.from
    requires target.Some? ==> target.value in threads && threads[target.value].local.phase != Authenticating
    requires target.Some? ==> threads[target.value].local.username == dm.to
    ensures AllPersonal(env, threads, Deliveries(env, target, s, dm))
  {
    var d, m := Deliveries(env, target, s, dm), DirectNote(env, dm);
    if target.Some? {
      assert Concerns(dm.from, dm) && Concerns(dm.to, dm);
      assert Personal(env, threads, target.value, m) && Personal(env, threads, s, m);
      assert |d| == 3 && d[0].StoreMessage? && d[1] == SendTo(target.value, m) && d[2] == SendTo(s, m);
    } else {
      assert |d| == 1 && d[0].Reply? && d[0].msg.kind == System;
    }
  }

  lemma FoundIsTarget(st: State, target: string)
    requires RegistryOk(st.shared.clients, st.threads) && FindUser(st.shared.clients, target).Some?
    ensures var found := FindUser(st.shared.clients, target).value;
            found in st.threads && st.threads[found].local.phase == Chatting && st.threads[found].local.username == target
  {
    var clients := st.shared.clients;
    FindUserFirst(clients, target);
    var i :| 0 <= i < |clients| && clients[i].username == target && FindUser(clients, target).value == clients[i].socket;
    assert Agrees(st.threads, clients[i]);
  }

  lemma RefusedImpersonal(env: Env, s: Sock, dm: DirectMessage)
    ensures AllImpersonal(Deliveries(env, None, s, dm))
  {
  }

  lemma RouterKnown(env: Env, st: State, s: Sock)
    requires Inv(env, st) && s in st.threads && st.threads[s].todo != [] && st.threads[s].todo[0].Route?
    ensures st.threads[s].local.phase == Chatting && st.threads[s].todo[0].from == st.threads[s].local.username
    ensures FindUser(st.shared.clients, st.threads[s].todo[0].target).Some? ==> DirectFields(RoutedMessage(st.threads[s].todo[0])).Fit()
  {
    HeadMayRun(env, st, s);
    if FindUser(st.shared.clients, st.threads[s].todo[0].target).Some? {
      RoutedFits(env, st.shared, st.threads[s].local, st.threads[s].todo[0]);
    }
  }

  lemma FoundPersonal(env: Env, st: State, s: Sock, found: Sock)
    requires Inv(env, st) && s in st.threads && st.threads[s].todo != [] && st.threads[s].todo[0].Route?
    requires FindUser(st.shared.clients, st.threads[s].todo[0].target) == Some(found)
    ensures AllPersonal(env, st.threads, Deliveries(env, Some(found), s, RoutedMessage(st.threads[s].todo[0])))
  {
    RouterKnown(env, st, s);
    FoundIsTarget(st, st.threads[s].todo[0].target);
    DeliveriesPersonal(env, st.threads, Some(found), s, RoutedMessage(st.threads[s].todo[0]));
  }

  lemma RoutePersonal(env: Env, st: State, s: Sock, ok: bool)
    requires Inv(env, st) && s in st.threads && st.threads[s].todo != [] && st.threads[s].todo[0].Route?
    ensures AllPersonal(env, st.threads, NextBlocks(env, st.shared, s, st.threads[s].todo[0], ok))
  {
    var a, target := st.threads[s].todo[0], FindUser(st.shared.clients, st.threads[s].todo[0].target);
    if target.Some? {
      FoundPersonal(env, st, s, target.value);
    } else {
      RefusedImpersonal(env, s, RoutedMessage(a));
      ImpersonalIsPersonal(env, st.threads, Deliveries(env, None, s, RoutedMessage(a)));
    }
  }

  lemma RoutedFits(env: Env, sh: Shared, local: Local, a: Action)
    requires a.Route? && MayRun(env, sh, local, a) && FindUser(sh.clients, a.target).Some?
    ensures DirectFields(RoutedMessage(a)).Fit()
  {
  }

  lemma NextPersonal(env: Env, st: State, s: Sock, ok: bool)
    requires Inv(env, st) && s in st.threads && st.threads[s].todo != []
    ensures AllPersonal(env, st.threads, NextBlocks(env, st.shared, s, st.threads[s].todo[0], ok))
  {
    var t, a := st.threads[s], st.threads[s].todo[0];
    HeadMayRun(env, st, s);
    if a.Route? {
      RoutePersonal(env, st, s, ok);
    } else {
      NextImpersonal(env, st.shared, s, t.local.username, a, ok);
      ImpersonalIsPersonal(env, st.threads, NextBlocks(env, st.shared, s, a, ok));
    }
  }

  // ----- All runs -----

  lemma AppendPersonal(env: Env, threads: map<Sock, Thread>, next: seq<Action>, todo: seq<Action>)
    requires AllPersonal(env, threads, next) && AllPersonal(env, threads, todo) && todo != []
    ensures AllPersonal(env, threads, next + todo[1..])
  {
    forall i | 0 <= i < |next + todo[1..]| ensures BlockPersonal(env, threads, (next + todo[1..])[i]) {
      if i < |next| {
        assert BlockPersonal(env, threads, next[i]);
      } else {
        assert BlockPersonal(env, threads, todo[i - |next| + 1]);
      }
    }
  }

  /** What the step adds to an outbox. */
  lemma SentPersonal(env: Env, threads: map<Sock, Thread>, s: Sock, a: Action, r: Sock, m: Msg)
    requires BlockPersonal(env, threads, a) && Sent(s, a) == Some((r, m))
    ensures Personal(env, threads, r, m)
  {
  }

  lemma RunPersonal(env: Env, st: State, s: Sock, ok: bool, r: Sock)
    requires Inv(env, st) && PartiesOk(env, st) && s in st.threads && st.threads[s].todo != [] && r in st.threads
    ensures r in RunBlock(env, st, s, ok).threads
    ensures ThreadPersonal(env, st.threads, r, RunBlock(env, st, s, ok).threads[r])
  {
    var a := st.threads[s].todo[0];
    var threads := st.threads[s := Advanced(env, st.shared, s, st.threads[s], ok)];
    DeliveredThread(threads, Sent(s, a), r);
    assert ThreadPersonal(env, st.threads, r, st.threads[r]);
    if r == s {
      NextPersonal(env, st, s, ok);
      AppendPersonal(env, st.threads, NextBlocks(env, st.shared, s, a, ok), st.threads[s].todo);
    }
    if Sent(s, a).Some? && Sent(s, a).value.0 == r {
      assert ThreadPersonal(env, st.threads, s, st.threads[s]);
      SentPersonal(env, st.threads, s, a, r, Sent(s, a).value.1);
    }
  }

  lemma StepPersonal(env: Env, st: State, step: Step, r: Sock)
    requires Inv(env, st) && PartiesOk(env, st) && Enabled(st, step) && r in Next(env, st, step).threads
    ensures ThreadPersonal(env, st.threads, r, Next(env, st, step).threads[r])
  {
    match step
    case Accept(s) =>
      if r != s {
        assert ThreadPersonal(env, st.threads, r, st.threads[r]);
      }
    case Receive(s, input) =>
      assert ThreadPersonal(env, st.threads, r, st.threads[r]);
      InputImpersonal(s, st.threads[s].local, input);
      ImpersonalIsPersonal(env, st.threads, Handle(s, st.threads[s].local, input));
    case Run(s, ok) =>
      TodoAfter(env, st, s, ok, r);
      RunPersonal(env, st, s, ok, r);
  }

  lemma StepKeepsParties(env: Env, st: State, step: Step)
    requires Inv(env, st) && PartiesOk(env, st) && Enabled(st, step)
    ensures PartiesOk(env, Next(env, st, step))
  {
    var st' := Next(env, st, step);
    StepKeepsNames(env, st, step);
    forall r | r in st'.threads ensures ThreadPersonal(env, st'.threads, r, st'.threads[r]) {
      StepPersonal(env, st, step, r);
      AllPersonalStays(env, st.threads, st'.threads, st'.threads[r].todo);
      BoxPersonalStays(env, st.threads, st'.threads, r, st'.threads[r].outbox);
    }
  }

  lemma {:induction false} AlwaysParties(env: Env, run: seq<Step>)
    requires After(env, run).Some?
    ensures PartiesOk(env, After(env, run).value)
  {
    if run != [] {
      var front := run[..|run| - 1];
      AlwaysParties(env, front);
      AlwaysInv(env, front);
      StepKeepsParties(env, After(env, front).value, run[|run| - 1]);
    }
  }

  /** Decodes, completely, to a direct message from or to the name. */
  ghost predicate CarriesFor(username: string, m: Msg) {
    exists d :: Carries(m, d) && (d.from == username || d.to == username)
  }

  lemma PersonalCarries(env: Env, threads: map<Sock, Thread>, r: Sock, m: Msg)
    requires PrintsDirects(env) && m.kind == DirectMsg && Personal(env, threads, r, m)
    ensures r in threads && CarriesFor(threads[r].local.username, m)
  {
    var d :| m == DirectNote(env, d) && Concerns(threads[r].local.username, d);
    DirectCarried(env, d);
  }

  /** In every reachable state, each direct message that a connection has been sent decodes to one from
      or to the name that is logged in on it. */
  lemma DirectsAreOwn(env: Env, run: seq<Step>, st: State, r: Sock, i: nat)
    requires PrintsDirects(env) && After(env, run) == Some(st) && r in st.threads
    requires i < |st.threads[r].outbox| && st.threads[r].outbox[i].kind == DirectMsg
    ensures CarriesFor(st.threads[r].local.username, st.threads[r].outbox[i])
  {
    AlwaysParties(env, run);
    assert ThreadPersonal(env, st.threads, r, st.threads[r]);
    PersonalCarries(env, st.threads, r, st.threads[r].outbox[i]);
  }
}
