/** Who is in the chat: every chatting thread has logged in or registered under its name, in its
    own run and against the accounts of that moment. */
module Admission {
  import opened Seqs
  import opened Messages
  import opened Registry
  import opened Store
  import opened Server
  import opened Invariant
  import opened Reachable

  /** The block of `s` that is next in `st` is an attempt under `u` that goes through. */
  predicate Admits(env: Env, st: State, s: Sock, u: string) {
    && s in st.threads && st.threads[s].todo != []
    && var a := st.threads[s].todo[0];
       && (a.TryLogin? || a.TryRegister?) && a.username == u
       && Succeeds(env, st.shared.db, a, true)
  }

  /** Step `i` of the run is such an attempt. */
  ghost predicate AdmittedAt(env: Env, run: seq<Step>, i: nat, s: Sock, u: string) {
    i < |run| && run[i] == Run(s, true) && After(env, run[..i]).Some? && Admits(env, After(env, run[..i]).value, s, u)
  }

  ghost predicate Admitted(env: Env, run: seq<Step>, s: Sock, u: string) {
    exists i :: AdmittedAt(env, run, i, s, u)
  }

  lemma AdmittedStays(env: Env, run: seq<Step>, step: Step, s: Sock, u: string)
    requires Admitted(env, run, s, u)
    ensures Admitted(env, run + [step], s, u)
  {
    var i :| AdmittedAt(env, run, i, s, u);
    PrefixOfLonger(run, step, i);
    assert AdmittedAt(env, run + [step], i, s, u);
  }

  lemma AdmittedNow(env: Env, run: seq<Step>, s: Sock, u: string)
    requires After(env, run).Some? && Admits(env, After(env, run).value, s, u)
    ensures Admitted(env, run + [Run(s, true)], s, u)
  {
    PrefixOfLonger(run, Run(s, true), |run|);
    assert AdmittedAt(env, run + [Run(s, true)], |run|, s, u);
  }

  /** Entering the chat is only ahead of a thread, or behind it, if it has been admitted. */
  ghost predicate ThreadAdmitted(env: Env, run: seq<Step>, s: Sock, t: Thread) {
    && (t.local.phase == Chatting ==> Admitted(env, run, s, t.local.username))
    && (forall i | 0 <= i < |t.todo| && t.todo[i].Enter? :: Admitted(env, run, s, t.todo[i].username))
  }

  ghost predicate AllAdmitted(env: Env, run: seq<Step>, st: State) {
    forall s | s in st.threads :: ThreadAdmitted(env, run, s, st.threads[s])
  }

  lemma ThreadAdmittedStays(env: Env, run: seq<Step>, step: Step, s: Sock, t: Thread)
    requires ThreadAdmitted(env, run, s, t)
    ensures ThreadAdmitted(env, run + [step], s, t)
  {
    if t.local.phase == Chatting {
      AdmittedStays(env, run, step, s, t.local.username);
    }
    forall i | 0 <= i < |t.todo| && t.todo[i].Enter? ensures Admitted(env, run + [step], s, t.todo[i].username) {
      AdmittedStays(env, run, step, s, t.todo[i].username);
    }
  }

  predicate NoEnter(blocks: seq<Action>) {
    forall i | 0 <= i < |blocks| :: !blocks[i].Enter?
  }

  lemma OnlyAttemptsEnter(env: Env, sh: Shared, s: Sock, a: Action, ok: bool)
    requires !((a.TryLogin? || a.TryRegister?) && Succeeds(env, sh.db, a, ok))
    ensures NoEnter(NextBlocks(env, sh, s, a, ok))
  {
  }

  lemma AttemptsEnterAs(env: Env, sh: Shared, s: Sock, a: Action, ok: bool)
    requires a.TryLogin? || a.TryRegister?
    ensures var next := NextBlocks(env, sh, s, a, ok);
            forall i | 0 <= i < |next| && next[i].Enter? :: next[i].username == a.username && ok && Succeeds(env, sh.db, a, true)
  {
  }

  lemma InputEntersNobody(s: Sock, local: Local, input: Input)
    requires local.phase == Authenticating || local.phase == Chatting
    requires Shaped(local.phase, Handle(s, local, input))
    ensures NoEnter(Handle(s, local, input))
  {
    if local.phase == Chatting {
      InsideStays(local.phase, Handle(s, local, input));
    }
  }

  /** What the block of a thread puts in front enters nobody who has not just been admitted. */
  lemma NextAdmitted(env: Env, run: seq<Step>, st: State, s: Sock, ok: bool)
    requires After(env, run) == Some(st) && s in st.threads && st.threads[s].todo != []
    ensures var next := NextBlocks(env, st.shared, s, st.threads[s].todo[0], ok);
            forall i | 0 <= i < |next| && next[i].Enter? :: Admitted(env, run + [Run(s, ok)], s, next[i].username)
  {
    var a := st.threads[s].todo[0];
    if (a.TryLogin? || a.TryRegister?) && Succeeds(env, st.shared.db, a, ok) {
      AdmittedNow(env, run, s, a.username);
      AttemptsEnterAs(env, st.shared, s, a, ok);
    } else {
      OnlyAttemptsEnter(env, st.shared, s, a, ok);
    }
  }

  lemma ChattingAfter(env: Env, sh: Shared, local: Local, a: Action, ok: bool)
    requires Allowed(local.phase, a) && LocalAfter(env, sh, local, a, ok).phase == Chatting
    ensures if a.Enter? then LocalAfter(env, sh, local, a, ok).username == a.username
            else local.phase == Chatting && LocalAfter(env, sh, local, a, ok).username == local.username
  {
  }

  /** The thread whose block runs. */
  lemma RunnerAdmitted(env: Env, run: seq<Step>, st: State, s: Sock, ok: bool)
    requires After(env, run) == Some(st) && s in st.threads && st.threads[s].todo != []
    requires ThreadAdmitted(env, run, s, st.threads[s]) && Allowed(st.threads[s].local.phase, st.threads[s].todo[0])
    ensures ThreadAdmitted(env, run + [Run(s, ok)], s, Advanced(env, st.shared, s, st.threads[s], ok))
  {
    var t, t', run' := st.threads[s], Advanced(env, st.shared, s, st.threads[s], ok), run + [Run(s, ok)];
    var next := NextBlocks(env, st.shared, s, t.todo[0], ok);
    ThreadAdmittedStays(env, run, Run(s, ok), s, t);
    NextAdmitted(env, run, st, s, ok);
    if t'.local.phase == Chatting {
      ChattingAfter(env, st.shared, t.local, t.todo[0], ok);
    }
    forall i | 0 <= i < |t'.todo| && t'.todo[i].Enter? ensures Admitted(env, run', s, t'.todo[i].username) {
      if i >= |next| {
        assert t'.todo[i] == t.todo[i - |next| + 1];
      }
    }
  }

  lemma OthersAdmitted(env: Env, run: seq<Step>, st: State, s: Sock, ok: bool, r: Sock)
    requires After(env, run) == Some(st) && Inv(env, st) && AllAdmitted(env, run, st)
    requires s in st.threads && st.threads[s].todo != [] && r in st.threads
    ensures r in RunBlock(env, st, s, ok).threads
    ensures ThreadAdmitted(env, run + [Run(s, ok)], r, RunBlock(env, st, s, ok).threads[r])
  {
    var t, a := st.threads[s], st.threads[s].todo[0];
    assert ThreadOk(env, st.shared, t);
    RunnerAdmitted(env, run, st, s, ok);
    ThreadAdmittedStays(env, run, Run(s, ok), r, st.threads[r]);
    DeliveredThread(st.threads[s := Advanced(env, st.shared, s, t, ok)], Sent(s, a), r);
  }

  lemma StepAdmits(env: Env, run: seq<Step>, st: State, step: Step)
    requires After(env, run) == Some(st) && Inv(env, st) && AllAdmitted(env, run, st) && Enabled(st, step)
    ensures AllAdmitted(env, run + [step], Next(env, st, step))
  {
    var st' := Next(env, st, step);
    forall r | r in st'.threads ensures ThreadAdmitted(env, run + [step], r, st'.threads[r]) {
      match step
      case Accept(s) =>
        if r != s {
          ThreadAdmittedStays(env, run, step, r, st.threads[r]);
        }
      case Receive(s, input) =>
        ThreadAdmittedStays(env, run, step, r, st.threads[r]);
        ReceivedShaped(env, st, s, input);
        InputEntersNobody(s, st.threads[s].local, input);
      case Run(s, ok) =>
        TodoAfter(env, st, s, ok, r);
        OthersAdmitted(env, run, st, s, ok, r);
    }
  }

  lemma {:induction false} AlwaysAdmitted(env: Env, run: seq<Step>)
    requires After(env, run).Some?
    ensures AllAdmitted(env, run, After(env, run).value)
  {
    if run != [] {
      var front, step := run[..|run| - 1], run[|run| - 1];
      AlwaysAdmitted(env, front);
      AlwaysInv(env, front);
      StepAdmits(env, front, After(env, front).value, step);
      FrontAndLast(run);
    }
  }

  /** In every reachable state, whoever is in the chat under a name has, earlier in the run, logged in
      or registered under that name on this very connection, and the database has agreed. */
  lemma ChattersWereAdmitted(env: Env, run: seq<Step>, st: State, s: Sock)
    requires After(env, run) == Some(st) && s in st.threads && st.threads[s].local.phase == Chatting
    ensures Admitted(env, run, s, st.threads[s].local.username)
  {
    AlwaysAdmitted(env, run);
  }

  // ----- The accounts of that moment -----

  /** The database is what some sequence of operations leaves. */
  ghost predicate Performed(h: Hash, db: Db) {
    exists ops :: Salted(ops) && db == PerformAll(h, ops)
  }

  lemma PerformedMore(h: Hash, db: Db, op: DbOp)
    requires Performed(h, db) && (op.Registering? ==> HexSalt(op.salt))
    ensures Performed(h, Perform(h, db, op))
  {
    var ops :| Salted(ops) && db == PerformAll(h, ops);
    var more := ops + [op];
    PrefixOfLonger(ops, op, |ops|);
    assert Salted(more) by {
      forall i | 0 <= i < |more| && more[i].Registering? ensures HexSalt(more[i].salt) {
      }
    }
    assert PerformAll(h, more) == Perform(h, db, op);
  }

  lemma BlockPerforms(env: Env, sh: Shared, s: Sock, local: Local, a: Action, ok: bool)
    requires Performed(env.hash, sh.db) && MayRun(env, sh, local, a)
    ensures Performed(env.hash, SharedAfter(env, sh, s, a, ok).db)
  {
    if a.TryRegister? && Succeeds(env, sh.db, a, ok) {
      PerformedMore(env.hash, sh.db, Registering(a.username, a.password, a.salt, a.now));
    } else if a.StoreMessage? && ok {
      PerformedMore(env.hash, sh.db, Adding(a.message));
    }
  }

  lemma {:induction false} AlwaysPerformed(env: Env, run: seq<Step>)
    requires After(env, run).Some?
    ensures Performed(env.hash, After(env, run).value.shared.db)
  {
    if run == [] {
      assert Salted([]) && PerformAll(env.hash, []) == EMPTY;
    } else {
      var front, step := run[..|run| - 1], run[|run| - 1];
      AlwaysPerformed(env, front);
      if step.Run? {
        var st := After(env, front).value;
        AlwaysInv(env, front);
        HeadMayRun(env, st, step.socket);
        BlockPerforms(env, st.shared, step.socket, st.threads[step.socket].local, st.threads[step.socket].todo[0], step.ok);
      }
    }
  }

  /** The password has, with the salt of the first registration of the name, the digest of that
      registration. */
  ghost predicate RightPassword(h: Hash, ops: seq<DbOp>, username: string, password: string) {
    exists i: nat :: FirstRegistration(ops, username, i) && h(ops[i].salt + password) == h(ops[i].salt + ops[i].password)
  }

  /** In every reachable state a login goes through exactly if the database call works and, for the
      operations that made the accounts, the password is right. */
  lemma LoginNeedsPassword(env: Env, run: seq<Step>, st: State, a: Action, ok: bool)
    requires HexValued(env.hash) && After(env, run) == Some(st) && a.TryLogin?
    ensures exists ops :: Salted(ops) && st.shared.db == PerformAll(env.hash, ops)
                          && (Succeeds(env, st.shared.db, a, ok) <==> ok && RightPassword(env.hash, ops, a.username, a.password))
  {
    AlwaysPerformed(env, run);
    var ops :| Salted(ops) && st.shared.db == PerformAll(env.hash, ops);
    AuthenticatesIff(env.hash, ops, a.username, a.password);
  }
}
