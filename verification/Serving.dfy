/** What comes of the blocks that a thread has ahead, in every run and whatever the other threads do
    meanwhile: each is run, and its messages arrive. */
module Serving {
  import opened Seqs
  import opened Text
  import opened Messages
  import opened Registry
  import opened Store
  import opened Server
  import opened Invariant
  import opened Reachable
  import opened Sending
  import opened Delivery

  // ----- A block that is ahead is run -----

  /** After the first `k` steps of `more` the run is in state `mid`. */
  ghost predicate Between(env: Env, run: seq<Step>, more: seq<Step>, k: nat, mid: State) {
    k <= |more| && After(env, run + more[..k]) == Some(mid)
  }

  lemma PrefixRuns(env: Env, run: seq<Step>, more: seq<Step>, k: nat) returns (mid: State)
    requires After(env, run + more).Some? && k <= |more|
    ensures Between(env, run, more, k, mid)
  {
    assert run + more == (run + more[..k]) + more[k..];
    BeforeMore(env, run + more[..k], more[k..], 0);
    mid := After(env, run + more[..k]).value;
  }

  /** Thread `s` has this block next, and `post` behind it. */
  ghost predicate Facing(st: State, s: Sock, a: Action, post: seq<Action>) {
    s in st.threads && st.threads[s].todo == [a] + post
  }

  /** The block is run in state `mid`, with this outcome of its database call, and the run goes on. */
  ghost predicate RunIn(env: Env, run: seq<Step>, more: seq<Step>, s: Sock, a: Action, post: seq<Action>, k: nat, mid: State, ok: bool) {
    && k < |more| && Between(env, run, more, k, mid) && Facing(mid, s, a, post)
    && more[k] == Run(s, ok)
  }

  /** Blocks that send, and do nothing else. */
  predicate Sends(a: Action) {
    a.Reply? || a.SendTo? || a.Replay? || a.Broadcast?
  }

  ghost predicate AllSend(todo: seq<Action>) {
    forall i | 0 <= i < |todo| :: Sends(todo[i])
  }

  lemma SendsOnly(env: Env, sh: Shared, s: Sock, local: Local, a: Action, ok: bool)
    requires Sends(a)
    ensures AllSend(NextBlocks(env, sh, s, a, ok)) && LocalAfter(env, sh, local, a, ok) == local
  {
  }

  lemma SenderKeepsLocal(env: Env, st: State, s: Sock, ok: bool)
    requires s in st.threads && st.threads[s].todo != [] && Sends(st.threads[s].todo[0])
    ensures s in RunBlock(env, st, s, ok).threads && RunBlock(env, st, s, ok).threads[s].local == st.threads[s].local
  {
    var t := st.threads[s];
    SendsOnly(env, st.shared, s, t.local, t.todo[0], ok);
    DeliveredThread(st.threads[s := Advanced(env, st.shared, s, t, ok)], Sent(s, t.todo[0]), s);
  }

  lemma TodoShrinks(env: Env, st: State, step: Step, s: Sock, pre: seq<Action>, rest: seq<Action>) returns (pre': seq<Action>)
    requires Enabled(st, step) && s in st.threads && st.threads[s].todo == pre + rest && rest != []
    requires step.Run? && step.socket == s ==> pre != []
    ensures s in Next(env, st, step).threads && Next(env, st, step).threads[s].todo == pre' + rest
    ensures AllSend(pre) ==> AllSend(pre') && Next(env, st, step).threads[s].local == st.threads[s].local
  {
    if step.socket != s {
      OtherStep(env, st, step, s);
      pre' := pre;
    } else {
      assert step.Run?;
      var next := NextBlocks(env, st.shared, s, pre[0], step.ok);
      TodoAfter(env, st, s, step.ok, s);
      assert st.threads[s].todo[0] == pre[0] && st.threads[s].todo[1..] == pre[1..] + rest;
      Associative(next, pre[1..], rest);
      pre' := next + pre[1..];
      if AllSend(pre) {
        SendsOnly(env, st.shared, s, st.threads[s].local, pre[0], step.ok);
        SenderKeepsLocal(env, st, s, step.ok);
      }
    }
  }

  lemma CutLater(run: seq<Step>, more: seq<Step>, k: nat)
    requires more != [] && k < |more|
    ensures (run + [more[0]]) + more[1..][..k] == run + more[..k + 1]
  {
  }

  lemma RunInLater(env: Env, run: seq<Step>, more: seq<Step>, s: Sock, a: Action, post: seq<Action>, k: nat, mid: State, ok: bool)
    requires more != [] && RunIn(env, run + [more[0]], more[1..], s, a, post, k, mid, ok)
    ensures RunIn(env, run, more, s, a, post, k + 1, mid, ok)
  {
    CutLater(run, more, k);
    assert more[1..][k] == more[k + 1];
  }

  lemma MoreIsNeeded(env: Env, run: seq<Step>, st: State, more: seq<Step>, st': State, s: Sock)
    requires After(env, run) == Some(st) && After(env, run + more) == Some(st')
    requires s in st.threads && st.threads[s].todo != [] && s in st'.threads && st'.threads[s].todo == []
    ensures more != []
  {
    assert more == [] ==> run + more == run;
  }

  /** Whatever stands before it, a block that a thread has ahead is run before the thread waits again. */
  lemma {:induction false} BlockIsRun(env: Env, run: seq<Step>, st: State, more: seq<Step>, st': State,
                                      s: Sock, pre: seq<Action>, a: Action, post: seq<Action>)
    returns (k: nat, mid: State, ok: bool)
    requires After(env, run) == Some(st) && After(env, run + more) == Some(st')
    requires s in st.threads && st.threads[s].todo == pre + ([a] + post) && s in st'.threads && st'.threads[s].todo == []
    ensures RunIn(env, run, more, s, a, post, k, mid, ok)
    ensures AllSend(pre) ==> mid.threads[s].local == st.threads[s].local
    decreases |more|
  {
    MoreIsNeeded(env, run, st, more, st', s);
    if more != [] {
      var step := more[0];
      assert run + more == (run + [step]) + more[1..];
      BeforeMore(env, run + [step], more[1..], s);
      AfterOneMore(env, run, step);
      if pre == [] && step.Run? && step.socket == s {
        assert pre + ([a] + post) == [a] + post;
        assert run + more[..0] == run;
        k, mid, ok := 0, st, step.ok;
      } else {
        var pre' := TodoShrinks(env, st, step, s, pre, [a] + post);
        k, mid, ok := BlockIsRun(env, run + [step], Next(env, st, step), more[1..], st', s, pre', a, post);
        RunInLater(env, run, more, s, a, post, k, mid, ok);
        k := k + 1;
      }
    }
  }

  lemma CutAt(run: seq<Step>, more: seq<Step>, k: nat)
    requires k < |more|
    ensures run + more[..k + 1] == (run + more[..k]) + [more[k]]
    ensures ((run + more[..k]) + [more[k]]) + more[k + 1..] == run + more
  {
    assert more == more[..k] + [more[k]] + more[k + 1..];
  }

  /** What lies behind the step that runs a block. */
  lemma RunGoesOn(env: Env, run: seq<Step>, more: seq<Step>, s: Sock, a: Action, post: seq<Action>, k: nat, mid: State, ok: bool)
    requires RunIn(env, run, more, s, a, post, k, mid, ok) && After(env, run + more).Some?
    ensures After(env, run + more[..k]) == Some(mid) && s in mid.threads && mid.threads[s].todo != [] && mid.threads[s].todo[0] == a
    ensures ((run + more[..k]) + [Run(s, ok)]) + more[k + 1..] == run + more
    ensures After(env, (run + more[..k]) + [Run(s, ok)]) == Some(RunBlock(env, mid, s, ok))
  {
    CutAt(run, more, k);
    var later := PrefixRuns(env, run, more, k + 1);
    AfterOneMore(env, run + more[..k], Run(s, ok));
  }

  lemma ReachedSince(env: Env, run: seq<Step>, st: State, r: Sock, m: Msg, base: nat, base': nat)
    requires After(env, run) == Some(st) && Reached(st, r, m, base') && base <= base'
    ensures Reached(st, r, m, base)
  {
    var outbox := st.threads[r].outbox;
    if Sendable(m) {
      if m in outbox[base'..] {
        var i :| 0 <= i < |outbox[base'..]| && outbox[base'..][i] == m;
        assert outbox[base..][base' - base + i] == m;
      }
    } else if m in outbox[base..] {
      ReceivedWereSendable(env, run, st, r, m);
    }
  }

  // ----- What comes of single blocks -----

  /** The thread has these blocks to run, and after `more` it waits again. */
  ghost predicate Works(env: Env, run: seq<Step>, st: State, more: seq<Step>, st': State, s: Sock, todo: seq<Action>) {
    && After(env, run) == Some(st) && After(env, run + more) == Some(st')
    && s in st.threads && st.threads[s].todo == todo && s in st'.threads && st'.threads[s].todo == []
  }

  lemma ReplyReaches(env: Env, run: seq<Step>, st: State, more: seq<Step>, st': State, s: Sock,
                     pre: seq<Action>, m: Msg, post: seq<Action>)
    requires Works(env, run, st, more, st', s, pre + ([Reply(m)] + post))
    ensures Reached(st', s, m, |st.threads[s].outbox|)
  {
    SendArrives(env, run, st, more, st', s, Reply(m), post, s, m);
  }

  lemma AnswerReaches(env: Env, run: seq<Step>, st: State, more: seq<Step>, st': State, s: Sock,
                      a: Action, post: seq<Action>, k: nat, mid: State, ok: bool, m: Msg)
    requires After(env, run) == Some(st) && s in st.threads && After(env, run + more) == Some(st')
    requires s in st'.threads && st'.threads[s].todo == [] && RunIn(env, run, more, s, a, post, k, mid, ok)
    requires Sent(s, a).None? && NextBlocks(env, mid.shared, s, a, ok) == [Reply(m)]
    ensures Reached(st', s, m, |st.threads[s].outbox|)
  {
    RunGoesOn(env, run, more, s, a, post, k, mid, ok);
    AnswerArrives(env, run + more[..k], mid, s, ok, more[k + 1..], st', m);
    BeforeMore(env, run, more[..k], s);
    ReachedSince(env, run + more, st', s, m, |st.threads[s].outbox|, |mid.threads[s].outbox|);
  }

  /** Every member of the room in state `mid`, but not the one excluded, has been sent the message since
      then, exactly if its frame is within the cap; unless the connection is closed. */
  ghost predicate AllTold(mid: State, st': State, room: string, exclude: Option<Sock>, m: Msg) {
    forall r | Member(mid.shared.clients, room, r) && Some(r) != exclude ::
      r in mid.threads && Reached(st', r, m, |mid.threads[r].outbox|)
  }

  /** The thread has taken the snapshot of this broadcast, and all in it have been told. */
  ghost predicate Told(env: Env, run: seq<Step>, more: seq<Step>, st': State, s: Sock, a: Action)
    requires a.Broadcast? || a.Air?
  {
    exists post, k, mid, ok ::
      RunIn(env, run, more, s, a, post, k, mid, ok) && AllTold(mid, st', Audience(a), a.exclude, Addressed(a, env))
  }

  lemma SnapshotTold(env: Env, run: seq<Step>, more: seq<Step>, st': State, s: Sock,
                     a: Action, post: seq<Action>, k: nat, mid: State, ok: bool)
    requires After(env, run + more) == Some(st') && s in st'.threads && st'.threads[s].todo == []
    requires RunIn(env, run, more, s, a, post, k, mid, ok) && (a.Broadcast? || a.Air?)
    ensures AllTold(mid, st', Audience(a), a.exclude, Addressed(a, env))
  {
    RunGoesOn(env, run, more, s, a, post, k, mid, ok);
    forall r | Member(mid.shared.clients, Audience(a), r) && Some(r) != a.exclude
      ensures r in mid.threads && Reached(st', r, Addressed(a, env), |mid.threads[r].outbox|)
    {
      BroadcastArrives(env, run + more[..k], mid, s, ok, more[k + 1..], st', r);
    }
  }

  lemma BroadcastTold(env: Env, run: seq<Step>, st: State, more: seq<Step>, st': State, s: Sock,
                      pre: seq<Action>, a: Action, post: seq<Action>)
    requires Works(env, run, st, more, st', s, pre + ([a] + post)) && (a.Broadcast? || a.Air?)
    ensures Told(env, run, more, st', s, a)
  {
    var k, mid, ok := BlockIsRun(env, run, st, more, st', s, pre, a, post);
    SnapshotTold(env, run, more, st', s, a, post, k, mid, ok);
  }

  // ----- The database only grows -----

  lemma StepGrows(env: Env, st: State, step: Step)
    requires Enabled(st, step)
    ensures Grows(st.shared, Next(env, st, step).shared)
  {
    match step
    case Accept(_) =>
    case Receive(s, input) => RecordingGrows(st.shared, st.threads[s].local, input);
    case Run(s, ok) => BlockGrows(env, st.shared, s, st.threads[s].todo[0], ok);
  }

  lemma {:induction false} RunGrows(env: Env, run: seq<Step>, st: State, more: seq<Step>, st': State)
    requires After(env, run) == Some(st) && After(env, run + more) == Some(st')
    ensures Grows(st.shared, st'.shared)
    decreases |more|
  {
    if more == [] {
      assert run + more == run;
    } else {
      var front, last := more[..|more| - 1], more[|more| - 1];
      FrontAndLast(more);
      Associative(run, front, [last]);
      AfterOneMore(env, run + front, last);
      RunGrows(env, run, st, front, After(env, run + front).value);
      StepGrows(env, After(env, run + front).value, last);
    }
  }

  lemma KeptGrows(sh: Shared, sh': Shared, m: ChatMessage)
    requires Grows(sh, sh') && Kept(sh.db, m)
    ensures Kept(sh'.db, m)
  {
    var r :| r in sh.db.messages && r.message == m;
    assert r in sh'.db.messages;
  }

  /** The message is kept, or the thread's client has been told that it could not be. */
  ghost predicate KeptOrTold(st': State, s: Sock, m: ChatMessage, failure: string, base: nat) {
    || Kept(st'.shared.db, ChatMessage(CStr(m.room), CStr(m.username), CStr(m.content), m.timestamp))
    || Reached(st', s, Note(failure), base)
  }

  lemma StoredNow(env: Env, st: State, s: Sock, m: ChatMessage, failure: string)
    requires s in st.threads && st.threads[s].todo != [] && st.threads[s].todo[0] == StoreMessage(m, failure)
    ensures Kept(RunBlock(env, st, s, true).shared.db, Stored(m))
  {
    var row := MessageRow(|st.shared.db.messages| + 1, Stored(m));
    assert RunBlock(env, st, s, true).shared.db.messages == st.shared.db.messages + [row];
    assert row in RunBlock(env, st, s, true).shared.db.messages;
  }

  lemma StoreReaches(env: Env, run: seq<Step>, st: State, more: seq<Step>, st': State, s: Sock,
                     pre: seq<Action>, m: ChatMessage, failure: string, post: seq<Action>)
    requires Works(env, run, st, more, st', s, pre + ([StoreMessage(m, failure)] + post))
    ensures KeptOrTold(st', s, m, failure, |st.threads[s].outbox|)
  {
    var a := StoreMessage(m, failure);
    var k, mid, ok := BlockIsRun(env, run, st, more, st', s, pre, a, post);
    if ok {
      RunGoesOn(env, run, more, s, a, post, k, mid, ok);
      StoredNow(env, mid, s, m, failure);
      RunGrows(env, (run + more[..k]) + [Run(s, ok)], RunBlock(env, mid, s, ok), more[k + 1..], st');
      KeptGrows(RunBlock(env, mid, s, ok).shared, st'.shared, Stored(m));
    } else {
      AnswerReaches(env, run, st, more, st', s, a, post, k, mid, ok, Note(failure));
    }
  }

  // ----- Until the next read -----

  /** The thread reads nothing in these steps. */
  ghost predicate NoReads(more: seq<Step>, s: Sock) {
    forall i | 0 <= i < |more| :: more[i].Receive? ==> more[i].socket != s
  }

  lemma StepStaysPut(env: Env, st: State, step: Step, s: Sock)
    requires Enabled(st, step) && s in st.threads && AllSend(st.threads[s].todo) && (step.Receive? ==> step.socket != s)
    ensures s in Next(env, st, step).threads && AllSend(Next(env, st, step).threads[s].todo)
    ensures Next(env, st, step).threads[s].local == st.threads[s].local
  {
    if step.socket != s {
      OtherStep(env, st, step, s);
    } else {
      assert step.Run?;
      TodoAfter(env, st, s, step.ok, s);
      SendsOnly(env, st.shared, s, st.threads[s].local, st.threads[s].todo[0], step.ok);
      SenderKeepsLocal(env, st, s, step.ok);
    }
  }

  /** A thread that only sends keeps its name and its room. */
  lemma {:induction false} StaysPut(env: Env, run: seq<Step>, st: State, more: seq<Step>, st': State, s: Sock)
    requires After(env, run) == Some(st) && After(env, run + more) == Some(st')
    requires s in st.threads && AllSend(st.threads[s].todo) && NoReads(more, s)
    ensures s in st'.threads && AllSend(st'.threads[s].todo) && st'.threads[s].local == st.threads[s].local
    decreases |more|
  {
    if more == [] {
      assert run + more == run;
    } else {
      var front, last := more[..|more| - 1], more[|more| - 1];
      FrontAndLast(more);
      Associative(run, front, [last]);
      AfterOneMore(env, run + front, last);
      StaysPut(env, run, st, front, After(env, run + front).value, s);
      StepStaysPut(env, After(env, run + front).value, last, s);
    }
  }

  /** A closed connection is closed for good. */
  lemma {:induction false} ClosedForGood(env: Env, run: seq<Step>, st: State, more: seq<Step>, st': State, s: Sock)
    requires After(env, run) == Some(st) && After(env, run + more) == Some(st')
    requires s in st.threads && st.threads[s].local.phase == Closed
    ensures s in st'.threads && st'.threads[s].local.phase == Closed
    decreases |more|
  {
    if more == [] {
      assert run + more == run;
    } else {
      var front, last := more[..|more| - 1], more[|more| - 1];
      FrontAndLast(more);
      Associative(run, front, [last]);
      AfterOneMore(env, run + front, last);
      ClosedForGood(env, run, st, front, After(env, run + front).value, s);
      AlwaysInv(env, run + front);
      ClosedStays(env, After(env, run + front).value, last, s);
    }
  }
}
