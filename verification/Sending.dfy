/** Whether a message that a thread is about to send arrives: whatever the other threads do until it
    waits again, and exactly if its frame is within the cap. */
module Sending {
  import opened Seqs
  import opened Messages
  import opened Registry
  import opened Server
  import opened Invariant
  import opened Reachable
  import opened Replays

  // ----- Outboxes only grow, and closed connections stay closed -----

  lemma OutboxGrows(env: Env, st: State, step: Step, r: Sock)
    requires Enabled(st, step) && r in st.threads
    ensures r in Next(env, st, step).threads && st.threads[r].outbox <= Next(env, st, step).threads[r].outbox
  {
    if step.Run? {
      var s := step.socket;
      DeliveredThread(st.threads[s := Advanced(env, st.shared, s, st.threads[s], step.ok)], Sent(s, st.threads[s].todo[0]), r);
    }
  }

  lemma ClosedStays(env: Env, st: State, step: Step, r: Sock)
    requires Inv(env, st) && Enabled(st, step) && r in st.threads && st.threads[r].local.phase == Closed
    ensures r in Next(env, st, step).threads && Next(env, st, step).threads[r].local.phase == Closed
  {
    assert ThreadOk(env, st.shared, st.threads[r]);
    if step.socket != r {
      OtherStep(env, st, step, r);
    }
  }

  /** Since its outbox was `base` long, `r` has been sent `m`, unless its connection is closed. */
  ghost predicate Got(st: State, r: Sock, m: Msg, base: nat) {
    && r in st.threads && base <= |st.threads[r].outbox|
    && (st.threads[r].local.phase == Closed || m in st.threads[r].outbox[base..])
  }

  lemma LongerKeeps<T>(s: seq<T>, t: seq<T>, base: nat, x: T)
    requires s <= t && base <= |s| && x in s[base..]
    ensures x in t[base..]
  {
    var i :| 0 <= i < |s[base..]| && s[base..][i] == x;
    assert t[base..][i] == s[base + i];
  }

  lemma GotStays(env: Env, st: State, step: Step, r: Sock, m: Msg, base: nat)
    requires Inv(env, st) && Enabled(st, step) && Got(st, r, m, base)
    ensures Got(Next(env, st, step), r, m, base)
  {
    OutboxGrows(env, st, step, r);
    if st.threads[r].local.phase == Closed {
      ClosedStays(env, st, step, r);
    } else {
      LongerKeeps(st.threads[r].outbox, Next(env, st, step).threads[r].outbox, base, m);
    }
  }

  // ----- A block that sends -----

  /** The block `a` is still to be run, and `post` behind it. */
  ghost predicate Ahead(todo: seq<Action>, a: Action, post: seq<Action>) {
    exists pre :: todo == pre + ([a] + post)
  }

  lemma AheadOfSome(todo: seq<Action>, a: Action, post: seq<Action>)
    requires Ahead(todo, a, post)
    ensures todo != []
    ensures todo[0] == a || forall next :: Ahead(next + todo[1..], a, post)
  {
    var pre :| todo == pre + ([a] + post);
    if pre != [] {
      forall next ensures Ahead(next + todo[1..], a, post) {
        assert todo[1..] == pre[1..] + ([a] + post);
        Associative(next, pre[1..], [a] + post);
      }
    }
  }

  lemma SendDelivers(env: Env, st: State, s: Sock, ok: bool, r: Sock, m: Msg)
    requires s in st.threads && st.threads[s].todo != [] && r in st.threads && Sent(s, st.threads[s].todo[0]) == Some((r, m))
    requires Sendable(m)
    ensures Got(RunBlock(env, st, s, ok), r, m, |st.threads[r].outbox|)
  {
    var threads := st.threads[s := Advanced(env, st.shared, s, st.threads[s], ok)];
    SendKeepsLocal(env, st.shared, st.threads[s].local, s, st.threads[s].todo[0], ok);
    DeliveredThread(threads, Sent(s, st.threads[s].todo[0]), r);
    var before, after := st.threads[r].outbox, RunBlock(env, st, s, ok).threads[r].outbox;
    if st.threads[r].local.phase != Closed {
      assert after == before + [m];
      assert after[|before|..] == [m];
    }
  }

  lemma GotSince(st: State, r: Sock, m: Msg, base: nat, base': nat)
    requires Got(st, r, m, base') && base <= base'
    ensures Got(st, r, m, base)
  {
    var outbox := st.threads[r].outbox;
    if m in outbox[base'..] {
      var i :| 0 <= i < |outbox[base'..]| && outbox[base'..][i] == m;
      assert outbox[base..][base' - base + i] == m;
    }
  }

  lemma AheadStep(env: Env, st: State, step: Step, s: Sock, a: Action, post: seq<Action>, r: Sock, m: Msg, base: nat)
    requires Enabled(st, step) && s in st.threads && Ahead(st.threads[s].todo, a, post)
    requires r in st.threads && base <= |st.threads[r].outbox| && Sent(s, a) == Some((r, m)) && Sendable(m)
    ensures var st' := Next(env, st, step);
            (s in st'.threads && Ahead(st'.threads[s].todo, a, post)) || Got(st', r, m, base)
  {
    var todo := st.threads[s].todo;
    AheadOfSome(todo, a, post);
    if step.socket != s {
      OtherStep(env, st, step, s);
    } else {
      assert step.Run?;
      TodoAfter(env, st, s, step.ok, s);
      if todo[0] == a {
        SendDelivers(env, st, s, step.ok, r, m);
        GotSince(Next(env, st, step), r, m, base, |st.threads[r].outbox|);
      }
    }
  }

  /** Sooner or later, the send has been made. */
  ghost predicate Underway(st: State, s: Sock, a: Action, post: seq<Action>, r: Sock, m: Msg, base: nat) {
    && s in st.threads && r in st.threads && base <= |st.threads[r].outbox|
    && (Ahead(st.threads[s].todo, a, post) || Got(st, r, m, base))
  }

  lemma UnderwayStep(env: Env, st: State, step: Step, s: Sock, a: Action, post: seq<Action>, r: Sock, m: Msg, base: nat)
    requires Inv(env, st) && Enabled(st, step) && Underway(st, s, a, post, r, m, base)
    requires Sent(s, a) == Some((r, m)) && Sendable(m)
    ensures Underway(Next(env, st, step), s, a, post, r, m, base)
  {
    OutboxGrows(env, st, step, s);
    OutboxGrows(env, st, step, r);
    if Got(st, r, m, base) {
      GotStays(env, st, step, r, m, base);
    } else {
      AheadStep(env, st, step, s, a, post, r, m, base);
    }
  }

  lemma {:induction false} StaysUnderway(env: Env, run: seq<Step>, more: seq<Step>,
                                         s: Sock, a: Action, post: seq<Action>, r: Sock, m: Msg, base: nat)
    requires After(env, run + more).Some? && Sent(s, a) == Some((r, m)) && Sendable(m)
    requires After(env, run).Some? ==> Underway(After(env, run).value, s, a, post, r, m, base)
    ensures Underway(After(env, run + more).value, s, a, post, r, m, base)
    decreases |more|
  {
    if more == [] {
      assert run + more == run;
    } else {
      var front, last := more[..|more| - 1], more[|more| - 1];
      FrontAndLast(more);
      Associative(run, front, [last]);
      AfterOneMore(env, run + front, last);
      StaysUnderway(env, run, front, s, a, post, r, m, base);
      AlwaysInv(env, run + front);
      UnderwayStep(env, After(env, run + front).value, last, s, a, post, r, m, base);
    }
  }

  lemma {:induction false} BeforeMore(env: Env, run: seq<Step>, more: seq<Step>, r: Sock)
    requires After(env, run + more).Some?
    ensures After(env, run).Some?
    ensures r in After(env, run).value.threads ==>
              && r in After(env, run + more).value.threads
              && After(env, run).value.threads[r].outbox <= After(env, run + more).value.threads[r].outbox
    decreases |more|
  {
    if more == [] {
      assert run + more == run;
    } else {
      var front, last := more[..|more| - 1], more[|more| - 1];
      FrontAndLast(more);
      Associative(run, front, [last]);
      AfterOneMore(env, run + front, last);
      BeforeMore(env, run, front, r);
      if r in After(env, run).value.threads {
        OutboxGrows(env, After(env, run + front).value, last, r);
      }
    }
  }

  /** Messages of an outbox were within the cap. */
  lemma ReceivedWereSendable(env: Env, run: seq<Step>, st: State, r: Sock, m: Msg)
    requires After(env, run) == Some(st) && r in st.threads && m in st.threads[r].outbox
    ensures Sendable(m)
  {
    AlwaysSendable(env, run);
  }

  /** `r` has been sent `m` since then, exactly if its frame is within the cap; unless the connection
      of `r` has been closed. */
  ghost predicate Reached(st: State, r: Sock, m: Msg, base: nat) {
    && r in st.threads && base <= |st.threads[r].outbox|
    && (st.threads[r].local.phase != Closed ==> (m in st.threads[r].outbox[base..] <==> Sendable(m)))
  }

  /** In every run, whatever the other threads do meanwhile: when a thread has nothing left to do, each
      send that it had ahead of it has been made, and has arrived exactly if its frame is within the
      cap and the connection it goes to is not closed. */
  lemma SendArrives(env: Env, run: seq<Step>, st: State, more: seq<Step>, st': State,
                    s: Sock, a: Action, post: seq<Action>, r: Sock, m: Msg)
    requires After(env, run) == Some(st) && After(env, run + more) == Some(st')
    requires s in st.threads && r in st.threads && Ahead(st.threads[s].todo, a, post) && Sent(s, a) == Some((r, m))
    requires s in st'.threads && st'.threads[s].todo == []
    ensures Reached(st', r, m, |st.threads[r].outbox|)
  {
    var base := |st.threads[r].outbox|;
    BeforeMore(env, run, more, r);
    if Sendable(m) {
      StaysUnderway(env, run, more, s, a, post, r, m, base);
      NothingAhead(st'.threads[s].todo, a, post);
    } else if m in st'.threads[r].outbox[base..] {
      ReceivedWereSendable(env, run + more, st', r, m);
    }
  }

  lemma NothingAhead(todo: seq<Action>, a: Action, post: seq<Action>)
    requires todo == []
    ensures !Ahead(todo, a, post)
  {
  }

  /** The next block of `s` sends nothing itself, and leaves the block `a` ahead, which sends `m` to `r`. */
  ghost predicate LeavesSend(env: Env, st: State, s: Sock, ok: bool, a: Action, post: seq<Action>, r: Sock, m: Msg) {
    && s in st.threads && st.threads[s].todo != [] && r in st.threads && Sent(s, a) == Some((r, m))
    && var st' := RunBlock(env, st, s, ok);
       && s in st'.threads && Ahead(st'.threads[s].todo, a, post)
       && r in st'.threads && st'.threads[r].outbox == st.threads[r].outbox
  }

  /** The same from the block that puts the send in front. */
  lemma ArrivesAfterBlock(env: Env, run: seq<Step>, st: State, s: Sock, ok: bool, more: seq<Step>, st': State,
                          a: Action, post: seq<Action>, r: Sock, m: Msg)
    requires After(env, run) == Some(st) && LeavesSend(env, st, s, ok, a, post, r, m)
    requires After(env, (run + [Run(s, ok)]) + more) == Some(st') && s in st'.threads && st'.threads[s].todo == []
    ensures r in st.threads && Reached(st', r, m, |st.threads[r].outbox|)
  {
    BeforeMore(env, run + [Run(s, ok)], more, r);
    AfterOneMore(env, run, Run(s, ok));
    SendArrives(env, run + [Run(s, ok)], RunBlock(env, st, s, ok), more, st', s, a, post, r, m);
  }
}
