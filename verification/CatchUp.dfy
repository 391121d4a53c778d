/** `wait_caught_up` of dbguard/manager/failover.py: the polling loop a failover and a switchover
    share, over the statuses it reads. */
module CatchUp {
  import opened Intervals
  import opened GtidSets
  import opened Selection

  /** One poll: the status, and what the SQL thread's state says if it is asked. */
  datatype PollRead = PollRead(nv: NodeView, sqlDone: bool)

  datatype Answer = CaughtUp | Broken | KeepWaiting

  function Applied(nv: NodeView): Trxs { nv.executed + nv.replica.executed }

  predicate Includes(target: Option<Trxs>, s: Trxs) { target.Some? ==> target.value <= s }

  function Judge(r: PollRead, target: Option<Trxs>): Answer {
    var nv := r.nv;
    if !nv.Usable() then KeepWaiting
    else if nv.replica.lastSqlError then Broken
    else if !Includes(target, Applied(nv) + nv.replica.retrieved) then KeepWaiting
    else if nv.RelayApplied() then CaughtUp
    else if nv.replica.ioRunning != Yes && r.sqlDone && Includes(target, Applied(nv)) then CaughtUp
    else KeepWaiting
  }

  /** Poll `i` is the first that ends the wait, with answer `a`. */
  predicate EndsAt(polls: seq<PollRead>, target: Option<Trxs>, i: int, a: Answer) {
    0 <= i < |polls| && a != KeepWaiting && Judge(polls[i], target) == a &&
    forall j :: 0 <= j < i ==> Judge(polls[j], target) == KeepWaiting
  }

  /** On either exit that says yes, the node has applied all of the target, and what its relay log
      still holds unapplied is reported and outside the target. */
  lemma CaughtUpHoldsTarget(r: PollRead, target: Option<Trxs>)
    requires Judge(r, target) == CaughtUp
    ensures Includes(target, Applied(r.nv))
    ensures target.Some? ==> target.value !! (r.nv.replica.retrieved - Applied(r.nv))
    ensures target.None? && r.nv.replica.retrieved - Applied(r.nv) != {} ==>
      r.nv.replica.ioRunning != Yes && r.sqlDone
  {
    if r.nv.RelayApplied() {
      assert Applied(r.nv) + r.nv.replica.retrieved == Applied(r.nv);
    }
  }

  /** What a status means for the wait: one that is not usable ends nothing, an SQL error ends it in a halt,
      and the wait is over exactly when the target is applied and either all of the relay log is, or the IO
      thread does not run and the SQL thread says it has read all of it. */
  lemma JudgeMeans(r: PollRead, target: Option<Trxs>)
    ensures !(r.nv.reachable && r.nv.responsive) ==> Judge(r, target) == KeepWaiting
    ensures Judge(r, target) == Broken <==> r.nv.reachable && r.nv.responsive && r.nv.replica.lastSqlError
    ensures Judge(r, target) == CaughtUp <==>
      var applied := r.nv.executed + r.nv.replica.executed;
      r.nv.reachable && r.nv.responsive && !r.nv.replica.lastSqlError &&
      (target.Some? ==> target.value <= applied) &&
      (r.nv.replica.retrieved <= applied || (r.nv.replica.ioRunning != Yes && r.sqlDone))
  {
    if target.Some? && target.value <= Applied(r.nv) {
      assert target.value <= Applied(r.nv) + r.nv.replica.retrieved;
    }
    if r.nv.RelayApplied() {
      assert Applied(r.nv) + r.nv.replica.retrieved == Applied(r.nv);
    }
  }

  /** `polls` are the statuses read before the deadline. */
  method WaitCaughtUp(polls: seq<PollRead>, target: Option<Trxs>) returns (ok: bool, unapplied: Trxs)
    ensures ok <==> exists i :: EndsAt(polls, target, i, CaughtUp)
    ensures ok ==> exists i ::
      (EndsAt(polls, target, i, CaughtUp) &&
       unapplied == polls[i].nv.replica.retrieved - Applied(polls[i].nv) &&
       Includes(target, Applied(polls[i].nv)) && (target.Some? ==> target.value !! unapplied))
  {
    unapplied := {};
    var i := 0;
    while i < |polls|
      invariant 0 <= i <= |polls|
      invariant forall j :: 0 <= j < i ==> Judge(polls[j], target) == KeepWaiting
    {
      var nv := polls[i].nv;
      if nv.Usable() {
        var applied := nv.executed + nv.replica.executed;
        if nv.replica.lastSqlError {
          assert EndsAt(polls, target, i, Broken);
          return false, {};
        }
        if Includes(target, applied + nv.replica.retrieved) {
          if nv.RelayApplied() {
            CaughtUpHoldsTarget(polls[i], target);
            assert EndsAt(polls, target, i, CaughtUp);
            return true, nv.replica.retrieved - applied;
          }
          var pending := nv.replica.retrieved - applied;
          if nv.replica.ioRunning != Yes && polls[i].sqlDone && Includes(target, applied) {
            CaughtUpHoldsTarget(polls[i], target);
            assert EndsAt(polls, target, i, CaughtUp);
            return true, pending;
          }
        }
      }
      i := i + 1;
    }
    return false, {};
  }

  // ----- `_catch_up_to_final` of dbguard/manager/switchover.py

  /** What the pre-opened waiter did: it returned, with the set read right after if that worked, or
      it broke, or there was none. */
  datatype Waiter = Absent | Broke | Waited(done: bool, got: Option<Trxs>)

  /** A waiter that reports success has seen the target applied. */
  predicate Honest(w: Waiter, final: Option<Trxs>) {
    w.Waited? && w.done && w.got.Some? && final.Some? ==> final.value <= w.got.value
  }

  /** The candidate is accepted exactly when it applied the final set and, where the errant check is
      answered, nothing else; so a set read in that check is the final set itself. */
  method CatchUpToFinal(final: Option<Trxs>, waiter: Waiter, polls: seq<PollRead>, again: NodeView) returns (ok: bool)
    requires Honest(waiter, final)
    ensures waiter.Waited? && final.Some? ==>
      (ok <==> waiter.done && (waiter.got.Some? ==> waiter.got.value == final.value))
    ensures !(waiter.Waited? && final.Some?) ==>
      (ok <==> (exists i :: EndsAt(polls, final, i, CaughtUp)) &&
               (final.Some? && again.Usable() ==> again.Have() <= final.value))
    ensures ok && !waiter.Waited? && final.Some? ==>
      exists i :: EndsAt(polls, final, i, CaughtUp) && final.value <= Applied(polls[i].nv)
  {
    if waiter.Waited? && final.Some? {
      ok := waiter.done;
      if ok && waiter.got.Some? {
        EmptyDifference(waiter.got.value, final.value);
        if waiter.got.value - final.value != {} {
          ok := false;
        }
      }
      return;
    }
    var caught, _ := WaitCaughtUp(polls, final);
    ok := caught;
    if ok && final.Some? && again.Usable() {
      EmptyDifference(again.Have(), final.value);
      if again.Have() - final.value != {} {
        ok := false;
      }
    }
  }
}
