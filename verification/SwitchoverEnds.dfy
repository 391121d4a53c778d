/** Where a switchover ends (dbguard/manager/switchover.py): which node its outcome leaves writable, and the
    run in which every call goes through. */
module SwitchoverEnds {
  import opened Intervals
  import opened GtidSets
  import opened Selection
  import opened Fleet
  import opened Switchover
  import CatchUp

  /** The calls that make a node writable, and what their answers leave. */
  lemma PromoteEnds(p: Plan, s: Sys, took: bool, ok: bool)
    requires Enabled(p, s, Promote(took, ok))
    ensures var t := Do(p, s, Promote(took, ok));
      (ok ==> t.d.phase == Switched && t.d.writer == p.to && Leads(t.f, p.to)) &&
      (!ok ==> t.d.phase == Halted) && (!took ==> t.f == s.f)
  {
  }

  lemma PromoteBackEnds(p: Plan, s: Sys, took: bool, ok: bool)
    requires Enabled(p, s, PromoteBack(took, ok))
    ensures var t := Do(p, s, PromoteBack(took, ok));
      (ok ==> t.d.phase == Restored && t.d.writer == s.d.writer && Leads(t.f, p.former)) &&
      (!ok ==> t.d.phase == Halted) && (!took ==> t.f == s.f)
  {
  }

  /** The old primary ends up replicating from the new one. */
  lemma FormerTrails(p: Plan, s: Sys)
    requires Enabled(p, s, RepointFormer(true))
    ensures Trails(Do(p, s, RepointFormer(true)).f, p.former, p.to)
  {
  }

  lemma MovedTrails(p: Plan, s: Sys, n: Name)
    requires Enabled(p, s, MoveReplica(n, true))
    ensures Trails(Do(p, s, MoveReplica(n, true)).f, n, p.to)
  {
  }

  // ----- what each call leads to

  /** The stall begins; a fence that did not answer ends the switchover with nothing changed, one that did
      starts the wait, for the set it read if the answer carried it. */
  lemma FenceLeads(p: Plan, s: Sys, answered: bool, withSet: bool)
    requires Enabled(p, s, FenceReturns(answered, withSet))
    ensures var t := Do(p, s, FenceReturns(answered, withSet));
      t.f == s.f && t.d.writer == s.d.writer && t.d.waiterOpen == s.d.waiterOpen &&
      if !answered then t.d.phase == Aborted
      else t.d.phase == Waiting && t.d.applied.None? && (withSet ==> t.d.final.Some? && t.d.final == s.d.captured) &&
           (!withSet ==> t.d.final.None?)
  {
  }

  lemma StallBegins(p: Plan, s: Sys, waiterOpen: bool, killed: bool)
    requires Enabled(p, s, BeginStall(waiterOpen))
    ensures var t := Do(p, s, BeginStall(waiterOpen));
      t.f == s.f && t.d == s.d.(phase := Quiescing, waiterOpen := waiterOpen) &&
      Enabled(p, t, FenceLands(killed)) &&
      var u := Do(p, t, FenceLands(killed));
      u.d == t.d.(captured := Some(s.f.nodes[p.former].executed)) &&
      u.f.nodes[p.former].superReadOnly && u.f.nodes[p.former].fenced && u.f.nodes[p.former].up &&
      (killed ==> u.f.nodes[p.former].waiting == {})
  {
  }

  /** The waiter: done and nothing more than the set read back leads on, done with more or late leads back,
      broken leads to polling. */
  lemma WaiterLeads(p: Plan, s: Sys, readBack: bool)
    requires Enabled(p, s, WaiterTimesOut)
    ensures Do(p, s, WaiterTimesOut) == Sys(s.f, s.d.(phase := GoingBack))
    ensures Enabled(p, s, WaiterBreaks) && Polling(Do(p, s, WaiterBreaks).d) &&
            Do(p, s, WaiterBreaks) == Sys(s.f, s.d.(waiterOpen := false))
    ensures Enabled(p, s, WaiterHolds(readBack)) <==>
      s.f.nodes[p.to].up && s.d.final.value <= s.f.nodes[p.to].executed
    ensures Enabled(p, s, WaiterHolds(readBack)) ==>
      var t := Do(p, s, WaiterHolds(readBack));
      t.f == s.f &&
      (t.d.phase == GoingBack <==> readBack && s.f.nodes[p.to].executed != s.d.final.value) &&
      (t.d.phase != GoingBack ==> t.d == s.d.(phase := Phase.Ready, checked := readBack))
  {
    if Enabled(p, s, WaiterHolds(readBack)) {
      EmptyDifference(s.f.nodes[p.to].executed, s.d.final.value);
    }
  }

  /** A poll does what the polling loop does with the status, and asks for the state of the SQL thread exactly
      when the answer could end the wait; the last poll in time gives up. */
  lemma PollLeads(p: Plan, s: Sys)
    requires Enabled(p, s, Poll)
    ensures var r, t := CatchUp.PollRead(ViewOf(s.f, p.to), false), Do(p, s, Poll);
      t.f == s.f &&
      t.d.phase == (match CatchUp.Judge(r, s.d.final)
                    case Broken => GoingBack
                    case CaughtUp => if s.d.final.Some? then Rereading else Phase.Ready
                    case KeepWaiting => Waiting) &&
      (t.d.phase == Waiting ==>
         (t.d.applied.Some? && CatchUp.Includes(s.d.final, t.d.applied.value) <==>
            CatchUp.Judge(r.(sqlDone := true), s.d.final) == CatchUp.CaughtUp))
    ensures Do(p, s, GiveUp) == Sys(s.f, s.d.(phase := GoingBack))
  {
    var nv := ViewOf(s.f, p.to);
    CatchUp.JudgeMeans(CatchUp.PollRead(nv, true), s.d.final);
    CatchUp.JudgeMeans(CatchUp.PollRead(nv, false), s.d.final);
    if s.d.final.Some? && s.d.final.value <= CatchUp.Applied(nv) {
      assert s.d.final.value <= CatchUp.Applied(nv) + nv.replica.retrieved;
    }
  }

  /** The yes of the SQL thread, and the errant check after a poll. */
  lemma AnswersLead(p: Plan, s: Sys, answered: bool)
    ensures Enabled(p, s, ReadSqlState) ==>
      Do(p, s, ReadSqlState) == Sys(s.f, s.d.(phase := if s.d.final.Some? then Rereading else Phase.Ready))
    ensures Enabled(p, s, Reread(answered)) ==>
      var t := Do(p, s, Reread(answered));
      t.f == s.f &&
      (t.d.phase == GoingBack <==> answered && s.d.final.Some? && !(ViewOf(s.f, p.to).Have() <= s.d.final.value)) &&
      (t.d.phase != GoingBack ==> t.d == s.d.(phase := Phase.Ready, checked := answered))
  {
    if s.d.final.Some? && p.to in s.f.nodes {
      EmptyDifference(ViewOf(s.f, p.to).Have(), s.d.final.value);
    }
  }

  // ----- every outcome has its cause

  predicate Promotes(a: Action) { a.Promote? || a.PromoteBack? }

  predicate Final(phase: Phase) { phase == Switched || phase == Restored || phase == Aborted || phase == Halted }

  /** The step that brings the run to this outcome. */
  predicate Brings(a: Action, phase: Phase) {
    match phase
    case Switched => a.Promote? && a.ok
    case Restored => a.PromoteBack? && a.ok
    case Aborted => a.FenceReturns? && !a.answered
    case Halted => (a.Promote? && !a.ok) || (a.PromoteBack? && !a.ok)
    case _ => false
  }

  lemma OutcomeStep(p: Plan, s: Sys, a: Action)
    requires Enabled(p, s, a)
    ensures Final(s.d.phase) ==> Do(p, s, a).d.phase == s.d.phase && !Promotes(a)
    ensures !Final(s.d.phase) && Final(Do(p, s, a).d.phase) ==> Brings(a, Do(p, s, a).d.phase)
    ensures !Final(s.d.phase) && Promotes(a) ==> Final(Do(p, s, a).d.phase)
  {
    if a.Poll? {
      PolledPhase(p, s);
    }
    hide Polled, Put, EnvDo, ViewOf;
  }

  function Promotions(acts: seq<Action>): nat {
    if acts == [] then 0 else (if Promotes(acts[0]) then 1 else 0) + Promotions(acts[1..])
  }

  /** A run promotes at most once, the candidate or the old primary back but never both; it is switched only
      if the promote of the candidate was confirmed, restored only if the promote back was, aborted only if
      the fence did not answer, and halted only if its one promote was not confirmed. */
  lemma {:induction false} OneOutcome(p: Plan, s: Sys, acts: seq<Action>)
    requires Run(p, s, acts)
    ensures var t := After(p, s, acts);
      Promotions(acts) <= (if Final(s.d.phase) then 0 else 1) &&
      (Final(s.d.phase) ==> t.d.phase == s.d.phase) &&
      (!Final(s.d.phase) ==>
         (Promotions(acts) == 1 <==> t.d.phase == Switched || t.d.phase == Restored || t.d.phase == Halted) &&
         (Final(t.d.phase) ==> exists a :: a in acts && Brings(a, t.d.phase)))
    decreases |acts|
  {
    hide Enabled, Do, Promotes, Brings;
    if acts != [] {
      var a, u := acts[0], Do(p, s, acts[0]);
      OutcomeStep(p, s, a);
      OneOutcome(p, u, acts[1..]);
      assert a in acts && forall b :: b in acts[1..] ==> b in acts;
      BringsOne(a, u.d.phase);
    }
  }

  lemma BringsOne(a: Action, phase: Phase)
    ensures Brings(a, phase) ==> (Promotes(a) <==> phase != Aborted) && Final(phase)
  {
  }

  // ----- the run in which everything goes through

  /** The candidate replicates from the old primary, lacks nothing of its relay log and holds nothing of its
      own; both are up and can talk. */
  predicate Smooth(p: Plan, f: Fleet) {
    Present(p, f) && f.nodes[p.former].up && IoOk(f, p.to) && f.nodes[p.to].source == Some(p.former) &&
    !f.nodes[p.to].sqlError && f.nodes[p.to].torn == {} && f.nodes[p.to].retrieved <= f.nodes[p.to].executed &&
    f.nodes[p.to].executed <= f.nodes[p.former].executed
  }

  ghost predicate Reaches(p: Plan, s: Sys, acts: seq<Action>, t: Sys) {
    Run(p, s, acts) && After(p, s, acts) == t
  }

  lemma ReachesFirst(p: Plan, s: Sys, a: Action, acts: seq<Action>, t: Sys)
    requires Enabled(p, s, a) && Reaches(p, Do(p, s, a), acts, t)
    ensures Reaches(p, s, [a] + acts, t)
  {
    assert ([a] + acts)[1..] == acts;
  }

  /** The fence has answered with the set `all`, and the candidate replicates from the fenced primary. */
  predicate Answered(p: Plan, s: Sys, all: Trxs) {
    Smooth(p, s.f) && s.f.nodes[p.former].executed == all &&
    s.d == Desk(Waiting, Some(all), Some(all), false, None, false, p.former)
  }

  /** The candidate holds exactly the set and is ready. */
  predicate Caught(p: Plan, s: Sys, t: Sys, all: Trxs) {
    Present(p, s.f) && Present(p, t.f) && t.f.nodes[p.to].up && t.f.nodes[p.to].executed == all &&
    t.f.nodes[p.former] == s.f.nodes[p.former] &&
    t.d == Desk(Phase.Ready, Some(all), Some(all), false, None, true, p.former)
  }

  lemma ReceivesAll(p: Plan, s: Sys, all: Trxs) returns (t: Sys)
    requires Answered(p, s, all)
    ensures var a := Step(Receive(p.to, Missing(s.f, p.to))); Enabled(p, s, a) && t == Do(p, s, a)
    ensures t.d == s.d && Present(p, t.f) && t.f.nodes[p.former] == s.f.nodes[p.former]
    ensures var node := t.f.nodes[p.to];
      node.up && !node.sqlError && node.torn == {} && node.source.Some? &&
      node.executed <= all && node.executed + node.retrieved == all
  {
    t := Do(p, s, Step(Receive(p.to, Missing(s.f, p.to))));
  }

  lemma AppliesAll(p: Plan, s: Sys, all: Trxs) returns (t: Sys)
    requires Present(p, s.f)
    requires var node := s.f.nodes[p.to];
      node.up && !node.sqlError && node.torn == {} && node.source.Some? &&
      node.executed <= all && node.executed + node.retrieved == all
    ensures var a := Step(Apply(p.to, all - s.f.nodes[p.to].executed)); Enabled(p, s, a) && t == Do(p, s, a)
    ensures t.d == s.d && Present(p, t.f) && t.f.nodes[p.former] == s.f.nodes[p.former]
    ensures var node := t.f.nodes[p.to];
      node.up && !node.sqlError && node.source.Some? && node.executed == all && node.retrieved <= all
  {
    t := Do(p, s, Step(Apply(p.to, all - s.f.nodes[p.to].executed)));
  }

  lemma PollSettles(p: Plan, s: Sys, all: Trxs) returns (t: Sys)
    requires Present(p, s.f) && s.d == Desk(Waiting, Some(all), Some(all), false, None, false, p.former)
    requires var node := s.f.nodes[p.to];
      node.up && !node.sqlError && node.source.Some? && node.executed == all && node.retrieved <= all
    ensures Enabled(p, s, Poll) && t == Do(p, s, Poll)
    ensures t.f == s.f && t.d == s.d.(phase := Rereading)
  {
    t := Do(p, s, Poll);
    CatchUp.JudgeMeans(CatchUp.PollRead(ViewOf(s.f, p.to), false), Some(all));
    hide CatchUp.Judge;
  }

  lemma CatchesUp(p: Plan, s: Sys, all: Trxs) returns (acts: seq<Action>, t: Sys)
    requires Answered(p, s, all)
    ensures Reaches(p, s, acts, t) && Caught(p, s, t, all)
  {
    var a := Step(Receive(p.to, Missing(s.f, p.to)));
    var s1 := ReceivesAll(p, s, all);
    var b := Step(Apply(p.to, all - s1.f.nodes[p.to].executed));
    var s2 := AppliesAll(p, s1, all);
    var s3 := PollSettles(p, s2, all);
    t := Do(p, s3, Reread(true));
    EmptyDifference(ViewOf(s3.f, p.to).Have(), all);
    assert Reaches(p, t, [], t);
    hide Enabled, Do, Run, After;
    acts := FourSteps(p, s, a, b, Poll, Reread(true), [], t);
  }

  lemma FourSteps(p: Plan, s: Sys, a: Action, b: Action, c: Action, d: Action, rest: seq<Action>, t: Sys)
    returns (acts: seq<Action>)
    requires Enabled(p, s, a) && Enabled(p, Do(p, s, a), b) && Enabled(p, Do(p, Do(p, s, a), b), c)
    requires Enabled(p, Do(p, Do(p, Do(p, s, a), b), c), d)
    requires Reaches(p, Do(p, Do(p, Do(p, Do(p, s, a), b), c), d), rest, t)
    ensures Reaches(p, s, acts, t)
  {
    hide Enabled, Do, Reaches;
    var s1 := Do(p, s, a);
    var s2 := Do(p, s1, b);
    ReachesFirst(p, Do(p, s2, c), d, rest, t);
    ReachesFirst(p, s2, c, [d] + rest, t);
    ReachesFirst(p, s1, b, [c] + ([d] + rest), t);
    ReachesFirst(p, s, a, [b] + ([c] + ([d] + rest)), t);
    acts := [a] + ([b] + ([c] + ([d] + rest)));
  }

  lemma {:induction false} ReachesLast(p: Plan, s: Sys, acts: seq<Action>, t: Sys, a: Action)
    requires Reaches(p, s, acts, t) && Enabled(p, t, a)
    ensures Reaches(p, s, acts + [a], Do(p, t, a))
    decreases |acts|
  {
    hide Enabled, Do;
    if acts == [] {
      assert acts + [a] == [a] && [a][1..] == [];
      assert Run(p, Do(p, s, a), [a][1..]) && After(p, Do(p, s, a), [a][1..]) == Do(p, s, a);
    } else {
      ReachesLast(p, Do(p, s, acts[0]), acts[1..], t, a);
      assert (acts + [a])[1..] == acts[1..] + [a] && (acts + [a])[0] == acts[0];
    }
  }

  /** From the stall on: the fence answers with its set, the candidate receives and applies what is missing,
      is found to hold that set and nothing else, and is promoted. */
  lemma SmoothSwitch(p: Plan, s: Sys) returns (acts: seq<Action>, t: Sys)
    requires s.d == Desk(Preparing, None, None, false, None, false, p.former) && Smooth(p, s.f)
    ensures Reaches(p, s, acts, t) && t.d.phase == Switched && t.d.checked
    ensures Leads(t.f, p.to) && p.former in t.f.nodes
    ensures t.f.nodes[p.former].superReadOnly && t.f.nodes[p.former].fenced
    ensures t.f.nodes[p.to].executed == s.f.nodes[p.former].executed
  {
    var all := s.f.nodes[p.former].executed;
    var s1 := Do(p, s, BeginStall(false));
    var s2 := Do(p, s1, FenceLands(true));
    var s3 := Do(p, s2, FenceReturns(true, true));
    assert Answered(p, s3, all) && s3.f.nodes[p.former].superReadOnly && s3.f.nodes[p.former].fenced;
    assert Enabled(p, s, BeginStall(false)) && Enabled(p, s1, FenceLands(true)) &&
           Enabled(p, s2, FenceReturns(true, true));
    hide Answered, Smooth, Reaches;
    var more, u := CatchesUp(p, s3, all);
    assert Enabled(p, u, Promote(true, true));
    t := Do(p, u, Promote(true, true));
    PromoteEnds(p, u, true, true);
    hide Enabled, Do;
    ReachesLast(p, s3, more, u, Promote(true, true));
    more := more + [Promote(true, true)];
    ReachesFirst(p, s2, FenceReturns(true, true), more, t);
    ReachesFirst(p, s1, FenceLands(true), [FenceReturns(true, true)] + more, t);
    ReachesFirst(p, s, BeginStall(false), [FenceLands(true)] + ([FenceReturns(true, true)] + more), t);
    acts := [BeginStall(false)] + ([FenceLands(true)] + ([FenceReturns(true, true)] + more));
  }
}
