/** No errant transactions over rejoins, a failover with clones and rejoins under way, and the rejoins
    after it. */
module FailoverHandover {
  import opened Intervals
  import opened GtidSets
  import opened Selection
  import opened Fleet
  import opened Failover
  import opened FailoverSafety
  import opened FailoverLossless
  import opened FailoverLimits
  import opened FailoverErrant
  import opened FailoverJobs
  import opened Errant
  import opened Supply
  import M = Maintenance

  /** The desk of the rejoin manager under the winner: the clones that landed are still to be joined. */
  ghost function Handed(t: Joint): M.Desk
    requires t.s.m.winner.Some?
  {
    M.Desk(t.s.f, t.s.m.winner.value, map[], {}, set n | n in t.jobs && t.jobs[n] == Joining(None))
  }

  lemma OrderlyHands(c: Config, t: Joint, rule: Rule, open: bool)
    requires Orderly(c, t, rule, open)
    ensures Clean(t.s.f, t.s.m.winner.value) && (t.s.m.phase == Promoted ==> M.Sane(Handed(t)))
  {
    if t.s.m.phase == Promoted {
      forall n | n in Handed(t).cloned ensures M.Joinable(t.s.f, n, t.s.m.winner.value) {
        assert JobWithin(t, n, t.s.m.winner.value, SureNow(t.s, rule));
      }
    }
  }

  /** The hand-over: a failover that promotes its winner leaves a set that rejoins keep clean, with
      whatever clones and rejoins were under way. */
  lemma HandOver(c: Config, j: Joint, ms: seq<Move>, rule: Rule)
    requires Chosen(c, j.s, rule) && TargetsWereCandidates(c, j.s.m) && Starred(c, j) && WellJobs(c, j)
    requires j.primary == c.former && JobsWithin(c, j, rule) && JointRun(c, j, ms, rule)
    ensures var t := JointAfter(c, j, ms, rule);
      t.s.m.winner == j.s.m.winner && (t.s.m.phase == Promoted ==> M.Sane(Handed(t)))
  {
    CandidatesWithin(c, j.s, rule);
    SafeJoint(c, j, rule);
    var open := exists n :: PassesOn(c, j, n);
    OrderlyRun(c, j, ms, rule, open);
    OrderlyHands(c, JointAfter(c, j, ms, rule), rule, open);
  }

  // ----- from the start of the failover

  /** `setup_replication` and every later repoint: whoever replicates does so from the primary. */
  ghost predicate Star(c: Config, f: Fleet) {
    forall n :: n in f.nodes ==> f.nodes[n].source == None || f.nodes[n].source == Some(c.former)
  }

  /** Before the choice, with jobs under way. */
  ghost predicate Ready(c: Config, j: Joint) {
    BeforeChoice(j.s.m) && Base(c, j.s) && Star(c, j.s.f) && WellJobs(c, j) && j.primary == c.former
  }

  /** The winner is chosen among members no job works on, with everything that can be attached to it
      within what it is sure to execute, or it cannot catch up. */
  ghost predicate CleanChoice(c: Config, j: Joint, rule: Rule)
    requires Enabled(c, j.s, Choose)
  {
    var t := j.(s := Do(c, j.s, Choose));
    HasWinner(t.s) ==>
      t.s.m.winner.value !in j.jobs &&
      (CanFinish(t.s.f.nodes[t.s.m.winner.value], t.s.f.acked, rule) ==>
         TargetsWithin(c, t.s, rule) && JobsWithin(c, t, rule))
  }

  ghost predicate CleanChoices(c: Config, j: Joint, ms: seq<Move>, rule: Rule)
    requires JointRun(c, j, ms, rule)
    decreases |ms|
  {
    ms == [] ||
    ((ms[0] == Fail(Choose) ==> CleanChoice(c, j, rule)) && CleanChoices(c, Moved(c, j, ms[0]), ms[1..], rule))
  }

  lemma StarStep(c: Config, s: Sys, a: Action)
    requires BeforeChoice(s.m) && Base(c, s) && Star(c, s.f) && Enabled(c, s, a)
    ensures Star(c, Do(c, s, a).f)
  {
    hide ViewOf, ChoiceOf, ViewSeq, EnvDo;
    if a.Step? {
      SameNodes(s.f, a.e);
      forall n | n in s.f.nodes ensures EnvDo(s.f, a.e).nodes[n].source == s.f.nodes[n].source {
        SameSource(s.f, a.e, n);
      }
    }
  }

  lemma ReadyPut(c: Config, j: Joint, n: Name, node: Node, next: map<Name, Job>)
    requires Ready(c, j) && n in j.jobs && n in j.s.f.nodes && NextJobs(j, n, next)
    requires Passive(node) && (node.source == None || node.source == Some(c.former))
    ensures Ready(c, Joint(WithNode(j.s, n, node), j.primary, next))
  {
    PutKeeps(c, j.s.f, None, n, node);
    WellNext(c, j, WithNode(j.s, n, node), next);
  }

  lemma ReadyMove(c: Config, j: Joint, mv: Move)
    requires Ready(c, j) && CanMove(c, j, mv) && mv != Fail(Choose)
    ensures Ready(c, Moved(c, j, mv))
  {
    match mv
    case Fail(a) =>
      BaseStep(c, j.s, a);
      StarStep(c, j.s, a);
      WellNext(c, j, Do(c, j.s, a), j.jobs);
    case Begins(n) => ReadyPut(c, j, n, j.s.f.nodes[n].(source := None), j.jobs);
    case Lands(n, took, ok) =>
      if took {
        ReadyPut(c, j, n, RebuiltNode(j.s.f.nodes[n], j.s.f.nodes[j.jobs[n].donor]), Moved(c, j, mv).jobs);
      }
    case Joins(n, took) =>
      if took {
        ReadyPut(c, j, n, RepointedNode(j.s.f.nodes[n], JoinTarget(j, n)), Moved(c, j, mv).jobs);
      }
    case Adopt =>
  }

  ghost predicate WinnerClean(t: Joint) {
    t.s.m.winner.Some? ==>
      Clean(t.s.f, t.s.m.winner.value) && (t.s.m.phase == Promoted ==> M.Sane(Handed(t)))
  }

  lemma {:induction false} NoWinnerRun(c: Config, j: Joint, ms: seq<Move>, rule: Rule)
    requires j.s.m.phase == Halted && j.s.m.winner.None? && JointRun(c, j, ms, rule)
    ensures JointAfter(c, j, ms, rule).s.m.winner.None?
    decreases |ms|
  {
    if ms != [] {
      NoWinnerRun(c, Moved(c, j, ms[0]), ms[1..], rule);
    }
  }

  lemma NobodyFollows(c: Config, s: Sys, w: Name)
    requires Star(c, s.f) && w in s.f.nodes && w != c.former
    ensures Clean(s.f, w) && TwoStars(c, s)
  {
  }

  lemma CleanFromWinner(c: Config, t: Joint, ms: seq<Move>, rule: Rule)
    requires t.s.m.phase == CatchingUp && !t.s.m.ioSeenDown && Attaching(c, t.s) && Starred(c, t) && WellJobs(c, t)
    requires t.primary == c.former && JointRun(c, t, ms, rule)
    requires CanFinish(t.s.f.nodes[t.s.m.winner.value], t.s.f.acked, rule) ==>
      TargetsWithin(c, t.s, rule) && JobsWithin(c, t, rule)
    ensures WinnerClean(JointAfter(c, t, ms, rule))
  {
    if CanFinish(t.s.f.nodes[t.s.m.winner.value], t.s.f.acked, rule) {
      var open := exists n :: PassesOn(c, t, n);
      SafeJoint(c, t, rule);
      OrderlyRun(c, t, ms, rule, open);
      OrderlyHands(c, JointAfter(c, t, ms, rule), rule, open);
    } else {
      StuckAtChoice(c, t, rule);
      StuckJointRun(c, t, ms, rule);
    }
  }

  lemma CleanFromChoice(c: Config, j: Joint, ms: seq<Move>, rule: Rule)
    requires j.s.m.phase == Viewing && Ready(c, j) && Enabled(c, j.s, Choose) && CleanChoice(c, j, rule)
    requires JointRun(c, Moved(c, j, Fail(Choose)), ms, rule)
    ensures WinnerClean(JointAfter(c, Moved(c, j, Fail(Choose)), ms, rule))
  {
    var t := Moved(c, j, Fail(Choose));
    ChoicePlaces(c, j.s);
    ChoiceKeepsFleet(c, j.s);
    hide Do, ChoiceOf, ViewSeq, Base, Star;
    if t.s.m.winner.None? {
      NoWinnerRun(c, t, ms, rule);
    } else {
      WinnerInFleet(c, t.s);
      NobodyFollows(c, t.s, t.s.m.winner.value);
      CleanFromWinner(c, t, ms, rule);
    }
  }

  lemma {:induction false} WinnerStaysClean(c: Config, j: Joint, ms: seq<Move>, rule: Rule)
    requires Ready(c, j) && JointRun(c, j, ms, rule) && CleanChoices(c, j, ms, rule)
    ensures WinnerClean(JointAfter(c, j, ms, rule))
    decreases |ms|
  {
    if ms != [] {
      if ms[0] == Fail(Choose) {
        CleanFromChoice(c, j, ms[1..], rule);
      } else {
        ReadyMove(c, j, ms[0]);
        WinnerStaysClean(c, Moved(c, j, ms[0]), ms[1..], rule);
      }
    }
  }

  // ----- the former primary's replicas

  ghost predicate BaseOrPlaced(c: Config, s: Sys) {
    if BeforeChoice(s.m) then Base(c, s) else Placed(c, s)
  }

  lemma BaseOrPlacedStep(c: Config, s: Sys, a: Action)
    requires BaseOrPlaced(c, s) && Enabled(c, s, a)
    ensures BaseOrPlaced(c, Do(c, s, a))
  {
    hide Do, Base, Members, Good;
    if !BeforeChoice(s.m) {
      PlacedStep(c, s, a);
    } else if a == Choose {
      ChoicePlaces(c, s);
    } else {
      BaseStep(c, s, a);
    }
  }

  /** With no job under way a failover moves nobody under the former primary, so its replicas stay
      within it throughout. */
  lemma {:induction false} FormerStaysClean(c: Config, j: Joint, ms: seq<Move>, rule: Rule)
    requires BaseOrPlaced(c, j.s) && Clean(j.s.f, c.former) && j.jobs == map[] && JointRun(c, j, ms, rule)
    ensures Clean(JointAfter(c, j, ms, rule).s.f, c.former)
    decreases |ms|
  {
    if ms != [] {
      match ms[0] {
        case Fail(a) =>
          CleanDo(c, j.s, a, c.former);
          BaseOrPlacedStep(c, j.s, a);
        case Adopt =>
      }
      FormerStaysClean(c, Moved(c, j, ms[0]), ms[1..], rule);
    }
  }

  // ----- the theorem

  ghost predicate Within(f: Fleet, p: Name) {
    p in f.nodes && forall n :: Follower(f, n, p) ==> f.nodes[n].executed <= f.nodes[p].executed
  }

  /** The failover begins where the rejoins leave off, with these jobs under way. */
  ghost function Begun(d: M.Desk, js: seq<M.Job>, jobs: map<Name, Job>): Joint
    requires M.Jobs(d, js)
  {
    Joint(Sys(M.Done(d, js).f, Unstarted()), d.p, jobs)
  }

  /** Rejoins under one primary, a failover away from it with any clones and rejoins still under way,
      rejoins under its winner: at the end of each part every node replicating from the winner has
      executed only what the winner has executed, and likewise for the old primary before the failover
      and, if no job was under way, after it. */
  lemma NoErrantAcrossFailover(d: M.Desk, js: seq<M.Job>, c: Config, jobs: map<Name, Job>, ms: seq<Move>, rule: Rule,
                               later: seq<M.Job>)
    requires M.Sane(d) && M.Jobs(d, js) && d.p == c.former
    requires var j := Begun(d, js, jobs);
      SetOut(c, j.s) && Star(c, j.s.f) && WellJobs(c, j) && JointRun(c, j, ms, rule) && CleanChoices(c, j, ms, rule)
    ensures var j := Begun(d, js, jobs); var t := JointAfter(c, j, ms, rule);
      Within(j.s.f, c.former) && (jobs == map[] ==> Within(t.s.f, c.former)) &&
      (t.s.m.winner.Some? ==>
         Within(t.s.f, t.s.m.winner.value) &&
         (t.s.m.phase == Promoted && M.Jobs(Handed(t), later) ==>
            Within(M.Done(Handed(t), later).f, t.s.m.winner.value)))
  {
    var j := Begun(d, js, jobs);
    M.NoErrantTransactions(d, js);
    SetOutIsBase(c, j.s);
    if jobs == map[] {
      FormerStaysClean(c, j, ms, rule);
    }
    WinnerStaysClean(c, j, ms, rule);
    var t := JointAfter(c, j, ms, rule);
    if t.s.m.phase == Promoted && t.s.m.winner.Some? && M.Jobs(Handed(t), later) {
      M.NoErrantTransactions(Handed(t), later);
    }
  }
}
