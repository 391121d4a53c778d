/** Exactly when the clones and rejoins under way attach an errant node to the winner: the losing runs,
    and the condition on the state at the choice. */
module FailoverJobLimits {
  import opened Intervals
  import opened GtidSets
  import opened Selection
  import opened Fleet
  import opened Failover
  import opened FailoverSafety
  import opened FailoverLossless
  import opened FailoverLimits
  import opened FailoverErrant
  import opened FailoverJobs
  import opened Errant
  import opened Supply

  // ----- runs that attach an errant node

  lemma JointFirst(c: Config, j: Joint, mv: Move, rest: seq<Move>, rule: Rule) returns (ms: seq<Move>)
    requires CanMove(c, j, mv) && Legal(j, mv, rule) && JointRun(c, Moved(c, j, mv), rest, rule)
    ensures JointRun(c, j, ms, rule) && JointAfter(c, j, ms, rule) == JointAfter(c, Moved(c, j, mv), rest, rule)
  {
    ms := [mv] + rest;
    assert ms[1..] == rest;
  }

  /** A run of the failover alone, in front of a joint run. */
  lemma {:induction false} Lift(c: Config, j: Joint, acts: seq<Action>, rest: seq<Move>, rule: Rule)
    returns (ms: seq<Move>)
    requires AllowedRun(c, j.s, acts, rule) && JointRun(c, j.(s := After(c, j.s, acts)), rest, rule)
    ensures JointRun(c, j, ms, rule)
    ensures JointAfter(c, j, ms, rule) == JointAfter(c, j.(s := After(c, j.s, acts)), rest, rule)
    decreases |acts|
  {
    if acts == [] {
      ms := rest;
    } else {
      ms := Lift(c, j.(s := Do(c, j.s, acts[0])), acts[1..], rest, rule);
      ms := JointFirst(c, j, Fail(acts[0]), ms, rule);
    }
  }

  ghost predicate JointClean(c: Config, j: Joint, ms: seq<Move>, rule: Rule)
    requires HasWinner(j.s)
  {
    JointRun(c, j, ms, rule) ==> Clean(JointAfter(c, j, ms, rule).s.f, j.s.m.winner.value)
  }

  /** Caught up and repointing, with the winner up: from here the failover can finish at once. */
  ghost predicate CanEnd(c: Config, j: Joint) {
    var s := j.s;
    s.m.phase == Repointing && HasWinner(s) && s.f.nodes[s.m.winner.value].up && s.m.fence != NotStarted &&
    (forall n :: n in s.m.toDo ==> n in s.f.nodes) && (forall n :: n in j.jobs ==> n in s.f.nodes) && WellJobs(c, j)
  }

  ghost predicate Errs(c: Config, j: Joint, ms: seq<Move>, rule: Rule) {
    HasWinner(j.s) && JointRun(c, j, ms, rule) && !Clean(JointAfter(c, j, ms, rule).s.f, j.s.m.winner.value)
  }

  /** A landed clone with a transaction the winner lacks is joined once the winner is adopted. */
  lemma JoinErrs(c: Config, j: Joint, n: Name, g: Gtid, rule: Rule) returns (ms: seq<Move>)
    requires CanEnd(c, j) && n in j.jobs && j.jobs[n] == Joining(None) && n in j.s.f.nodes
    requires g in j.s.f.nodes[n].executed && g !in j.s.f.nodes[j.s.m.winner.value].executed
    ensures Errs(c, j, ms, rule)
  {
    var w := j.s.m.winner.value;
    var acts := FinishRun(c, j.s, rule);
    var j1 := j.(s := After(c, j.s, acts));
    var j2 := Moved(c, j1, Adopt);
    var wake := Fail(Step(Wake(n)));
    var j3 := Moved(c, j2, wake);
    var j4 := Moved(c, j3, Joins(n, true));
    assert Follower(j4.s.f, n, w) && !Behind(j4.s.f, n, w);
    assert JointRun(c, j4, [], rule);
    ms := JointFirst(c, j3, Joins(n, true), [], rule);
    ms := JointFirst(c, j2, wake, ms, rule);
    ms := JointFirst(c, j1, Adopt, ms, rule);
    ms := Lift(c, j, acts, ms, rule);
  }

  /** The clone lands with it. */
  lemma LandErrs(c: Config, j: Joint, n: Name, g: Gtid, rule: Rule) returns (ms: seq<Move>)
    requires CanEnd(c, j) && n in j.jobs && j.jobs[n].Cloning? && n in j.s.f.nodes
    requires j.jobs[n].donor in j.s.f.nodes && g in j.s.f.nodes[j.jobs[n].donor].executed
    requires g !in j.s.f.nodes[j.s.m.winner.value].executed
    ensures Errs(c, j, ms, rule)
  {
    var land := Lands(n, true, true);
    ms := JoinErrs(c, Moved(c, j, land), n, g, rule);
    ms := JointFirst(c, j, land, ms, rule);
  }

  /** Steps of the fleet alone, in front of a joint run. */
  lemma EnvLift(c: Config, j: Joint, es: seq<Env>, rest: seq<Move>, rule: Rule) returns (ms: seq<Move>)
    requires j.s.m.phase == Repointing && EnvRun(j.s.f, es)
    requires JointRun(c, j.(s := Sys(EnvAfter(j.s.f, es), j.s.m)), rest, rule)
    ensures JointRun(c, j, ms, rule)
    ensures JointAfter(c, j, ms, rule) == JointAfter(c, j.(s := Sys(EnvAfter(j.s.f, es), j.s.m)), rest, rule)
  {
    StepsRun(c, j.s, es, rule);
    ms := Lift(c, j, Steps(es), rest, rule);
  }

  lemma StillCanEnd(c: Config, j: Joint, f: Fleet)
    requires CanEnd(c, j) && Kept(j.s.f, f, j.s.m.winner.value)
    ensures CanEnd(c, j.(s := Sys(f, j.s.m)))
  {
  }

  lemma CloneErrs(c: Config, j: Joint, n: Name, rule: Rule) returns (ms: seq<Move>)
    requires CanEnd(c, j) && n in j.jobs && j.jobs[n].Cloning? && n in j.s.f.nodes && j.jobs[n].donor in j.s.f.nodes
    requires !ContainedIn(j.s.f, j.jobs[n].donor, j.s.m.winner.value, j.s.f.nodes[j.s.m.winner.value].executed)
    ensures Errs(c, j, ms, rule)
  {
    var w := j.s.m.winner.value;
    var g, es := LooseRun(j.s.f, j.jobs[n].donor, w, j.s.f.nodes[w].executed);
    var t := j.(s := Sys(EnvAfter(j.s.f, es), j.s.m));
    StillCanEnd(c, j, t.s.f);
    ms := LandErrs(c, t, n, g, rule);
    ms := EnvLift(c, j, es, ms, rule);
  }

  lemma LandedErrs(c: Config, j: Joint, n: Name, rule: Rule) returns (ms: seq<Move>)
    requires CanEnd(c, j) && n in j.jobs && j.jobs[n] == Joining(None) && n in j.s.f.nodes
    requires !ContainedIn(j.s.f, n, j.s.m.winner.value, j.s.f.nodes[j.s.m.winner.value].executed)
    ensures Errs(c, j, ms, rule)
  {
    var w := j.s.m.winner.value;
    var g, es := LooseRun(j.s.f, n, w, j.s.f.nodes[w].executed);
    var t := j.(s := Sys(EnvAfter(j.s.f, es), j.s.m));
    StillCanEnd(c, j, t.s.f);
    ms := JoinErrs(c, t, n, g, rule);
    ms := EnvLift(c, j, es, ms, rule);
  }

  /** The failover's own repoint attaches what a member cannot but bring. */
  lemma RepointErrs(c: Config, j: Joint, n: Name, rule: Rule) returns (ms: seq<Move>)
    requires CanEnd(c, j) && n in j.s.m.toDo && n != j.s.m.winner.value
    requires !ContainedIn(j.s.f, n, j.s.m.winner.value, j.s.f.nodes[j.s.m.winner.value].executed)
    ensures Errs(c, j, ms, rule)
  {
    var acts := AttachRun(c, j.s, n, rule);
    var t := j.(s := After(c, j.s, acts));
    assert !Behind(t.s.f, n, j.s.m.winner.value);
    ms := Lift(c, j, acts, [], rule);
  }

  lemma {:induction false} JointConcat(c: Config, j: Joint, x: seq<Move>, y: seq<Move>, rule: Rule)
    requires JointRun(c, j, x, rule) && JointRun(c, JointAfter(c, j, x, rule), y, rule)
    ensures JointRun(c, j, x + y, rule)
    ensures JointAfter(c, j, x + y, rule) == JointAfter(c, JointAfter(c, j, x, rule), y, rule)
    decreases |x|
  {
    if x == [] {
      assert x + y == y;
    } else {
      assert (x + y)[1..] == x[1..] + y && (x + y)[0] == x[0];
      JointConcat(c, Moved(c, j, x[0]), x[1..], y, rule);
    }
  }

  /** The same failover at the same point, but for node `n`. */
  ghost predicate Beside(c: Config, j: Joint, t: Joint, n: Name) {
    t.s.m == j.s.m && t.primary == j.primary && t.s.f.nodes.Keys == j.s.f.nodes.Keys && CanEnd(c, t) &&
    (forall m :: m in j.s.f.nodes && m != n ==> t.s.f.nodes[m] == j.s.f.nodes[m]) &&
    forall m :: m in j.jobs && m != n ==> m in t.jobs && t.jobs[m] == j.jobs[m]
  }

  lemma CanEndNext(c: Config, j: Joint, n: Name, node: Node, next: map<Name, Job>)
    requires CanEnd(c, j) && n in j.jobs && (forall m :: m in next ==> m in j.jobs)
    requires WellJobs(c, Joint(WithNode(j.s, n, node), j.primary, next))
    ensures CanEnd(c, Joint(WithNode(j.s, n, node), j.primary, next))
  {
    assert j.s.m.winner != Some(n);
    hide WellJobs;
  }

  lemma LandBeside(c: Config, j: Joint, n: Name)
    requires CanEnd(c, j) && n in j.jobs && j.jobs[n].Cloning? && j.jobs[n].donor in j.s.f.nodes
    ensures Beside(c, j, Moved(c, j, Lands(n, true, true)), n)
  {
    var t := Moved(c, j, Lands(n, true, true));
    WellNext(c, j, t.s, t.jobs);
    CanEndNext(c, j, n, t.s.f.nodes[n], t.jobs);
    hide CanEnd;
  }

  lemma LandRun(c: Config, j: Joint, n: Name, rule: Rule) returns (t: Joint, ms: seq<Move>)
    requires CanEnd(c, j) && n in j.jobs && Members(c, j.s.f)
    ensures JointRun(c, j, ms, rule) && JointAfter(c, j, ms, rule) == t && Beside(c, j, t, n)
    ensures n in t.jobs && t.jobs[n].Joining?
  {
    if j.jobs[n].Cloning? {
      LandBeside(c, j, n);
      t := Moved(c, j, Lands(n, true, true));
      hide CanEnd, Beside, Members;
      ms := [Lands(n, true, true)];
      assert ms[1..] == [];
    } else {
      t, ms := j, [];
    }
  }

  lemma JoinRun(c: Config, j: Joint, n: Name, rule: Rule) returns (t: Joint, ms: seq<Move>)
    requires CanEnd(c, j) && n in j.jobs && j.jobs[n].Joining? && j.primary == c.former
    ensures JointRun(c, j, ms, rule) && JointAfter(c, j, ms, rule) == t && Beside(c, j, t, n)
    ensures Open(t.s.f, n) && t.s.f.nodes[n].torn == {} && t.s.f.nodes[n].source == Some(c.former)
  {
    var wake, join, none: seq<Move> := Fail(Step(Wake(n))), Joins(n, true), [];
    var j1 := Moved(c, j, wake);
    t := Moved(c, j1, join);
    ms := JointFirst(c, j1, join, none, rule);
    ms := JointFirst(c, j, wake, ms, rule);
  }

  /** Joined to the former primary with its data landed. */
  lemma FormerJoined(c: Config, j: Joint, n: Name, rule: Rule) returns (t: Joint, ms: seq<Move>)
    requires CanEnd(c, j) && n in j.jobs && j.primary == c.former && Members(c, j.s.f)
    ensures JointRun(c, j, ms, rule) && JointAfter(c, j, ms, rule) == t && Beside(c, j, t, n)
    ensures Open(t.s.f, n) && t.s.f.nodes[n].torn == {} && t.s.f.nodes[n].source == Some(c.former)
  {
    hide JointRun, JointAfter, CanEnd, Members, Open;
    var j1, x := LandRun(c, j, n, rule);
    var y;
    t, y := JoinRun(c, j1, n, rule);
    JointConcat(c, j, x, y, rule);
    ms := x + y;
  }

  /** What only the former primary brings reaches a node joined to it, and from there the winner's
      followers: by the failover's repoint, or through another clone. */
  lemma ThroughErrs(c: Config, j: Joint, n: Name, rule: Rule) returns (ms: seq<Move>)
    requires CanEnd(c, j) && PassesOn(c, j, n) && n in j.s.f.nodes && j.primary == c.former && Members(c, j.s.f)
    requires j.s.m.winner.value != c.former
    requires !ContainedIn(j.s.f, c.former, j.s.m.winner.value, j.s.f.nodes[j.s.m.winner.value].executed)
    ensures Errs(c, j, ms, rule)
  {
    var w := j.s.m.winner.value;
    var g, es := LooseRun(j.s.f, c.former, w, j.s.f.nodes[w].executed);
    var j1 := j.(s := Sys(EnvAfter(j.s.f, es), j.s.m));
    StillCanEnd(c, j, j1.s.f);
    var j2, to := FormerJoined(c, j1, n, rule);
    StillDonates(j1, j2, n);
    hide JointRun, JointAfter, CanEnd, ContainedIn, Open;
    ms := FetchedErrs(c, j2, n, g, rule);
    JointConcat(c, j1, to, ms, rule);
    ms := EnvLift(c, j, es, to + ms, rule);
  }

  lemma StillDonates(j: Joint, t: Joint, n: Name)
    requires forall o :: o in j.jobs && o != n ==> o in t.jobs && t.jobs[o] == j.jobs[o]
    requires n in j.jobs ==> j.jobs[n] != Cloning(n)
    ensures Donates(j, n) ==> Donates(t, n)
  {
    if o :| o in j.jobs && j.jobs[o] == Cloning(n) {
      assert t.jobs[o] == Cloning(n);
    }
  }

  lemma FetchedErrs(c: Config, j: Joint, n: Name, g: Gtid, rule: Rule) returns (ms: seq<Move>)
    requires CanEnd(c, j) && c.former in j.s.f.nodes && n != j.s.m.winner.value && j.s.m.winner.value != c.former
    requires Open(j.s.f, n) && j.s.f.nodes[n].source == Some(c.former) && j.s.f.nodes[n].torn == {}
    requires g in j.s.f.nodes[c.former].executed && g !in j.s.f.nodes[j.s.m.winner.value].executed
    requires n in j.s.m.toDo || Donates(j, n)
    ensures Errs(c, j, ms, rule)
  {
    var w := j.s.m.winner.value;
    var es := OneHop(j.s.f, n, w, g);
    var t := j.(s := Sys(EnvAfter(j.s.f, es), j.s.m));
    StillCanEnd(c, j, t.s.f);
    if n in j.s.m.toDo {
      assert Brings(t.s.f, n, w, g, 0);
      ms := RepointErrs(c, t, n, rule);
    } else {
      var o :| o in j.jobs && j.jobs[o] == Cloning(n);
      ms := LandErrs(c, t, o, g, rule);
    }
    ms := EnvLift(c, j, es, ms, rule);
  }

  // ----- the decision

  lemma LosingJob(c: Config, j: Joint, n: Name, t: Joint, rule: Rule) returns (ms: seq<Move>)
    requires AtChoice(c, j.s) && HasWinner(j.s) && WellJobs(c, j) && n in j.jobs
    requires CaughtUpWith(c, j.s, t.s, SureNow(j.s, rule)) && t == j.(s := t.s) && CanEnd(c, t)
    requires !JobWithin(j, n, j.s.m.winner.value, SureNow(j.s, rule))
    ensures Errs(c, t, ms, rule)
  {
    var w, sure := j.s.m.winner.value, SureNow(j.s, rule);
    match j.jobs[n]
    case Cloning(d) =>
      LooseStays(j.s.f, t.s.f, d, w, sure);
      ms := CloneErrs(c, t, n, rule);
    case Joining(to) =>
      LooseStays(j.s.f, t.s.f, n, w, sure);
      ms := LandedErrs(c, t, n, rule);
  }

  lemma LosingTarget(c: Config, j: Joint, n: Name, t: Joint, rule: Rule) returns (ms: seq<Move>)
    requires AtChoice(c, j.s) && HasWinner(j.s) && n in Targets(c, j.s.m, j.s.m.winner.value)
    requires CaughtUpWith(c, j.s, t.s, SureNow(j.s, rule)) && t == j.(s := t.s) && CanEnd(c, t)
    requires !ContainedIn(j.s.f, n, j.s.m.winner.value, SureNow(j.s, rule))
    ensures Errs(c, t, ms, rule)
  {
    assert Members(c, j.s.f);
    LooseStays(j.s.f, t.s.f, n, j.s.m.winner.value, SureNow(j.s, rule));
    ms := RepointErrs(c, t, n, rule);
  }

  lemma LosingThrough(c: Config, j: Joint, n: Name, t: Joint, rule: Rule) returns (ms: seq<Move>)
    requires AtChoice(c, j.s) && HasWinner(j.s) && PassesOn(c, j, n) && j.primary == c.former
    requires CaughtUpWith(c, j.s, t.s, SureNow(j.s, rule)) && t == j.(s := t.s) && CanEnd(c, t) && Members(c, t.s.f)
    requires !ContainedIn(j.s.f, c.former, j.s.m.winner.value, SureNow(j.s, rule))
    ensures Errs(c, t, ms, rule)
  {
    LooseStays(j.s.f, t.s.f, c.former, j.s.m.winner.value, SureNow(j.s, rule));
    assert PassesOn(c, t, n);
    ms := ThroughErrs(c, t, n, rule);
  }

  lemma CatchUpEnds(c: Config, j: Joint, t: Joint, rule: Rule)
    requires AtChoice(c, j.s) && HasWinner(j.s) && WellJobs(c, j) && t == j.(s := t.s)
    requires CaughtUpWith(c, j.s, t.s, SureNow(j.s, rule))
    ensures CanEnd(c, t) && Members(c, t.s.f)
  {
    assert Members(c, j.s.f);
  }

  /** The losing run: the winner catches up, then what it is not sure of comes through. */
  lemma LosingJoint(c: Config, j: Joint, rule: Rule) returns (ms: seq<Move>)
    requires AtChoice(c, j.s) && HasWinner(j.s) && WellJobs(c, j) && j.primary == c.former
    requires CanFinish(j.s.f.nodes[j.s.m.winner.value], j.s.f.acked, rule)
    requires !TargetsWithin(c, j.s, rule) || !JobsWithin(c, j, rule)
    ensures Errs(c, j, ms, rule)
  {
    var w, sure := j.s.m.winner.value, SureNow(j.s, rule);
    var acts := CatchUpRun(c, j.s, rule);
    var t := j.(s := After(c, j.s, acts));
    CatchUpEnds(c, j, t, rule);
    hide AllowedRun, CanEnd, CaughtUpWith, ContainedIn, JobWithin, PassesOn, Targets;
    if n :| n in Targets(c, j.s.m, w) && !ContainedIn(j.s.f, n, w, sure) {
      ms := LosingTarget(c, j, n, t, rule);
    } else if n :| n in j.jobs && !JobWithin(j, n, w, sure) {
      ms := LosingJob(c, j, n, t, rule);
    } else {
      var n :| PassesOn(c, j, n) && !ContainedIn(j.s.f, c.former, w, sure);
      ms := LosingThrough(c, j, n, t, rule);
    }
    ms := Lift(c, j, acts, ms, rule);
  }

  /** Exactly when nothing errant is attached to the winner, over all schedules of the failover, the
      fleet and the clones and rejoins under way: the catch-up cannot finish, or the winner is sure to
      execute whatever comes from the members the failover will repoint, from the donors still being
      copied and from the clones already landed, and, if a node that is joined to the former primary
      meanwhile can pass on what it got there, from the former primary too. */
  lemma JointDecides(c: Config, j: Joint, rule: Rule)
    requires AtChoice(c, j.s) && Attaching(c, j.s) && Starred(c, j) && WellJobs(c, j) && j.primary == c.former
    ensures (forall ms: seq<Move> :: JointClean(c, j, ms, rule)) <==>
      (CanFinish(j.s.f.nodes[j.s.m.winner.value], j.s.f.acked, rule) ==>
         TargetsWithin(c, j.s, rule) && JobsWithin(c, j, rule))
  {
    if !CanFinish(j.s.f.nodes[j.s.m.winner.value], j.s.f.acked, rule) {
      StuckAtChoice(c, j, rule);
      forall ms: seq<Move> ensures JointClean(c, j, ms, rule) {
        if JointRun(c, j, ms, rule) { StuckJointRun(c, j, ms, rule); }
      }
    } else if TargetsWithin(c, j.s, rule) && JobsWithin(c, j, rule) {
      SafeJoint(c, j, rule);
      forall ms: seq<Move> ensures JointClean(c, j, ms, rule) {
        if JointRun(c, j, ms, rule) { OrderlyRun(c, j, ms, rule, exists n :: PassesOn(c, j, n)); }
      }
    } else {
      var ms := LosingJoint(c, j, rule);
      assert !JointClean(c, j, ms, rule);
    }
  }

  /** With one job only its own node can pass anything on. */
  lemma OneJob(c: Config, j: Joint, n: Name, rule: Rule)
    requires HasWinner(j.s) && j.jobs.Keys == {n}
    ensures JobsWithin(c, j, rule) <==>
      (JobWithin(j, n, j.s.m.winner.value, SureNow(j.s, rule)) &&
       (PassesOn(c, j, n) ==> ContainedIn(j.s.f, c.former, j.s.m.winner.value, SureNow(j.s, rule))))
  {
    hide ContainedIn, Awaits, JobWithin, SureNow;
    assert forall m :: PassesOn(c, j, m) ==> m == n;
  }

  /** One clone under way, of a node the failover does not repoint: it attaches nothing errant if and
      only if its donor is the winner, or can come to execute only what the winner is sure to. */
  lemma CloneDecides(c: Config, j: Joint, n: Name, d: Name, rule: Rule)
    requires AtChoice(c, j.s) && Attaching(c, j.s) && Starred(c, j) && WellJobs(c, j) && j.primary == c.former
    requires j.jobs == map[n := Cloning(d)] && n !in Targets(c, j.s.m, j.s.m.winner.value)
    requires TargetsWithin(c, j.s, rule) && CanFinish(j.s.f.nodes[j.s.m.winner.value], j.s.f.acked, rule)
    ensures (forall ms: seq<Move> :: JointClean(c, j, ms, rule)) <==>
      (d == j.s.m.winner.value || ContainedIn(j.s.f, d, j.s.m.winner.value, SureNow(j.s, rule)))
  {
    JointDecides(c, j, rule);
    assert n in j.jobs && d != n && !PassesOn(c, j, n);
    OneJob(c, j, n, rule);
    hide JointClean, ContainedIn, JobsWithin;
  }

  /** One rejoin under way, which will repoint its node to the former primary it read: it attaches
      nothing errant to the winner if and only if the failover does not repoint that node, or the
      winner is sure to execute whatever the former primary can bring. */
  lemma RejoinDecides(c: Config, j: Joint, n: Name, rule: Rule)
    requires AtChoice(c, j.s) && Attaching(c, j.s) && Starred(c, j) && WellJobs(c, j) && j.primary == c.former
    requires j.jobs == map[n := Joining(Some(c.former))]
    requires TargetsWithin(c, j.s, rule) && CanFinish(j.s.f.nodes[j.s.m.winner.value], j.s.f.acked, rule)
    ensures (forall ms: seq<Move> :: JointClean(c, j, ms, rule)) <==>
      (n in Targets(c, j.s.m, j.s.m.winner.value) ==>
         ContainedIn(j.s.f, c.former, j.s.m.winner.value, SureNow(j.s, rule)))
  {
    JointDecides(c, j, rule);
    assert n in j.jobs && (PassesOn(c, j, n) <==> n in Targets(c, j.s.m, j.s.m.winner.value));
    OneJob(c, j, n, rule);
    hide JointClean, ContainedIn, JobsWithin;
  }
}
