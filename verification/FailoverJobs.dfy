/** Clones and rejoins under way while the set fails over (dbguard/manager/rejoin.py). Nobody cancels
    them or waits for them: a clone lands and its node is repointed to whatever primary the manager
    then believes in, a rejoin to the primary it read at its start. Exactly when that attaches an
    errant node to the winner. */
module FailoverJobs {
  import opened Intervals
  import opened GtidSets
  import opened Selection
  import opened Fleet
  import opened Failover
  import opened FailoverSafety
  import opened FailoverLossless
  import opened FailoverLimits
  import opened FailoverErrant
  import opened Errant
  import opened Supply

  /** A clone still copying, or a node about to be repointed: to the primary its rejoin read, or
      (None) to the manager's primary of that moment. */
  datatype Job = Cloning(donor: Name) | Joining(to: Option<Name>)

  /** A failover, the primary the manager believes in, and the jobs by node. */
  datatype Joint = Joint(s: Sys, primary: Name, jobs: map<Name, Job>)

  datatype Move =
    | Fail(a: Action)
    | Begins(n: Name)
    | Lands(n: Name, took: bool, ok: bool)
    | Joins(n: Name, took: bool)
    | Adopt

  predicate CanMove(c: Config, j: Joint, mv: Move) {
    match mv
    case Fail(a) => Enabled(c, j.s, a)
    case Begins(n) => n in j.jobs && j.jobs[n].Cloning? && n in j.s.f.nodes
    case Lands(n, took, ok) =>
      n in j.jobs && j.jobs[n].Cloning? && n in j.s.f.nodes && j.jobs[n].donor in j.s.f.nodes && (ok ==> took)
    case Joins(n, took) =>
      n in j.jobs && j.jobs[n].Joining? && n in j.s.f.nodes && (took ==> j.s.f.nodes[n].up)
    case Adopt => j.s.m.phase == Promoted && j.s.m.winner.Some?
  }

  function JoinTarget(j: Joint, n: Name): Name
    requires n in j.jobs && j.jobs[n].Joining?
  {
    if j.jobs[n].to.Some? then j.jobs[n].to.value else j.primary
  }

  function WithNode(s: Sys, n: Name, node: Node): Sys { Sys(Put(s.f, n, node), s.m) }

  /** A clone leaves its node without a source, and is of what the donor has executed when it lands. */
  function Moved(c: Config, j: Joint, mv: Move): Joint
    requires CanMove(c, j, mv)
  {
    match mv
    case Fail(a) => j.(s := Do(c, j.s, a))
    case Begins(n) => j.(s := WithNode(j.s, n, j.s.f.nodes[n].(source := None)))
    case Lands(n, took, ok) =>
      var node := RebuiltNode(j.s.f.nodes[n], j.s.f.nodes[j.jobs[n].donor]);
      Joint(if took then WithNode(j.s, n, node) else j.s, j.primary,
            if ok then j.jobs[n := Joining(None)] else j.jobs - {n})
    case Joins(n, took) =>
      var node := RepointedNode(j.s.f.nodes[n], JoinTarget(j, n));
      Joint(if took then WithNode(j.s, n, node) else j.s, j.primary, j.jobs - {n})
    case Adopt => j.(primary := j.s.m.winner.value)
  }

  predicate Legal(j: Joint, mv: Move, rule: Rule) {
    mv.Fail? ==> Allowed(j.s, mv.a, rule)
  }

  predicate JointRun(c: Config, j: Joint, ms: seq<Move>, rule: Rule)
    decreases |ms|
  {
    ms == [] || (CanMove(c, j, ms[0]) && Legal(j, ms[0], rule) && JointRun(c, Moved(c, j, ms[0]), ms[1..], rule))
  }

  function JointAfter(c: Config, j: Joint, ms: seq<Move>, rule: Rule): Joint
    requires JointRun(c, j, ms, rule)
    decreases |ms|
  {
    if ms == [] then j else JointAfter(c, Moved(c, j, ms[0]), ms[1..], rule)
  }

  // ----- the condition

  /** Jobs of members other than the winner, begun under the former primary. */
  ghost predicate WellJobs(c: Config, j: Joint) {
    forall n :: n in j.jobs ==>
      n in c.others && j.s.m.winner != Some(n) &&
      match j.jobs[n]
      case Cloning(d) => d != n && (d == c.former || d in c.others)
      case Joining(to) => to == None || to == Some(c.former)
  }

  /** Whoever replicates does so from the former primary or from the winner. */
  ghost predicate TwoStars(c: Config, s: Sys) {
    forall n :: n in s.f.nodes ==>
      s.f.nodes[n].source == None || s.f.nodes[n].source == Some(c.former) || s.f.nodes[n].source == s.m.winner
  }

  /** Asked for the sake of the nodes under a job: nobody replicates from them. */
  ghost predicate Starred(c: Config, j: Joint) { j.jobs != map[] ==> TwoStars(c, j.s) }

  /** What is cloned, or was, the winner is sure to execute. */
  ghost predicate JobWithin(j: Joint, n: Name, w: Name, sure: Trxs)
    requires n in j.jobs
  {
    match j.jobs[n]
    case Cloning(d) => d == w || ContainedIn(j.s.f, d, w, sure)
    case Joining(to) => to == None ==> ContainedIn(j.s.f, n, w, sure)
  }

  /** The failover will still repoint the node to the winner. */
  ghost predicate Awaits(c: Config, s: Sys, n: Name)
    requires s.m.winner.Some?
  {
    (s.m.phase == CatchingUp && n in Targets(c, s.m, s.m.winner.value)) || (s.m.phase == Repointing && n in s.m.toDo)
  }

  ghost predicate Donates(j: Joint, n: Name) {
    exists o :: o in j.jobs && j.jobs[o] == Cloning(n)
  }

  /** A node that may first be joined to the former primary and then pass on what it got there: by
      being repointed to the winner, or as the donor of another clone. */
  ghost predicate PassesOn(c: Config, j: Joint, n: Name)
    requires j.s.m.winner.Some?
  {
    n in j.jobs && (Awaits(c, j.s, n) || Donates(j, n))
  }

  ghost predicate JobsWithin(c: Config, j: Joint, rule: Rule)
    requires HasWinner(j.s)
  {
    var w, sure := j.s.m.winner.value, SureNow(j.s, rule);
    (forall n :: n in j.jobs ==> JobWithin(j, n, w, sure)) &&
    forall n :: PassesOn(c, j, n) ==> ContainedIn(j.s.f, c.former, w, sure)
  }

  // ----- one job

  /** Nobody replicates from the node. */
  ghost predicate Leaf(f: Fleet, n: Name) {
    forall m :: m in f.nodes ==> f.nodes[m].source != Some(n)
  }

  lemma {:induction false} BringsPastLeaf(f: Fleet, n: Name, node: Node, m: Name, p: Name, g: Gtid, k: nat)
    requires Leaf(f, n) && n in f.nodes && m != n && Brings(Put(f, n, node), m, p, g, k)
    ensures Brings(f, m, p, g, k)
    decreases k
  {
    if k > 0 {
      BringsPastLeaf(f, n, node, f.nodes[m].source.value, p, g, k - 1);
    }
  }

  lemma {:induction false} WritesPastLeaf(f: Fleet, n: Name, node: Node, m: Name, p: Name, k: nat)
    requires Leaf(f, n) && n in f.nodes && m != n && WritesAbove(Put(f, n, node), m, p, k)
    ensures WritesAbove(f, m, p, k)
    decreases k
  {
    if k > 0 {
      WritesPastLeaf(f, n, node, f.nodes[m].source.value, p, k - 1);
    }
  }

  lemma OthersContained(f: Fleet, n: Name, node: Node, m: Name, p: Name, bound: Trxs)
    requires Leaf(f, n) && n in f.nodes && m != n && ContainedIn(f, m, p, bound)
    ensures ContainedIn(Put(f, n, node), m, p, bound)
  {
    var t := Put(f, n, node);
    forall k: nat ensures !WritesAbove(t, m, p, k) {
      if WritesAbove(t, m, p, k) { WritesPastLeaf(f, n, node, m, p, k); }
    }
    forall g, k: nat | Brings(t, m, p, g, k) ensures g in bound {
      BringsPastLeaf(f, n, node, m, p, g, k);
    }
  }

  /** The changed node itself: its own data, and its source's if that is not the primary. */
  lemma SelfContained(f: Fleet, n: Name, node: Node, p: Name, bound: Trxs)
    requires Leaf(f, n) && n in f.nodes && p in f.nodes && n != p
    requires node.superReadOnly && node.executed + Pending(node) <= bound
    requires node.source.Some? && node.source.value != p ==>
      node.source.value != n && ContainedIn(f, node.source.value, p, bound)
    ensures ContainedIn(Put(f, n, node), n, p, bound)
  {
    var t := Put(f, n, node);
    if node.source.Some? && node.source.value != p {
      OthersContained(f, n, node, node.source.value, p, bound);
    }
    forall k: nat ensures !WritesAbove(t, n, p, k) {
      if k > 0 && node.source.Some? && node.source.value != p {
        assert !WritesAbove(t, node.source.value, p, k - 1);
      }
    }
    forall g, k: nat | Brings(t, n, p, g, k) ensures g in bound {
      if k > 0 {
        assert Brings(t, node.source.value, p, g, k - 1);
      }
    }
  }

  // ----- the invariant

  /** `open` says the former primary has nothing the winner is not sure to execute; otherwise no node
      under a job passes on what it may get there. */
  ghost predicate JobsSafe(c: Config, j: Joint, rule: Rule, open: bool)
    requires HasWinner(j.s)
  {
    var w, sure := j.s.m.winner.value, SureNow(j.s, rule);
    (forall n :: n in j.jobs ==> JobWithin(j, n, w, sure)) &&
    if open then ContainedIn(j.s.f, c.former, w, sure) else forall n :: !PassesOn(c, j, n)
  }

  ghost predicate Orderly(c: Config, j: Joint, rule: Rule, open: bool) {
    Tidy(c, j.s, rule) && Starred(c, j) && WellJobs(c, j) &&
    (j.primary == c.former || (j.primary == j.s.m.winner.value && j.s.m.phase == Promoted)) &&
    (j.s.m.phase != Halted ==> JobsSafe(c, j, rule, open))
  }

  lemma JobIsLeaf(c: Config, j: Joint, n: Name)
    requires TwoStars(c, j.s) && WellJobs(c, j) && n in j.jobs && c.former !in c.others
    ensures Leaf(j.s.f, n)
  {
  }

  // ----- a step of the failover

  lemma TwoStarsStep(c: Config, s: Sys, a: Action)
    requires TwoStars(c, s) && Enabled(c, s, a) && Do(c, s, a).m.winner == s.m.winner
    ensures TwoStars(c, Do(c, s, a))
  {
    hide ViewOf, EnvDo;
    if a.Step? {
      SameNodes(s.f, a.e);
      forall n | n in s.f.nodes ensures EnvDo(s.f, a.e).nodes[n].source == s.f.nodes[n].source {
        SameSource(s.f, a.e, n);
      }
    }
  }

  /** Nothing is said of the primary itself, so it may change freely. */
  lemma {:induction false} BringsUnder(f: Fleet, p: Name, node: Node, m: Name, g: Gtid, k: nat)
    requires p in f.nodes && Brings(Put(f, p, node), m, p, g, k)
    ensures Brings(f, m, p, g, k)
    decreases k
  {
    if k > 0 {
      BringsUnder(f, p, node, f.nodes[m].source.value, g, k - 1);
    }
  }

  lemma {:induction false} WritesUnder(f: Fleet, p: Name, node: Node, m: Name, k: nat)
    requires p in f.nodes && WritesAbove(Put(f, p, node), m, p, k)
    ensures WritesAbove(f, m, p, k)
    decreases k
  {
    if k > 0 {
      WritesUnder(f, p, node, f.nodes[m].source.value, k - 1);
    }
  }

  lemma ContainedUnder(f: Fleet, p: Name, node: Node, m: Name, bound: Trxs)
    requires ContainedIn(f, m, p, bound)
    ensures ContainedIn(Put(f, p, node), m, p, bound)
  {
    var t := Put(f, p, node);
    forall k: nat ensures !WritesAbove(t, m, p, k) {
      if WritesAbove(t, m, p, k) { WritesUnder(f, p, node, m, k); }
    }
    forall g, k: nat | Brings(t, m, p, g, k) ensures g in bound {
      BringsUnder(f, p, node, m, g, k);
    }
  }

  lemma ContainedDo(c: Config, s: Sys, a: Action, m: Name, rule: Rule)
    requires Placed(c, s) && HasWinner(s) && Enabled(c, s, a) && Allowed(s, a, rule)
    requires ContainedIn(s.f, m, s.m.winner.value, SureNow(s, rule)) && Do(c, s, a).m.phase != Halted
    ensures HasWinner(Do(c, s, a)) && Do(c, s, a).m.winner == s.m.winner
    ensures ContainedIn(Do(c, s, a).f, m, s.m.winner.value, SureNow(Do(c, s, a), rule))
  {
    var w, sure := s.m.winner.value, SureNow(s, rule);
    PlacedStep(c, s, a);
    SureStays(c, s, a, rule);
    if a.Promote? {
      ContainedUnder(s.f, w, PromotedNode(s.f.nodes[w]), m, sure);
    } else {
      FitsDo(c, s, a, m, rule);
    }
    WiderFits(Do(c, s, a).f, m, w, sure, SureNow(Do(c, s, a), rule));
  }

  lemma LastPhases(c: Config, s: Sys, a: Action)
    requires PastChoice(s.m) && Enabled(c, s, a)
    ensures s.m.phase == Promoted ==> Do(c, s, a).m.phase == Promoted
    ensures s.m.phase == Halted ==> Do(c, s, a).m.phase == Halted
  {
    hide ViewOf, EnvDo;
  }

  lemma PassesOnBefore(c: Config, j: Joint, a: Action, n: Name)
    requires Placed(c, j.s) && HasWinner(j.s) && Enabled(c, j.s, a)
    requires var t := j.(s := Do(c, j.s, a)); t.s.m.winner == j.s.m.winner && PassesOn(c, t, n)
    ensures PassesOn(c, j, n)
  {
    var t := j.(s := Do(c, j.s, a));
    if Awaits(c, t.s, n) {
      TargetBefore(c, j.s, a, n);
    }
  }

  lemma JobsSafeDo(c: Config, j: Joint, a: Action, rule: Rule, open: bool)
    requires Placed(c, j.s) && HasWinner(j.s) && JobsSafe(c, j, rule, open) && Enabled(c, j.s, a)
    requires Allowed(j.s, a, rule) && Do(c, j.s, a).m.phase != Halted && Do(c, j.s, a).m.winner == j.s.m.winner
    requires HasWinner(Do(c, j.s, a))
    ensures JobsSafe(c, j.(s := Do(c, j.s, a)), rule, open)
  {
    hide Do, Enabled, Allowed, Placed, PassesOn, ContainedIn, SureNow;
    var t := j.(s := Do(c, j.s, a));
    var w := j.s.m.winner.value;
    forall n | n in j.jobs ensures JobWithin(t, n, w, SureNow(t.s, rule)) {
      match j.jobs[n]
      case Cloning(d) => if d != w { ContainedDo(c, j.s, a, d, rule); }
      case Joining(to) => if to == None { ContainedDo(c, j.s, a, n, rule); }
    }
    if open {
      ContainedDo(c, j.s, a, c.former, rule);
    } else {
      forall n ensures !PassesOn(c, t, n) {
        if PassesOn(c, t, n) { PassesOnBefore(c, j, a, n); }
      }
    }
  }

  lemma WellNext(c: Config, j: Joint, s: Sys, next: map<Name, Job>)
    requires WellJobs(c, j) && s.m.winner == j.s.m.winner
    requires forall m :: m in next ==> m in j.jobs && (next[m] == j.jobs[m] || next[m] == Joining(None))
    ensures WellJobs(c, Joint(s, j.primary, next))
  {
  }

  lemma TidyHas(c: Config, s: Sys, rule: Rule)
    requires Tidy(c, s, rule)
    ensures Placed(c, s) && HasWinner(s) && PastChoice(s.m)
  {
  }

  lemma OrderlyFail(c: Config, j: Joint, a: Action, rule: Rule, open: bool)
    requires Orderly(c, j, rule, open) && Enabled(c, j.s, a) && Allowed(j.s, a, rule)
    ensures Orderly(c, j.(s := Do(c, j.s, a)), rule, open)
  {
    TidyHas(c, j.s, rule);
    TidyStep(c, j.s, a, rule);
    TidyHas(c, Do(c, j.s, a), rule);
    if j.jobs != map[] { TwoStarsStep(c, j.s, a); }
    LastPhases(c, j.s, a);
    WellNext(c, j, Do(c, j.s, a), j.jobs);
    hide Do, Enabled, Allowed, Tidy, TwoStars, JobsSafe, WellJobs;
    if Do(c, j.s, a).m.phase != Halted {
      JobsSafeDo(c, j, a, rule, open);
    }
  }

  // ----- a step of a job

  /** What the change of a node under a job must not bring. */
  ghost predicate Fitting(c: Config, j: Joint, n: Name, node: Node, rule: Rule)
    requires HasWinner(j.s)
  {
    var w, sure := j.s.m.winner.value, SureNow(j.s, rule);
    node.executed + Pending(node) <= sure && (node.source == Some(c.former) ==> ContainedIn(j.s.f, c.former, w, sure))
  }

  ghost predicate JobNode(c: Config, j: Joint, n: Name, node: Node)
    requires HasWinner(j.s)
  {
    var w := j.s.m.winner.value;
    n in j.jobs && n in j.s.f.nodes && Passive(node) &&
    (node.source == None || node.source == Some(c.former) ||
     (node.source == Some(w) && node.Have() <= j.s.f.nodes[w].executed))
  }

  lemma NodeContained(c: Config, j: Joint, n: Name, node: Node, rule: Rule)
    requires Placed(c, j.s) && HasWinner(j.s) && TwoStars(c, j.s) && WellJobs(c, j)
    requires JobNode(c, j, n, node) && Fitting(c, j, n, node, rule)
    ensures ContainedIn(Put(j.s.f, n, node), n, j.s.m.winner.value, SureNow(j.s, rule))
  {
    JobIsLeaf(c, j, n);
    SelfContained(j.s.f, n, node, j.s.m.winner.value, SureNow(j.s, rule));
  }

  lemma TidyPut(c: Config, j: Joint, n: Name, node: Node, rule: Rule)
    requires Tidy(c, j.s, rule) && TwoStars(c, j.s) && WellJobs(c, j) && JobNode(c, j, n, node)
    requires Awaits(c, j.s, n) ==> Fitting(c, j, n, node, rule)
    ensures Tidy(c, WithNode(j.s, n, node), rule) && TwoStars(c, WithNode(j.s, n, node))
  {
    var s, w := j.s, j.s.m.winner.value;
    var t := WithNode(s, n, node);
    JobIsLeaf(c, j, n);
    PutKeeps(c, s.f, s.m.winner, n, node);
    CleanAfterPut(s.f, w, n, node);
    assert t.f.nodes[w] == s.f.nodes[w] && SureNow(t, rule) == SureNow(s, rule);
    forall m | Awaits(c, t, m) ensures Fits(t, m, rule) {
      assert Awaits(c, s, m) && Fits(s, m, rule);
      if m == n {
        NodeContained(c, j, n, node, rule);
      } else {
        OthersContained(s.f, n, node, m, w, SureNow(s, rule));
      }
    }
  }

  /** The jobs after a step of the one on `n`: the others as they were; of its own none, its join to
      come, or its clone still. */
  ghost predicate NextJobs(j: Joint, n: Name, next: map<Name, Job>) {
    n in j.jobs &&
    forall m :: m in next ==>
      m in j.jobs && ((m == n && next[m] == Joining(None)) || (next[m] == j.jobs[m] && (m == n ==> next[m].Cloning?)))
  }

  lemma JobsSafePut(c: Config, j: Joint, n: Name, node: Node, next: map<Name, Job>, rule: Rule, open: bool)
    requires Placed(c, j.s) && HasWinner(j.s) && TwoStars(c, j.s) && WellJobs(c, j)
    requires JobNode(c, j, n, node) && NextJobs(j, n, next) && JobsSafe(c, j, rule, open)
    requires Donates(j, n) || (n in next && next[n].Joining?) ==> Fitting(c, j, n, node, rule)
    ensures HasWinner(WithNode(j.s, n, node))
    ensures JobsSafe(c, Joint(WithNode(j.s, n, node), j.primary, next), rule, open)
  {
    var w, sure := j.s.m.winner.value, SureNow(j.s, rule);
    var t := Joint(WithNode(j.s, n, node), j.primary, next);
    JobIsLeaf(c, j, n);
    assert t.s.f.nodes[w] == j.s.f.nodes[w] && SureNow(t.s, rule) == sure;
    hide ContainedIn, Placed, TwoStars, Fitting;
    forall m | m in next ensures JobWithin(t, m, w, sure) {
      if m == n && next[n].Joining? {
        NodeContained(c, j, n, node, rule);
      } else {
        JobPast(c, j, n, node, m, rule);
      }
    }
    if open {
      OthersContained(j.s.f, n, node, c.former, w, sure);
    } else {
      PassesOnFewer(c, j, t);
    }
  }

  lemma PassesOnFewer(c: Config, j: Joint, t: Joint)
    requires j.s.m.winner.Some? && t.s.m == j.s.m && forall n :: !PassesOn(c, j, n)
    requires forall m :: m in t.jobs ==> m in j.jobs && (t.jobs[m] == j.jobs[m] || t.jobs[m] == Joining(None))
    ensures forall n :: !PassesOn(c, t, n)
  {
    hide Targets;
    forall n ensures !PassesOn(c, t, n) {
      assert !PassesOn(c, j, n);
    }
  }

  /** Another node's job, or the node's own clone. */
  lemma JobPast(c: Config, j: Joint, n: Name, node: Node, m: Name, rule: Rule)
    requires Placed(c, j.s) && HasWinner(j.s) && TwoStars(c, j.s) && WellJobs(c, j)
    requires JobNode(c, j, n, node) && m in j.jobs && (m == n ==> j.jobs[m].Cloning?)
    requires JobWithin(j, m, j.s.m.winner.value, SureNow(j.s, rule))
    requires Donates(j, n) ==> Fitting(c, j, n, node, rule)
    ensures JobWithin(j.(s := WithNode(j.s, n, node)), m, j.s.m.winner.value, SureNow(j.s, rule))
  {
    var w, sure := j.s.m.winner.value, SureNow(j.s, rule);
    JobIsLeaf(c, j, n);
    match j.jobs[m]
    case Cloning(d) =>
      if d == n {
        assert Donates(j, n);
        NodeContained(c, j, n, node, rule);
      } else if d != w {
        OthersContained(j.s.f, n, node, d, w, sure);
      }
    case Joining(to) => if to == None { OthersContained(j.s.f, n, node, m, w, sure); }
  }

  lemma OrderlyPut(c: Config, j: Joint, n: Name, node: Node, next: map<Name, Job>, rule: Rule, open: bool)
    requires Orderly(c, j, rule, open) && JobNode(c, j, n, node) && NextJobs(j, n, next)
    requires j.s.m.phase != Halted && (Awaits(c, j.s, n) || Donates(j, n) || (n in next && next[n].Joining?)) ==>
      Fitting(c, j, n, node, rule)
    ensures Orderly(c, Joint(WithNode(j.s, n, node), j.primary, next), rule, open)
  {
    TidyHas(c, j.s, rule);
    TidyPut(c, j, n, node, rule);
    WellNext(c, j, WithNode(j.s, n, node), next);
    hide Tidy, TwoStars, JobsSafe, Fitting, WellJobs, NextJobs, JobNode;
    if j.s.m.phase != Halted {
      JobsSafePut(c, j, n, node, next, rule, open);
    }
  }

  lemma OrderlyFewer(c: Config, j: Joint, n: Name, rule: Rule, open: bool)
    requires Orderly(c, j, rule, open) && n in j.jobs
    ensures Orderly(c, j.(jobs := j.jobs - {n}), rule, open)
  {
    assert HasWinner(j.s);
    hide Tidy, TwoStars, ContainedIn;
    var t := j.(jobs := j.jobs - {n});
    assert forall m :: m in t.jobs ==> m in j.jobs && t.jobs[m] == j.jobs[m];
    if j.s.m.phase != Halted {
      FewerSafe(c, j, n, rule, open);
    }
  }

  lemma FewerSafe(c: Config, j: Joint, n: Name, rule: Rule, open: bool)
    requires HasWinner(j.s) && JobsSafe(c, j, rule, open) && n in j.jobs
    ensures JobsSafe(c, j.(jobs := j.jobs - {n}), rule, open)
  {
    hide ContainedIn, Awaits;
    var t := j.(jobs := j.jobs - {n});
    var w, sure := j.s.m.winner.value, SureNow(j.s, rule);
    forall m | m in t.jobs ensures JobWithin(t, m, w, sure) {
      assert JobWithin(j, m, w, sure);
    }
    if !open {
      forall m ensures !PassesOn(c, t, m) {
        assert !PassesOn(c, j, m);
      }
    }
  }

  /** What a donor that the winner covers has executed is within what the winner is sure of. */
  lemma DonorWithin(j: Joint, n: Name, rule: Rule)
    requires HasWinner(j.s) && n in j.jobs && j.jobs[n].Cloning?
    requires JobWithin(j, n, j.s.m.winner.value, SureNow(j.s, rule))
    ensures j.jobs[n].donor in j.s.f.nodes && j.s.f.nodes[j.jobs[n].donor].executed <= SureNow(j.s, rule)
  {
    if j.jobs[n].donor != j.s.m.winner.value {
      ContainedNow(j.s.f, j.jobs[n].donor, j.s.m.winner.value, SureNow(j.s, rule));
    }
  }

  lemma OrderlyLands(c: Config, j: Joint, n: Name, took: bool, ok: bool, rule: Rule, open: bool)
    requires Orderly(c, j, rule, open) && CanMove(c, j, Lands(n, took, ok))
    ensures Orderly(c, Moved(c, j, Lands(n, took, ok)), rule, open)
  {
    if took {
      var node := RebuiltNode(j.s.f.nodes[n], j.s.f.nodes[j.jobs[n].donor]);
      assert node.executed + Pending(node) == node.executed;
      if j.s.m.phase != Halted {
        DonorWithin(j, n, rule);
      }
      OrderlyPut(c, j, n, node, Moved(c, j, Lands(n, took, ok)).jobs, rule, open);
    } else {
      OrderlyFewer(c, j, n, rule, open);
    }
  }

  /** A node that something still waits for is within what the winner is sure of. */
  lemma NeededWithin(c: Config, j: Joint, n: Name, rule: Rule, open: bool)
    requires Orderly(c, j, rule, open) && n in j.jobs && n in j.s.f.nodes && j.s.m.phase != Halted
    requires Awaits(c, j.s, n) || Donates(j, n)
    ensures j.s.f.nodes[n].executed + Pending(j.s.f.nodes[n]) <= SureNow(j.s, rule)
    ensures ContainedIn(j.s.f, c.former, j.s.m.winner.value, SureNow(j.s, rule))
  {
    assert PassesOn(c, j, n);
    var w, sure := j.s.m.winner.value, SureNow(j.s, rule);
    if Awaits(c, j.s, n) {
      assert Fits(j.s, n, rule);
    } else {
      var o :| o in j.jobs && j.jobs[o] == Cloning(n);
      assert JobWithin(j, o, w, sure);
    }
    ContainedNow(j.s.f, n, w, sure);
  }

  lemma OrderlyBegins(c: Config, j: Joint, n: Name, rule: Rule, open: bool)
    requires Orderly(c, j, rule, open) && CanMove(c, j, Begins(n))
    ensures Orderly(c, Moved(c, j, Begins(n)), rule, open)
  {
    if j.s.m.phase != Halted && (Awaits(c, j.s, n) || Donates(j, n)) {
      NeededWithin(c, j, n, rule, open);
    }
    assert Passive(j.s.f.nodes[n]);
    OrderlyPut(c, j, n, j.s.f.nodes[n].(source := None), j.jobs, rule, open);
  }

  lemma OrderlyJoins(c: Config, j: Joint, n: Name, took: bool, rule: Rule, open: bool)
    requires Orderly(c, j, rule, open) && CanMove(c, j, Joins(n, took))
    ensures Orderly(c, Moved(c, j, Joins(n, took)), rule, open)
  {
    if took {
      var node := RepointedNode(j.s.f.nodes[n], JoinTarget(j, n));
      assert node.executed + Pending(node) == node.executed && node.Have() == node.executed;
      if j.s.m.phase != Halted && (Awaits(c, j.s, n) || Donates(j, n)) {
        NeededWithin(c, j, n, rule, open);
      }
      if JoinTarget(j, n) != c.former {
        assert JobWithin(j, n, j.s.m.winner.value, SureNow(j.s, rule));
        ContainedNow(j.s.f, n, j.s.m.winner.value, SureNow(j.s, rule));
      }
      OrderlyPut(c, j, n, node, Moved(c, j, Joins(n, took)).jobs, rule, open);
    } else {
      OrderlyFewer(c, j, n, rule, open);
    }
  }

  lemma OrderlyMove(c: Config, j: Joint, mv: Move, rule: Rule, open: bool)
    requires Orderly(c, j, rule, open) && CanMove(c, j, mv) && Legal(j, mv, rule)
    ensures Orderly(c, Moved(c, j, mv), rule, open) && Moved(c, j, mv).s.m.winner == j.s.m.winner
  {
    match mv
    case Fail(a) =>
      OrderlyFail(c, j, a, rule, open);
      TidyStep(c, j.s, a, rule);
    case Begins(n) => OrderlyBegins(c, j, n, rule, open);
    case Lands(n, took, ok) => OrderlyLands(c, j, n, took, ok, rule, open);
    case Joins(n, took) => OrderlyJoins(c, j, n, took, rule, open);
    case Adopt => JobsSafeAdopt(c, j, rule, open);
  }

  lemma JobsSafeAdopt(c: Config, j: Joint, rule: Rule, open: bool)
    requires Orderly(c, j, rule, open) && j.s.m.phase == Promoted
    ensures Orderly(c, j.(primary := j.s.m.winner.value), rule, open)
  {
    assert HasWinner(j.s);
    hide Tidy, TwoStars, ContainedIn, Awaits;
    var t := j.(primary := j.s.m.winner.value);
    var w, sure := j.s.m.winner.value, SureNow(j.s, rule);
    assert forall n :: n in j.jobs ==> (JobWithin(t, n, w, sure) <==> JobWithin(j, n, w, sure));
    assert forall n :: PassesOn(c, t, n) <==> PassesOn(c, j, n);
  }

  lemma {:induction false} OrderlyRun(c: Config, j: Joint, ms: seq<Move>, rule: Rule, open: bool)
    requires Orderly(c, j, rule, open) && JointRun(c, j, ms, rule)
    ensures Orderly(c, JointAfter(c, j, ms, rule), rule, open)
    ensures JointAfter(c, j, ms, rule).s.m.winner == j.s.m.winner
    decreases |ms|
  {
    if ms != [] {
      OrderlyMove(c, j, ms[0], rule, open);
      OrderlyRun(c, Moved(c, j, ms[0]), ms[1..], rule, open);
    }
  }

  // ----- a catch-up that cannot finish

  ghost predicate StuckJoint(c: Config, j: Joint, rule: Rule) {
    Stuck(c, j.s, rule) && HasWinner(j.s) && Clean(j.s.f, j.s.m.winner.value) && WellJobs(c, j) && j.primary == c.former
  }

  lemma StuckPut(c: Config, j: Joint, n: Name, node: Node, next: map<Name, Job>, rule: Rule)
    requires StuckJoint(c, j, rule) && n in j.jobs && n in j.s.f.nodes && NextJobs(j, n, next)
    requires Passive(node) && (node.source == None || node.source == Some(c.former))
    ensures StuckJoint(c, Joint(WithNode(j.s, n, node), j.primary, next), rule)
  {
    assert c.former !in c.others && j.s.m.winner != Some(n) && j.s.m.winner != Some(c.former);
    PutKeeps(c, j.s.f, j.s.m.winner, n, node);
    CleanAfterPut(j.s.f, j.s.m.winner.value, n, node);
    WellNext(c, j, WithNode(j.s, n, node), next);
    hide Members, Good, Clean, WellJobs, NextJobs;
  }

  lemma StuckMove(c: Config, j: Joint, mv: Move, rule: Rule)
    requires StuckJoint(c, j, rule) && CanMove(c, j, mv) && Legal(j, mv, rule)
    ensures StuckJoint(c, Moved(c, j, mv), rule) && Moved(c, j, mv).s.m.winner == j.s.m.winner
  {
    match mv
    case Fail(a) =>
      PlacedStep(c, j.s, a);
      CleanDo(c, j.s, a, j.s.m.winner.value);
      if a.Step? {
        StuckEnv(c, j.s, a.e, rule);
      } else {
        StuckManager(c, j.s, a, rule);
      }
    case Begins(n) => StuckPut(c, j, n, j.s.f.nodes[n].(source := None), j.jobs, rule);
    case Lands(n, took, ok) =>
      if took {
        StuckPut(c, j, n, RebuiltNode(j.s.f.nodes[n], j.s.f.nodes[j.jobs[n].donor]), Moved(c, j, mv).jobs, rule);
      }
    case Joins(n, took) =>
      if took {
        StuckPut(c, j, n, RepointedNode(j.s.f.nodes[n], JoinTarget(j, n)), Moved(c, j, mv).jobs, rule);
      }
    case Adopt =>
  }

  lemma {:induction false} StuckJointRun(c: Config, j: Joint, ms: seq<Move>, rule: Rule)
    requires StuckJoint(c, j, rule) && JointRun(c, j, ms, rule)
    ensures StuckJoint(c, JointAfter(c, j, ms, rule), rule)
    ensures JointAfter(c, j, ms, rule).s.m.winner == j.s.m.winner
    decreases |ms|
  {
    if ms != [] {
      StuckMove(c, j, ms[0], rule);
      StuckJointRun(c, Moved(c, j, ms[0]), ms[1..], rule);
    }
  }

  // ----- at the choice

  lemma SafeJoint(c: Config, j: Joint, rule: Rule)
    requires j.s.m.phase == CatchingUp && Attaching(c, j.s) && Starred(c, j) && WellJobs(c, j)
    requires j.primary == c.former && TargetsWithin(c, j.s, rule) && JobsWithin(c, j, rule)
    ensures Orderly(c, j, rule, exists n :: PassesOn(c, j, n))
  {
    hide ContainedIn;
    var open := exists n :: PassesOn(c, j, n);
    if open {
      var n :| PassesOn(c, j, n);
    }
  }

  lemma StuckAtChoice(c: Config, j: Joint, rule: Rule)
    requires j.s.m.phase == CatchingUp && !j.s.m.ioSeenDown && Attaching(c, j.s) && WellJobs(c, j)
    requires j.primary == c.former && !CanFinish(j.s.f.nodes[j.s.m.winner.value], j.s.f.acked, rule)
    ensures StuckJoint(c, j, rule)
  {
  }
}
