/** No spurious halt: replicas fed by one primary that never lose a relay log always hold past
    snapshots of what that primary executed, so the candidates form a chain and one is chosen. */
module FailoverChain {
  import opened Intervals
  import opened GtidSets
  import opened Selection
  import opened Fleet
  import opened Failover
  import opened FailoverSafety
  import opened FailoverLossless

  /** What every member holds, and what every usable view showed. */
  ghost function Snapshots(c: Config, s: Sys): set<Trxs> {
    (set r | r in c.others && r in s.f.nodes :: s.f.nodes[r].Have()) +
    (set n | n in s.m.views && s.m.views[n].Usable() :: s.m.views[n].Have())
  }

  ghost predicate Chain(family: set<Trxs>, top: Trxs) {
    (forall x, y :: x in family && y in family ==> x <= y || y <= x) &&
    forall x :: x in family ==> x <= top
  }

  /** `past` is the history of one growing set, its present value included. */
  ghost predicate Grew(past: set<Trxs>, now: Trxs) {
    now in past && Chain(past, now)
  }

  /** Replicas of one primary, which in its `past` had executed what each of them holds. */
  ghost predicate FedByOne(c: Config, s: Sys, past: set<Trxs>) {
    Members(c, s.f) && Good(c, s.f, None) &&
    (forall n :: n in c.others ==> s.f.nodes[n].source == None || s.f.nodes[n].source == Some(c.former)) &&
    (forall n :: n in s.m.views ==> s.m.views[n].name == n) &&
    Grew(past, s.f.nodes[c.former].executed) && Snapshots(c, s) <= past
  }

  /** The primary's executed set joins the history. */
  ghost function Later(past: set<Trxs>, c: Config, f: Fleet): set<Trxs> {
    if c.former in f.nodes then past + {f.nodes[c.former].executed} else past
  }

  lemma GrewLater(past: set<Trxs>, now: Trxs, next: Trxs)
    requires Grew(past, now) && now <= next
    ensures Grew(past + {next}, next)
  {
  }

  /** The steps of `FakeFleet.step`: a replica receives everything its source has, in one piece,
      and no member restarts. */
  predicate WholeSteps(c: Config, s: Sys, a: Action) {
    match a
    case Step(Receive(r, got)) => r in s.f.nodes ==> got == Missing(s.f, r)
    case Step(Tear(_, _)) => false
    case Step(Restart(n)) => n !in c.others
    case _ => true
  }

  lemma ReceiveTakesAll(c: Config, s: Sys, r: Name, got: Trxs, past: set<Trxs>)
    requires FedByOne(c, s, past) && EnvEnabled(s.f, Receive(r, got)) && got == Missing(s.f, r)
    requires r in c.others
    ensures EnvDo(s.f, Receive(r, got)).nodes[r].Have() == s.f.nodes[c.former].executed
  {
    assert s.f.nodes[r].Have() in Snapshots(c, s);
  }

  /** The members' part of the family after a change to one node. */
  lemma SnapshotsPut(c: Config, s: Sys, n: Name, node: Node, acked: Trxs, top: Trxs)
    requires n in s.f.nodes && (n in c.others ==> node.Have() == s.f.nodes[n].Have() || node.Have() == top)
    ensures forall x :: x in Snapshots(c, Sys(Put(s.f, n, node).(acked := acked), s.m)) ==>
      x in Snapshots(c, s) || x == top
  {
    var t := Sys(Put(s.f, n, node).(acked := acked), s.m);
    forall x | x in Snapshots(c, t) ensures x in Snapshots(c, s) || x == top {
      if r :| r in c.others && r in t.f.nodes && t.f.nodes[r].Have() == x {
        assert r != n ==> s.f.nodes[r].Have() in Snapshots(c, s);
        assert r == n ==> s.f.nodes[n].Have() in Snapshots(c, s);
      } else {
        var v :| v in s.m.views && s.m.views[v].Usable() && s.m.views[v].Have() == x;
        assert s.m.views[v].Have() in Snapshots(c, s);
      }
    }
  }

  lemma EnvPut(c: Config, s: Sys, e: Env, n: Name, past: set<Trxs>)
    requires FedByOne(c, s, past) && EnvEnabled(s.f, e) && n in s.f.nodes
    requires EnvDo(s.f, e) == Put(s.f, n, EnvDo(s.f, e).nodes[n]).(acked := EnvDo(s.f, e).acked)
    requires var node := EnvDo(s.f, e).nodes[n];
      n in c.others ==> node.Have() == s.f.nodes[n].Have() || node.Have() == s.f.nodes[c.former].executed
    ensures FedByOne(c, Sys(EnvDo(s.f, e), s.m), Later(past, c, EnvDo(s.f, e)))
  {
    var t := Sys(EnvDo(s.f, e), s.m);
    EnvKeepsGood(c, s.f, None, e);
    EnvGrows(s.f, e, c.former);
    EnvGrows(s.f, e, n);
    SnapshotsPut(c, s, n, t.f.nodes[n], t.f.acked, s.f.nodes[c.former].executed);
    GrewLater(past, s.f.nodes[c.former].executed, t.f.nodes[c.former].executed);
  }

  lemma FedByOneEnv(c: Config, s: Sys, e: Env, past: set<Trxs>)
    requires FedByOne(c, s, past) && EnvEnabled(s.f, e) && WholeSteps(c, s, Step(e))
    ensures FedByOne(c, Sys(EnvDo(s.f, e), s.m), Later(past, c, EnvDo(s.f, e)))
  {
    match e
    case Commit(p, g) =>
      assert Sound(s.f.nodes[p]) && p == c.former;
      EnvPut(c, s, e, p, past);
    case Receive(r, got) =>
      if r in c.others { ReceiveTakesAll(c, s, r, got, past); }
      EnvPut(c, s, e, r, past);
    case Tear(r, g) =>
    case Apply(r, got) =>
      assert EnvDo(s.f, e).nodes[r].Have() == s.f.nodes[r].Have();
      EnvPut(c, s, e, r, past);
    case Down(n) => EnvPut(c, s, e, n, past);
    case Wake(n) => EnvPut(c, s, e, n, past);
    case Restart(n) => EnvPut(c, s, e, n, past);
    case SqlFails(n) => EnvPut(c, s, e, n, past);
    case Cut(_, _) => assert Snapshots(c, Sys(EnvDo(s.f, e), s.m)) == Snapshots(c, s);
    case Heal => assert Snapshots(c, Sys(EnvDo(s.f, e), s.m)) == Snapshots(c, s);
  }

  lemma FedByOneNode(c: Config, s: Sys, n: Name, node: Node, m: Mgr, past: set<Trxs>)
    requires FedByOne(c, s, past) && n in s.f.nodes && m.views == s.m.views
    requires node.Have() == s.f.nodes[n].Have() && node.executed == s.f.nodes[n].executed
    requires node.source == s.f.nodes[n].source && Sound(node) && (n != c.former ==> Passive(node))
    ensures FedByOne(c, Sys(Put(s.f, n, node), m), past)
  {
    PutKeeps(c, s.f, None, n, node);
    var t := Sys(Put(s.f, n, node), m);
    SnapshotsPut(c, s, n, node, s.f.acked, s.f.nodes[c.former].executed);
    assert Put(s.f, n, node).(acked := s.f.acked) == Put(s.f, n, node);
    assert Snapshots(c, t) == Snapshots(c, Sys(Put(s.f, n, node), s.m));
  }

  lemma FedByOneLook(c: Config, s: Sys, n: Name, answered: bool, past: set<Trxs>)
    requires FedByOne(c, s, past) && Enabled(c, s, LookAt(n, answered))
    ensures FedByOne(c, Do(c, s, LookAt(n, answered)), past)
  {
    var t := Do(c, s, LookAt(n, answered));
    var v := t.m.views[n];
    if v.Usable() {
      assert v.Have() == s.f.nodes[n].Have() && s.f.nodes[n].Have() in Snapshots(c, s);
    }
    forall x | x in Snapshots(c, t) ensures x in Snapshots(c, s) {
      if !(exists r :: r in c.others && r in t.f.nodes && t.f.nodes[r].Have() == x) {
        var k :| k in t.m.views && t.m.views[k].Usable() && t.m.views[k].Have() == x;
        assert k != n ==> s.m.views[k].Have() in Snapshots(c, s);
      }
    }
  }

  /** The manager's own steps before the choice add nothing to what the members hold. */
  lemma FedByOneManager(c: Config, s: Sys, a: Action, past: set<Trxs>)
    requires FedByOne(c, s, past) && BeforeChoice(s.m) && Enabled(c, s, a) && !a.Step? && a != Choose
    ensures FedByOne(c, Do(c, s, a), past)
  {
    match a
    case FenceLands(killed) =>
      FedByOneNode(c, s, c.former, FencedNode(s.f.nodes[c.former], killed), Do(c, s, a).m, past);
    case StopIo(n, took, ok) =>
      if took {
        FedByOneNode(c, s, n, s.f.nodes[n].(ioStopped := true), Do(c, s, a).m, past);
      } else {
        assert Snapshots(c, Do(c, s, a)) == Snapshots(c, s);
      }
    case LookAt(n, answered) => FedByOneLook(c, s, n, answered, past);
    case Proceed => assert Snapshots(c, Do(c, s, a)) <= Snapshots(c, s);
    case Begin(_) => assert Snapshots(c, Do(c, s, a)) == Snapshots(c, s);
    case FenceReturns(_) => assert Snapshots(c, Do(c, s, a)) == Snapshots(c, s);
    case _ =>
  }

  lemma SamePast(c: Config, s: Sys, past: set<Trxs>)
    requires FedByOne(c, s, past)
    ensures Later(past, c, s.f) == past
  {
  }

  /** Whatever a member holds, or showed, is a set the primary had executed at some time. */
  lemma FedByOneStep(c: Config, s: Sys, a: Action, past: set<Trxs>)
    requires FedByOne(c, s, past) && BeforeChoice(s.m) && Enabled(c, s, a) && WholeSteps(c, s, a) && a != Choose
    ensures FedByOne(c, Do(c, s, a), Later(past, c, Do(c, s, a).f)) && BeforeChoice(Do(c, s, a).m)
  {
    PhaseBefore(c, s, a);
    hide FedByOne, Do;
    if a.Step? {
      FedByOneEnv(c, s, a.e, past);
      StepIsEnv(c, s, a.e);
    } else {
      FedByOneManager(c, s, a, past);
      SamePast(c, Do(c, s, a), past);
    }
  }

  lemma StepIsEnv(c: Config, s: Sys, e: Env)
    requires EnvEnabled(s.f, e)
    ensures Do(c, s, Step(e)) == Sys(EnvDo(s.f, e), s.m)
  {
  }

  lemma PhaseBefore(c: Config, s: Sys, a: Action)
    requires BeforeChoice(s.m) && Enabled(c, s, a) && a != Choose
    ensures BeforeChoice(Do(c, s, a).m)
  {
    hide EnvDo, ViewOf;
  }

  predicate WholeRun(c: Config, s: Sys, acts: seq<Action>)
    requires Run(c, s, acts)
    decreases |acts|
  {
    acts == [] || (WholeSteps(c, s, acts[0]) && acts[0] != Choose && WholeRun(c, Do(c, s, acts[0]), acts[1..]))
  }

  /** What the primary had executed at one state or other of the run. */
  ghost function Past(c: Config, s: Sys, acts: seq<Action>): set<Trxs>
    requires Run(c, s, acts)
    decreases |acts|
  {
    if acts == [] then Later({}, c, s.f) else Later(Past(c, Do(c, s, acts[0]), acts[1..]), c, s.f)
  }

  lemma {:induction false} FedByOneRun(c: Config, s: Sys, acts: seq<Action>, past: set<Trxs>)
    requires FedByOne(c, s, past) && BeforeChoice(s.m) && Run(c, s, acts) && WholeRun(c, s, acts)
    ensures FedByOne(c, After(c, s, acts), past + Past(c, s, acts)) && BeforeChoice(After(c, s, acts).m)
    decreases |acts|
  {
    SamePast(c, s, past);
    if acts == [] {
      assert past + Past(c, s, acts) == past;
    } else {
      hide FedByOne, Do, Enabled, BeforeChoice, WholeSteps;
      var t := Do(c, s, acts[0]);
      FedByOneStep(c, s, acts[0], past);
      FedByOneRun(c, t, acts[1..], Later(past, c, t.f));
      PastStarts(c, t, acts[1..]);
      LaterAbsorbs(past, c, s.f, t.f, Past(c, t, acts[1..]));
    }
  }

  lemma LaterAbsorbs(past: set<Trxs>, c: Config, f: Fleet, t: Fleet, rest: set<Trxs>)
    requires Later(past, c, f) == past && Later({}, c, t) <= rest
    ensures past + Later(rest, c, f) == Later(past, c, t) + rest
  {
  }

  lemma PastStarts(c: Config, s: Sys, acts: seq<Action>)
    requires Run(c, s, acts)
    ensures Later({}, c, s.f) <= Past(c, s, acts)
  {
  }

  lemma SetUpFed(c: Config)
    requires c.former !in c.others
    ensures BeforeChoice(SetUp(c).m) && FedByOne(c, SetUp(c), Later({}, c, SetUp(c).f))
  {
    assert SetUp(c).f.nodes[c.former].executed == {};
    assert forall x :: x in Snapshots(c, SetUp(c)) ==> x == {};
  }

  lemma FedSnapshots(c: Config, s: Sys, past: set<Trxs>)
    requires FedByOne(c, s, past)
    ensures (forall r :: r in c.others ==> r in s.f.nodes && s.f.nodes[r].Have() in past)
    ensures (forall n :: n in s.m.views && s.m.views[n].Usable() ==> s.m.views[n].Have() in past)
  {
    assert forall r :: r in c.others ==> s.f.nodes[r].Have() in Snapshots(c, s);
    assert forall n :: n in s.m.views && s.m.views[n].Usable() ==> s.m.views[n].Have() in Snapshots(c, s);
  }

  /** From an empty set, over every run on which replicas receive whole and none restarts: whatever a
      member holds, and whatever a usable view showed, is what the primary had executed at some state
      of that run. */
  lemma MembersHoldSnapshots(c: Config, acts: seq<Action>)
    requires c.former !in c.others && Run(c, SetUp(c), acts) && WholeRun(c, SetUp(c), acts)
    ensures var t := After(c, SetUp(c), acts);
      (forall r :: r in c.others ==> r in t.f.nodes && t.f.nodes[r].Have() in Past(c, SetUp(c), acts)) &&
      (forall n :: n in t.m.views && t.m.views[n].Usable() ==> t.m.views[n].Have() in Past(c, SetUp(c), acts))
  {
    var s, t := SetUp(c), After(c, SetUp(c), acts);
    SetUpFed(c);
    hide FedByOne, SetUp, Do, Past;
    FedByOneRun(c, s, acts, Later({}, c, s.f));
    PastStarts(c, s, acts);
    assert Later({}, c, s.f) + Past(c, s, acts) == Past(c, s, acts);
    FedSnapshots(c, t, Past(c, s, acts));
  }

  /** The choice never halts for divergence on such a run: with any candidate there is a winner. */
  lemma NoSpuriousHalt(c: Config, s: Sys, acts: seq<Action>, past: set<Trxs>)
    requires FedByOne(c, s, past) && BeforeChoice(s.m) && Run(c, s, acts) && WholeRun(c, s, acts)
    requires Enabled(c, After(c, s, acts), Choose)
    requires exists nv :: IsCandidate(ViewSeq(c, After(c, s, acts).m.views), c.former, nv)
    ensures Do(c, After(c, s, acts), Choose).m.phase == CatchingUp
  {
    FedByOneRun(c, s, acts, past);
    var t := After(c, s, acts);
    var nodes := ViewSeq(c, t.m.views);
    forall a, b | IsCandidate(nodes, c.former, a) && IsCandidate(nodes, c.former, b)
      ensures a.Have() <= b.Have() || b.Have() <= a.Have()
    {
      CandidateInFamily(c, t, a);
      CandidateInFamily(c, t, b);
    }
    ChainIsChosen(nodes, c.former);
  }

  lemma CandidateInFamily(c: Config, s: Sys, nv: NodeView)
    requires AllSeen(c, s.m) && IsCandidate(ViewSeq(c, s.m.views), c.former, nv)
    ensures nv.Have() in Snapshots(c, s)
  {
    var nodes := ViewSeq(c, s.m.views);
    var i :| 0 <= i < |nodes| && nodes[i] == nv;
    assert s.m.views[c.others[i]] == nv && nv.Usable();
  }
}
