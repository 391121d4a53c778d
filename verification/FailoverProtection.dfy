/** How the conditions of the lossless theorem come about: a fence that killed the sessions or IO
    threads stopped on every replica silence the former primary, and members that all answer as
    candidates protect every acknowledged write. */
module FailoverProtection {
  import opened Intervals
  import opened GtidSets
  import opened Selection
  import opened Fleet
  import opened Failover
  import opened FailoverSafety
  import opened FailoverLossless

  // ----- silence

  /** Every replica of the former primary is stopped or still to be stopped. */
  ghost predicate Stopping(c: Config, s: Sys) {
    s.m.phase == StoppingIo && !s.m.stopFailed ==>
      forall n :: Follows(s.f, n, c.former) ==> n in s.m.toDo || s.f.nodes[n].ioStopped
  }

  lemma StoppingStep(c: Config, s: Sys, a: Action)
    requires BeforeChoice(s.m) && Base(c, s) && Stopping(c, s) && Enabled(c, s, a) && a != Choose
    requires a.Begin? ==> forall n :: Follows(s.f, n, c.former) ==> n in a.stopList
    ensures Stopping(c, Do(c, s, a))
  {
    hide Base, Good, ViewOf;
    var t := Do(c, s, a);
    forall n | Follows(t.f, n, c.former) && t.m.phase == StoppingIo && !t.m.stopFailed
      ensures n in t.m.toDo || t.f.nodes[n].ioStopped
    {
      if a.Step? {
        SameNodes(s.f, a.e);
        EnvGrows(s.f, a.e, n);
      }
      assert Follows(s.f, n, c.former);
    }
  }

  /** The stop list covers every replica of the former primary. */
  ghost predicate ListCovers(c: Config, s: Sys, acts: seq<Action>)
    requires Run(c, s, acts)
    decreases |acts|
  {
    acts == [] ||
    ((acts[0].Begin? ==> forall n :: Follows(s.f, n, c.former) ==> n in acts[0].stopList) &&
     ListCovers(c, Do(c, s, acts[0]), acts[1..]))
  }

  ghost predicate NoChoice(acts: seq<Action>) {
    forall i :: 0 <= i < |acts| ==> acts[i] != Choose
  }

  lemma {:induction false} StoppingRun(c: Config, s: Sys, acts: seq<Action>)
    requires BeforeChoice(s.m) && Base(c, s) && Stopping(c, s) && Run(c, s, acts) && NoChoice(acts)
    requires ListCovers(c, s, acts)
    ensures BeforeChoice(After(c, s, acts).m) && Base(c, After(c, s, acts)) && Stopping(c, After(c, s, acts))
    decreases |acts|
  {
    if acts != [] {
      StoppingStep(c, s, acts[0]);
      BaseStep(c, s, acts[0]);
      StoppingRun(c, Do(c, s, acts[0]), acts[1..]);
    }
  }

  /** When the manager goes on to look at the members, the former primary is silenced if every STOP
      succeeded on a list that covers its replicas, or if a fence left it with no session. */
  lemma ProceedSilences(c: Config, s: Sys, acts: seq<Action>)
    requires SetOut(c, s) && Run(c, s, acts) && NoChoice(acts) && Enabled(c, After(c, s, acts), Proceed)
    requires var t := After(c, s, acts);
      (c.former in t.f.nodes && Passive(t.f.nodes[c.former])) || (ListCovers(c, s, acts) && !t.m.stopFailed)
    ensures Silenced(c, Do(c, After(c, s, acts), Proceed).f)
  {
    if ListCovers(c, s, acts) {
      StoppingRun(c, s, acts);
    }
    FormerStays(c, s, acts);
  }

  lemma {:induction false} FormerStays(c: Config, s: Sys, acts: seq<Action>)
    requires c.former in s.f.nodes && Run(c, s, acts)
    ensures c.former in After(c, s, acts).f.nodes
    decreases |acts|
  {
    if acts != [] {
      FormerStays(c, Do(c, s, acts[0]), acts[1..]);
    }
  }

  /** A fence that killed the sessions leaves the former primary passive until the choice. */
  lemma KilledIsPassive(c: Config, s: Sys, acts: seq<Action>)
    requires BeforeChoice(s.m) && Base(c, s) && Enabled(c, s, FenceLands(true))
    requires Run(c, Do(c, s, FenceLands(true)), acts) && NoChoice(acts)
    ensures var t := After(c, Do(c, s, FenceLands(true)), acts);
      c.former in t.f.nodes && Passive(t.f.nodes[c.former])
  {
    BaseStep(c, s, FenceLands(true));
    PassiveRun(c, Do(c, s, FenceLands(true)), acts);
  }

  lemma PassiveStep(c: Config, s: Sys, a: Action)
    requires BeforeChoice(s.m) && Base(c, s) && Passive(s.f.nodes[c.former]) && Enabled(c, s, a) && a != Choose
    ensures c.former in Do(c, s, a).f.nodes && Passive(Do(c, s, a).f.nodes[c.former])
  {
    if a.Step? {
      PassiveEnv(s.f, c.former, a.e);
    }
  }

  lemma {:induction false} PassiveRun(c: Config, s: Sys, acts: seq<Action>)
    requires BeforeChoice(s.m) && Base(c, s) && Passive(s.f.nodes[c.former]) && Run(c, s, acts) && NoChoice(acts)
    ensures c.former in After(c, s, acts).f.nodes && Passive(After(c, s, acts).f.nodes[c.former])
    decreases |acts|
  {
    if acts != [] {
      PassiveStep(c, s, acts[0]);
      BaseStep(c, s, acts[0]);
      PassiveRun(c, Do(c, s, acts[0]), acts[1..]);
    }
  }

  // ----- protection

  /** Some member other than the former primary holds `g`, applied or in its relay log, and its view,
      once read, shows it or is not usable. */
  ghost predicate SeenAt(c: Config, s: Sys, r: Name, g: Gtid) {
    r in c.others && r in s.f.nodes && g in s.f.nodes[r].Have() &&
    (r in s.m.views ==> !s.m.views[r].Usable() || g in s.m.views[r].Have())
  }

  ghost predicate Held(c: Config, s: Sys) {
    forall g :: g in s.f.acked ==> exists r :: SeenAt(c, s, r, g)
  }

  ghost predicate Looking(c: Config, s: Sys) {
    s.m.phase == Viewing && Base(c, s) && Silenced(c, s.f) && Held(c, s)
  }

  /** Members look on: no choice yet, no member restarts. */
  predicate Steady(c: Config, a: Action) {
    a != Choose && !(a.Step? && a.e.Restart? && a.e.n in c.others)
  }

  lemma LookingEnv(c: Config, s: Sys, e: Env)
    requires Looking(c, s) && EnvEnabled(s.f, e) && Steady(c, Step(e))
    ensures Looking(c, Sys(EnvDo(s.f, e), s.m))
  {
    var t := Sys(EnvDo(s.f, e), s.m);
    EnvKeepsGood(c, s.f, None, e);
    EnvKeepsSilence(c, s.f, e);
    EnvAcksOnlyWinner(c, s.f, None, e);
    forall g | g in t.f.acked ensures exists r :: SeenAt(c, t, r, g) {
      var r :| SeenAt(c, s, r, g);
      EnvGrows(s.f, e, r);
      assert SeenAt(c, t, r, g);
    }
  }

  lemma LookingManager(c: Config, s: Sys, a: Action)
    requires Looking(c, s) && Enabled(c, s, a) && Steady(c, a) && !a.Step?
    ensures Looking(c, Do(c, s, a))
  {
    var t := Do(c, s, a);
    BaseStep(c, s, a);
    LookingFleet(c, s, a);
    hide Base, Do, Silenced;
    forall g | g in t.f.acked ensures exists r :: SeenAt(c, t, r, g) {
      var r :| SeenAt(c, s, r, g);
      SeenStays(c, s, a, r, g);
    }
  }

  lemma SeenStays(c: Config, s: Sys, a: Action, r: Name, g: Gtid)
    requires s.m.phase == Viewing && SeenAt(c, s, r, g) && Enabled(c, s, a) && a != Choose && !a.Step?
    ensures SeenAt(c, Do(c, s, a), r, g)
  {
    hide ViewOf;
    if a.LookAt? { ViewHave(s.f, a.n); }
  }

  lemma LookingFleet(c: Config, s: Sys, a: Action)
    requires s.m.phase == Viewing && Silenced(c, s.f) && Enabled(c, s, a) && a != Choose && !a.Step?
    ensures var t := Do(c, s, a); t.m.phase == Viewing && t.f.acked == s.f.acked && Silenced(c, t.f)
  {
    if a.FenceLands? { PutSilenced(c, s.f, c.former, FencedNode(s.f.nodes[c.former], a.killed)); }
  }

  lemma {:induction false} LookingRun(c: Config, s: Sys, acts: seq<Action>)
    requires Looking(c, s) && Run(c, s, acts) && forall i :: 0 <= i < |acts| ==> Steady(c, acts[i])
    ensures Looking(c, After(c, s, acts))
    decreases |acts|
  {
    if acts != [] {
      if acts[0].Step? {
        LookingEnv(c, s, acts[0].e);
      } else {
        LookingManager(c, s, acts[0]);
      }
      LookingRun(c, Do(c, s, acts[0]), acts[1..]);
    }
  }

  /** From the moment the members are looked at, with the former primary silenced and every
      acknowledged write held by some member: if no member restarts and every member answers as a
      candidate, both conditions of the choice hold when it is made. */
  lemma AllCandidatesProtect(c: Config, s: Sys, acts: seq<Action>)
    requires s.m.phase == StoppingIo && Base(c, s) && Silenced(c, s.f) && Enabled(c, s, Proceed)
    requires forall g :: g in s.f.acked ==> exists r :: HeldBy(c, s.f, r, g)
    requires Run(c, Do(c, s, Proceed), acts) && forall i :: 0 <= i < |acts| ==> Steady(c, acts[i])
    requires var t := After(c, Do(c, s, Proceed), acts);
      AllSeen(c, t.m) && forall n :: n in c.others && n in t.m.views ==> CandidateProblem(t.m.views[n]).None?
    ensures var t := After(c, Do(c, s, Proceed), acts); Protected(c, t) && Silenced(c, t.f)
  {
    var s1 := Do(c, s, Proceed);
    forall g | g in s1.f.acked ensures exists r :: SeenAt(c, s1, r, g) {
      var r :| HeldBy(c, s.f, r, g);
      assert SeenAt(c, s1, r, g);
    }
    LookingRun(c, s1, acts);
    SeenIsShown(c, After(c, s1, acts));
  }

  lemma SeenIsShown(c: Config, t: Sys)
    requires Looking(c, t) && AllSeen(c, t.m)
    requires forall n :: n in c.others && n in t.m.views ==> CandidateProblem(t.m.views[n]).None?
    ensures Protected(c, t)
  {
    forall g | g in t.f.acked ensures exists r :: ShownBy(c, t, r, g) {
      var r :| SeenAt(c, t, r, g);
      var i :| 0 <= i < |c.others| && c.others[i] == r;
      assert c.others[i] in t.m.views;
      assert ShownBy(c, t, r, g);
    }
  }

  ghost predicate HeldBy(c: Config, f: Fleet, r: Name, g: Gtid) {
    r in c.others && r in f.nodes && g in f.nodes[r].Have()
  }

  /** Semi-sync keeps every acknowledged write on some member: each step but a member's restart. */
  lemma AcksAreHeld(c: Config, f: Fleet, e: Env)
    requires Members(c, f) && Good(c, f, None) && EnvEnabled(f, e) && !(e.Restart? && e.n in c.others)
    requires forall g :: g in f.acked ==> exists r :: HeldBy(c, f, r, g)
    ensures forall g :: g in EnvDo(f, e).acked ==> exists r :: HeldBy(c, EnvDo(f, e), r, g)
  {
    var t := EnvDo(f, e);
    forall g | g in t.acked ensures exists r :: HeldBy(c, t, r, g) {
      if g in f.acked {
        var r :| HeldBy(c, f, r, g);
        EnvGrows(f, e, r);
        assert HeldBy(c, t, r, g);
      } else {
        NewAckHeld(c, f, e, g);
      }
    }
  }

  lemma NewAckHeld(c: Config, f: Fleet, e: Env, g: Gtid)
    requires Members(c, f) && Good(c, f, None) && EnvEnabled(f, e)
    requires g in EnvDo(f, e).acked && g !in f.acked
    ensures exists r :: HeldBy(c, EnvDo(f, e), r, g)
  {
    assert forall n :: n in f.nodes ==> Sound(f.nodes[n]);
    match e
    case Receive(r, got) =>
      var src := f.nodes[r].source.value;
      assert g in Released(f, r, got) && g in f.nodes[src].waiting;
      assert src == c.former && g !in f.nodes[r].executed && r != c.former;
      assert HeldBy(c, EnvDo(f, e), r, g);
    case _ =>
  }
}
