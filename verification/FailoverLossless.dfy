/** The lossless guarantee of a whole failover, for every interleaving of the manager, the fence
    and the fleet. */
module FailoverLossless {
  import opened Intervals
  import opened GtidSets
  import opened Selection
  import opened Fleet
  import opened Failover
  import opened FailoverSafety

  /** Until the choice only the former primary may write, and views are filed under their members. */
  ghost predicate Base(c: Config, s: Sys) {
    Members(c, s.f) && Good(c, s.f, None) && s.m.winner == None &&
    forall n :: n in s.m.views ==> n in c.others && s.m.views[n].name == n
  }

  /** What a view showed, its node still holds. */
  ghost predicate Viewed(c: Config, s: Sys) {
    s.m.phase == Viewing ==>
      forall n :: n in s.m.views && n in s.f.nodes ==> s.m.views[n].Have() <= s.f.nodes[n].Have()
  }

  ghost predicate ShownBy(c: Config, s: Sys, r: Name, g: Gtid) {
    r in c.others && r in s.m.views && CandidateProblem(s.m.views[r]).None? && g in s.m.views[r].Have()
  }

  /** Every acknowledged transaction shows in the view of some candidate. */
  ghost predicate Protected(c: Config, s: Sys) {
    forall g :: g in s.f.acked ==> exists r :: ShownBy(c, s, r, g)
  }

  /** The conditions the guarantee rests on, each on the step where it matters: a member already
      viewed does not restart before the choice, nor the winner before it has caught up; at the
      choice every acknowledged write shows in some candidate and the former primary is silenced;
      the torn tail that ends the catch-up holds no acknowledged write. */
  ghost predicate Careful(c: Config, s: Sys, a: Action) {
    Fair(s, a) &&
    (a.Step? && a.e.Restart? && s.m.phase == Viewing ==> a.e.n !in s.m.views) &&
    (a == Choose ==> Protected(c, s) && Silenced(c, s.f))
  }

  ghost predicate CarefulRun(c: Config, s: Sys, acts: seq<Action>)
    requires Run(c, s, acts)
    decreases |acts|
  {
    acts == [] || (Careful(c, s, acts[0]) && CarefulRun(c, Do(c, s, acts[0]), acts[1..]))
  }

  // ----- before the choice

  lemma BaseStep(c: Config, s: Sys, a: Action)
    requires BeforeChoice(s.m) && Base(c, s) && Enabled(c, s, a) && a != Choose
    ensures Base(c, Do(c, s, a)) && BeforeChoice(Do(c, s, a).m)
  {
    hide Members, Good;
    match a
    case Step(e) => EnvKeepsGood(c, s.f, None, e);
    case FenceLands(killed) => FenceKeeps(c, s.f, None, killed);
    case StopIo(n, took, ok) => if took { StopKeeps(c, s.f, n); }
    case LookAt(n, answered) => ViewHave(s.f, n);
    case _ =>
  }

  lemma ViewHave(f: Fleet, n: Name)
    requires n in f.nodes
    ensures ViewOf(f, n).Usable() ==> ViewOf(f, n).Have() == f.nodes[n].Have()
    ensures ViewOf(f, n).Have() <= f.nodes[n].Have() && ViewOf(f, n).name == n
    ensures !Selection.Unreachable(n).Usable() && Selection.Unreachable(n).Have() == {}
    ensures Selection.Unreachable(n).name == n
  {
  }

  lemma ViewedStep(c: Config, s: Sys, a: Action)
    requires BeforeChoice(s.m) && Base(c, s) && Viewed(c, s) && Enabled(c, s, a) && a != Choose
    requires a.Step? && a.e.Restart? && s.m.phase == Viewing ==> a.e.n !in s.m.views
    ensures Viewed(c, Do(c, s, a))
  {
    hide Base, ViewOf;
    match a
    case Step(e) =>
      forall n | n in s.m.views && n in s.f.nodes && s.m.phase == Viewing
        ensures s.m.views[n].Have() <= EnvDo(s.f, e).nodes[n].Have()
      {
        EnvGrows(s.f, e, n);
      }
    case LookAt(n, answered) => ViewHave(s.f, n);
    case _ =>
  }

  // ----- the choice

  /** The winner of the choice is a candidate, and its view holds every candidate's view. */
  lemma WinnerOfViews(c: Config, m: Mgr)
    requires AllSeen(c, m) && forall n :: n in c.others ==> m.views[n].name == n
    requires ChoiceOf(ViewSeq(c, m.views), c.former).winner.Some?
    ensures var w := ChoiceOf(ViewSeq(c, m.views), c.former).winner.value;
      w in c.others && w in m.views && CandidateProblem(m.views[w]).None? &&
      forall n :: n in c.others && n != c.former && n in m.views && CandidateProblem(m.views[n]).None? ==>
        m.views[n].Have() <= m.views[w].Have()
  {
    hide ChoiceOf;
    var nodes := ViewSeq(c, m.views);
    ChooseExact(nodes, c.former);
    var nv :| HoldsAll(nodes, c.former, nv) && nv.name == ChoiceOf(nodes, c.former).winner.value;
    var i :| 0 <= i < |nodes| && nodes[i] == nv;
    assert c.others[i] in c.others && nv == m.views[c.others[i]];
    forall n | n in c.others && n != c.former && n in m.views && CandidateProblem(m.views[n]).None?
      ensures m.views[n].Have() <= nv.Have()
    {
      var j :| 0 <= j < |c.others| && c.others[j] == n;
      assert nodes[j] == m.views[n];
      assert IsCandidate(nodes, c.former, nodes[j]);
    }
  }

  /** The winner's view holds every protected transaction. */
  lemma WinnerShowsAll(c: Config, s: Sys)
    requires Base(c, s) && AllSeen(c, s.m) && Protected(c, s)
    requires ChoiceOf(ViewSeq(c, s.m.views), c.former).winner.Some?
    ensures var w := ChoiceOf(ViewSeq(c, s.m.views), c.former).winner.value;
      w in s.m.views && s.f.acked <= s.m.views[w].Have()
  {
    hide ChoiceOf, ViewSeq;
    WinnerOfViews(c, s.m);
    var w := ChoiceOf(ViewSeq(c, s.m.views), c.former).winner.value;
    forall g | g in s.f.acked ensures g in s.m.views[w].Have() {
      var r :| ShownBy(c, s, r, g);
    }
  }

  lemma ChoicePlaces(c: Config, s: Sys)
    requires s.m.phase == Viewing && Base(c, s) && Enabled(c, s, Choose)
    ensures Placed(c, Do(c, s, Choose)) && Do(c, s, Choose).f == s.f
  {
    hide ChoiceOf, ViewSeq;
    GoodForAny(c, s.f, ChoiceOf(ViewSeq(c, s.m.views), c.former).winner);
    hide Good, Members;
    if ChoiceOf(ViewSeq(c, s.m.views), c.former).winner.Some? {
      WinnerOfViews(c, s.m);
    }
  }

  /** With no winner yet, fewer nodes may write than with any. */
  lemma GoodForAny(c: Config, f: Fleet, w: Option<Name>)
    requires Good(c, f, None)
    ensures Good(c, f, w)
  {
  }

  /** With the former primary silenced, one node may acknowledge after the choice. */
  lemma ChoiceQuiets(c: Config, s: Sys)
    requires s.m.phase == Viewing && Base(c, s) && Enabled(c, s, Choose) && Silenced(c, s.f)
    ensures Quieted(c, Do(c, s, Choose))
  {
    ChoicePlaces(c, s);
  }

  lemma WinnerInFleet(c: Config, s: Sys)
    requires Placed(c, s)
    ensures PastChoice(s.m) && (s.m.phase != Halted ==> HasWinner(s))
  {
  }

  lemma ChoiceKeepsFleet(c: Config, s: Sys)
    requires Enabled(c, s, Choose)
    ensures var t, w := Do(c, s, Choose), ChoiceOf(ViewSeq(c, s.m.views), c.former).winner;
      t.f == s.f && t.m.views == s.m.views &&
      (w.Some? ==> t.m.phase == CatchingUp && t.m.winner == w && !t.m.ioSeenDown) &&
      (w.None? ==> t.m.phase == Halted)
  {
    hide ChoiceOf, ViewSeq;
  }

  /** What the winner's view showed, the winner holds. */
  lemma WinnerHasView(c: Config, s: Sys)
    requires s.m.phase == Viewing && Base(c, s) && Viewed(c, s) && AllSeen(c, s.m)
    requires ChoiceOf(ViewSeq(c, s.m.views), c.former).winner.Some?
    ensures var w := ChoiceOf(ViewSeq(c, s.m.views), c.former).winner.value;
      w in s.m.views && w in s.f.nodes && s.m.views[w].Have() <= s.f.nodes[w].Have()
  {
    hide ChoiceOf, ViewSeq;
    WinnerOfViews(c, s.m);
  }

  /** The winner of the choice holds every acknowledged write. */
  lemma ChoiceSettles(c: Config, s: Sys)
    requires s.m.phase == Viewing && Base(c, s) && Viewed(c, s) && Enabled(c, s, Choose)
    requires Protected(c, s) && Silenced(c, s.f)
    ensures Do(c, s, Choose).m.phase == Halted || Settled(c, Do(c, s, Choose))
  {
    var t := Do(c, s, Choose);
    ChoiceQuiets(c, s);
    WinnerInFleet(c, t);
    if ChoiceOf(ViewSeq(c, s.m.views), c.former).winner.Some? {
      WinnerShowsAll(c, s);
      WinnerHasView(c, s);
      ChoiceKeepsFleet(c, s);
      hide ChoiceOf, ViewSeq, Quieted, Base, Protected, Viewed, Do, AllSeen, Silenced;
      assert t.m.phase == CatchingUp && s.f.acked <= t.f.nodes[t.m.winner.value].Have();
    }
  }

  // ----- the whole run

  ghost predicate Inv(c: Config, s: Sys) {
    if BeforeChoice(s.m) then Base(c, s) && Viewed(c, s) else s.m.phase == Halted || Settled(c, s)
  }

  lemma InvStep(c: Config, s: Sys, a: Action)
    requires Inv(c, s) && Enabled(c, s, a) && Careful(c, s, a)
    ensures Inv(c, Do(c, s, a))
  {
    if s.m.phase == Halted {
      HaltedStays(c, s, a);
    } else if !BeforeChoice(s.m) {
      InvAfter(c, s, a);
    } else if a == Choose {
      InvChoice(c, s);
    } else {
      InvBefore(c, s, a);
    }
  }

  lemma InvAfter(c: Config, s: Sys, a: Action)
    requires Settled(c, s) && Enabled(c, s, a) && Fair(s, a)
    ensures Inv(c, Do(c, s, a))
  {
    SettledStep(c, s, a);
    WinnerInFleet(c, Do(c, s, a));
    hide Settled, Do;
  }

  lemma InvChoice(c: Config, s: Sys)
    requires s.m.phase == Viewing && Base(c, s) && Viewed(c, s) && Enabled(c, s, Choose)
    requires Protected(c, s) && Silenced(c, s.f)
    ensures Inv(c, Do(c, s, Choose))
  {
    ChoiceSettles(c, s);
    ChoiceQuiets(c, s);
    WinnerInFleet(c, Do(c, s, Choose));
    hide Settled, Do;
  }

  lemma InvBefore(c: Config, s: Sys, a: Action)
    requires BeforeChoice(s.m) && Base(c, s) && Viewed(c, s) && Enabled(c, s, a) && a != Choose
    requires a.Step? && a.e.Restart? && s.m.phase == Viewing ==> a.e.n !in s.m.views
    ensures Inv(c, Do(c, s, a))
  {
    BaseStep(c, s, a);
    ViewedStep(c, s, a);
  }

  lemma HaltedStays(c: Config, s: Sys, a: Action)
    requires s.m.phase == Halted && Enabled(c, s, a)
    ensures Do(c, s, a).m.phase == Halted
  {
  }

  lemma {:induction false} InvRun(c: Config, s: Sys, acts: seq<Action>)
    requires Inv(c, s) && Run(c, s, acts) && CarefulRun(c, s, acts)
    ensures Inv(c, After(c, s, acts))
    decreases |acts|
  {
    if acts != [] {
      InvStep(c, s, acts[0]);
      InvRun(c, Do(c, s, acts[0]), acts[1..]);
    }
  }

  function Unstarted(): Mgr {
    Mgr(Idle, NotStarted, false, {}, false, map[], None, false)
  }

  /** Where a failover sets out: only the former primary takes writes, whatever happened before. */
  ghost predicate SetOut(c: Config, s: Sys) {
    Members(c, s.f) && Good(c, s.f, None) &&
    s.m == Unstarted()
  }

  /** Lossless failover: over every careful interleaving the run either confirms no promote or
      ends with a winner that has executed every acknowledged transaction. */
  lemma LosslessFailover(c: Config, s: Sys, acts: seq<Action>)
    requires SetOut(c, s) && Run(c, s, acts) && CarefulRun(c, s, acts)
    ensures var t := After(c, s, acts);
      t.m.phase == Promoted ==>
        t.m.winner.Some? && t.m.winner.value in t.f.nodes &&
        t.f.acked <= t.f.nodes[t.m.winner.value].executed
  {
    InvRun(c, s, acts);
  }

  // ----- one acknowledging node, from the start

  ghost predicate SilentChoices(c: Config, s: Sys, acts: seq<Action>)
    requires Run(c, s, acts)
    decreases |acts|
  {
    acts == [] ||
    ((acts[0] == Choose ==> Silenced(c, s.f)) && SilentChoices(c, Do(c, s, acts[0]), acts[1..]))
  }

  ghost predicate BaseOrQuieted(c: Config, s: Sys) {
    if BeforeChoice(s.m) then Base(c, s) else Quieted(c, s)
  }

  lemma BaseOrQuietedStep(c: Config, s: Sys, a: Action)
    requires BaseOrQuieted(c, s) && Enabled(c, s, a) && (a == Choose ==> Silenced(c, s.f))
    ensures BaseOrQuieted(c, Do(c, s, a))
  {
    hide Base, Placed, Silenced, Do;
    if !BeforeChoice(s.m) {
      QuietedStep(c, s, a);
      WinnerInFleet(c, Do(c, s, a));
    } else if a == Choose {
      ChoiceQuiets(c, s);
      WinnerInFleet(c, Do(c, s, a));
    } else {
      BaseStep(c, s, a);
    }
  }

  lemma {:induction false} BaseOrQuietedRun(c: Config, s: Sys, acts: seq<Action>)
    requires BaseOrQuieted(c, s) && Run(c, s, acts) && SilentChoices(c, s, acts)
    ensures BaseOrQuieted(c, After(c, s, acts))
    decreases |acts|
  {
    if acts != [] {
      BaseOrQuietedStep(c, s, acts[0]);
      BaseOrQuietedRun(c, Do(c, s, acts[0]), acts[1..]);
    }
  }

  lemma SetOutIsBase(c: Config, s: Sys)
    requires SetOut(c, s)
    ensures BeforeChoice(s.m) && Base(c, s)
  {
  }

  /** One acknowledging node over whole failovers: if the former primary is silenced when the winner
      is chosen, then at every later step, restarts and torn tails included, a newly acknowledged
      commit is one its client waits for on the winner. */
  lemma OnlyWinnerAcknowledges(c: Config, s: Sys, acts: seq<Action>, a: Action)
    requires SetOut(c, s) && Run(c, s, acts) && SilentChoices(c, s, acts) && Enabled(c, After(c, s, acts), a)
    requires PastChoice(After(c, s, acts).m)
    ensures var t := After(c, s, acts);
      forall g :: g in Do(c, t, a).f.acked && g !in t.f.acked ==>
        t.m.winner.Some? && t.m.winner.value in t.f.nodes && g in t.f.nodes[t.m.winner.value].waiting
  {
    SetOutIsBase(c, s);
    BaseOrQuietedRun(c, s, acts);
    AcksOnWinner(c, After(c, s, acts), a);
  }

  /** `setup_replication`: an empty set with one writable semi-sync source. */
  function SetUpNode(c: Config, n: Name): Node {
    if n == c.former
    then Node({}, {}, {}, {}, None, false, false, false, true, false, true, false)
    else Node({}, {}, {}, {}, Some(c.former), false, true, false, false, true, true, false)
  }

  function SetUp(c: Config): Sys {
    Sys(Fleet(map n | n in {c.former} + (set m | m in c.others) :: SetUpNode(c, n), {}, {}),
        Unstarted())
  }

  /** The guarantee from an empty set: whatever the workload, the restarts and the faults before. */
  lemma LosslessFromSetUp(c: Config, acts: seq<Action>)
    requires c.former !in c.others && Run(c, SetUp(c), acts) && CarefulRun(c, SetUp(c), acts)
    ensures var t := After(c, SetUp(c), acts);
      t.m.phase == Promoted ==>
        t.m.winner.Some? && t.m.winner.value in t.f.nodes &&
        t.f.acked <= t.f.nodes[t.m.winner.value].executed
  {
    LosslessFailover(c, SetUp(c), acts);
  }
}
