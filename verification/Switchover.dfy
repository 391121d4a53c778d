/** Planned switchover (dbguard/manager/switchover.py) as a transition system: move the other
    replicas under the candidate, quiesce the primary, catch the candidate up to the quiesced
    primary's final set by the waiter or by polling, then promote it, or promote the old primary
    back. Every agent call may fail with its effect unknown, and the fleet moves in between. */
module Switchover {
  import opened Intervals
  import opened GtidSets
  import opened Selection
  import opened Fleet
  import CatchUp

  /** The old primary and the chosen candidate. */
  datatype Plan = Plan(former: Name, to: Name)

  datatype Phase = Preparing | Quiescing | Waiting | Rereading | Ready | GoingBack
                 | Switched | Restored | Aborted | Halted

  /** `captured` is the set the fence read on the node, `final` what the manager was told,
      `applied` what the last poll of the candidate showed, `checked` says the errant check was
      answered, `writer` is the node whose clients may commit. */
  datatype Desk = Desk(phase: Phase, captured: Option<Trxs>, final: Option<Trxs>, waiterOpen: bool,
                       applied: Option<Trxs>, checked: bool, writer: Name)

  datatype Sys = Sys(f: Fleet, d: Desk)

  datatype Action =
    | Step(e: Env)
    | MoveReplica(n: Name, took: bool)
    | BeginStall(waiterOpen: bool)
    | FenceLands(killed: bool)
    | FenceReturns(answered: bool, withSet: bool)
    | WaiterHolds(readBack: bool)
    | WaiterTimesOut
    | WaiterBreaks
    | Poll
    | ReadSqlState
    | GiveUp
    | Reread(answered: bool)
    | RepointFormer(took: bool)
    | Promote(took: bool, ok: bool)
    | PromoteBack(took: bool, ok: bool)

  predicate Polling(d: Desk) { d.phase == Waiting && (!d.waiterOpen || d.final.None?) }

  predicate Present(p: Plan, f: Fleet) {
    p.former in f.nodes && p.to in f.nodes && p.to != p.former
  }

  predicate Enabled(p: Plan, s: Sys, a: Action) {
    Present(p, s.f) &&
    match a
    case Step(e) => EnvEnabled(s.f, e)
    case MoveReplica(n, took) =>
      s.d.phase == Preparing && n in s.f.nodes && n != p.former && n != p.to && (took ==> s.f.nodes[n].up)
    case BeginStall(_) => s.d.phase == Preparing
    case FenceLands(_) => s.d.phase == Quiescing || s.d.phase == Aborted
    case FenceReturns(answered, withSet) => s.d.phase == Quiescing && (answered ==> s.d.captured.Some?)
    case WaiterHolds(_) =>
      s.d.phase == Waiting && s.d.waiterOpen && s.d.final.Some? && s.f.nodes[p.to].up
      && s.d.final.value <= s.f.nodes[p.to].executed
    case WaiterTimesOut => s.d.phase == Waiting && s.d.waiterOpen && s.d.final.Some?
    case WaiterBreaks => s.d.phase == Waiting && s.d.waiterOpen && s.d.final.Some?
    case Poll => Polling(s.d)
    case ReadSqlState =>
      Polling(s.d) && s.d.applied.Some? && CatchUp.Includes(s.d.final, s.d.applied.value)
      && s.f.nodes[p.to].up && s.f.nodes[p.to].retrieved - s.f.nodes[p.to].executed <= s.f.nodes[p.to].torn
    case GiveUp => Polling(s.d)
    case Reread(answered) => s.d.phase == Rereading && (answered ==> s.f.nodes[p.to].up)
    case RepointFormer(took) => (s.d.phase == Ready || s.d.phase == Switched) && (took ==> s.f.nodes[p.former].up)
    case Promote(took, ok) => s.d.phase == Ready && (ok ==> took) && (took ==> s.f.nodes[p.to].up)
    case PromoteBack(took, ok) => s.d.phase == GoingBack && (ok ==> took) && (took ==> s.f.nodes[p.former].up)
  }

  function Accepted(d: Desk): Desk {
    if d.final.Some? then d.(phase := Rereading) else d.(phase := Ready)
  }

  /** One status of the candidate inside `wait_caught_up`; a status that leaves the SQL thread's
      state to be asked for is remembered in `applied`. */
  function Polled(p: Plan, s: Sys): Desk
    requires p.to in s.f.nodes
  {
    var nv := ViewOf(s.f, p.to);
    match CatchUp.Judge(CatchUp.PollRead(nv, false), s.d.final)
    case Broken => s.d.(phase := GoingBack)
    case CaughtUp => Accepted(s.d)
    case KeepWaiting =>
      if nv.Usable() && nv.replica.ioRunning != Yes &&
         CatchUp.Includes(s.d.final, CatchUp.Applied(nv) + nv.replica.retrieved)
      then s.d.(applied := Some(CatchUp.Applied(nv))) else s.d.(applied := None)
  }

  function Do(p: Plan, s: Sys, a: Action): Sys
    requires Enabled(p, s, a)
  {
    var f, d := s.f, s.d;
    match a
    case Step(e) => Sys(EnvDo(f, e), d)
    case MoveReplica(n, took) => Sys(if took then Put(f, n, RepointedNode(f.nodes[n], p.to)) else f, d)
    case BeginStall(waiterOpen) => Sys(f, d.(phase := Quiescing, waiterOpen := waiterOpen))
    case FenceLands(killed) =>
      Sys(Put(f, p.former, FencedNode(f.nodes[p.former], killed)), d.(captured := Some(f.nodes[p.former].executed)))
    case FenceReturns(answered, withSet) =>
      Sys(f, if answered then d.(phase := Waiting, applied := None, final := if withSet then d.captured else None)
             else d.(phase := Aborted))
    case WaiterHolds(readBack) =>
      Sys(f, if readBack && f.nodes[p.to].executed - d.final.value != {} then d.(phase := GoingBack)
             else d.(phase := Ready, checked := readBack))
    case WaiterTimesOut => Sys(f, d.(phase := GoingBack))
    case WaiterBreaks => Sys(f, d.(waiterOpen := false))
    case Poll => Sys(f, Polled(p, s))
    case ReadSqlState => Sys(f, Accepted(d))
    case GiveUp => Sys(f, d.(phase := GoingBack))
    case Reread(answered) =>
      Sys(f, if answered && d.final.Some? && ViewOf(f, p.to).Have() - d.final.value != {} then d.(phase := GoingBack)
             else d.(phase := Ready, checked := answered))
    case RepointFormer(took) =>
      Sys(if took then Put(f, p.former, RepointedNode(f.nodes[p.former], p.to)) else f, d)
    case Promote(took, ok) =>
      Sys(if took then Put(f, p.to, PromotedNode(f.nodes[p.to])) else f,
          d.(phase := if ok then Switched else Halted, writer := if took then p.to else d.writer))
    case PromoteBack(took, ok) =>
      Sys(if took then Put(f, p.former, PromotedNode(f.nodes[p.former])) else f,
          d.(phase := if ok then Restored else Halted))
  }

  predicate Run(p: Plan, s: Sys, acts: seq<Action>)
    decreases |acts|
  {
    acts == [] || (Enabled(p, s, acts[0]) && Run(p, Do(p, s, acts[0]), acts[1..]))
  }

  function After(p: Plan, s: Sys, acts: seq<Action>): Sys
    requires Run(p, s, acts)
    decreases |acts|
  {
    if acts == [] then s else After(p, Do(p, s, acts[0]), acts[1..])
  }

  // ----- the invariant

  /** A session waits only for what its node has binlogged; only the writer takes writes, as a
      semi-sync source. */
  ghost predicate OneWriter(f: Fleet, w: Name) {
    w in f.nodes && (f.nodes[w].superReadOnly || f.nodes[w].semisyncSource) &&
    forall n :: n in f.nodes ==>
      f.nodes[n].waiting <= f.nodes[n].executed && (n != w ==> f.nodes[n].superReadOnly)
  }

  /** Whatever is or can still get acknowledged without a new write. */
  ghost predicate Bounded(f: Fleet, bound: Trxs) {
    f.acked <= bound && forall n :: n in f.nodes ==> f.nodes[n].waiting <= bound
  }

  predicate Stalled(phase: Phase) {
    phase == Waiting || phase == Rereading || phase == Ready || phase == GoingBack
  }

  ghost predicate Inv(p: Plan, s: Sys) {
    Present(p, s.f) && OneWriter(s.f, s.d.writer) && (s.d.writer == p.former || s.d.writer == p.to) &&
    (Stalled(s.d.phase) ==> s.d.writer == p.former && s.f.nodes[p.former].superReadOnly) &&
    (s.d.phase == Quiescing || s.d.phase == Preparing ==> s.d.writer == p.former) &&
    (s.d.phase == Preparing ==> s.d.captured.None?) &&
    (s.d.phase == Quiescing && s.d.captured.Some? ==>
       s.f.nodes[p.former].superReadOnly && Bounded(s.f, s.d.captured.value)) &&
    (Stalled(s.d.phase) && s.d.final.Some? ==> Bounded(s.f, s.d.final.value)) &&
    (Stalled(s.d.phase) && s.d.applied.Some? ==> s.d.applied.value <= s.f.nodes[p.to].executed) &&
    ((s.d.phase == Rereading || s.d.phase == Ready) && s.d.final.Some? ==>
       s.d.final.value <= s.f.nodes[p.to].executed) &&
    ((s.d.writer == p.to && s.d.final.None?) || Bounded(s.f, s.f.nodes[s.d.writer].executed))
  }

  lemma EnvOneWriter(f: Fleet, w: Name, e: Env)
    requires OneWriter(f, w) && EnvEnabled(f, e)
    ensures OneWriter(EnvDo(f, e), w)
    ensures f.nodes[w].superReadOnly ==> EnvDo(f, e).nodes[w].superReadOnly
  {
  }

  /** While nobody takes writes, the bound stays; the writer's own set bounds its writes too. */
  lemma EnvBounded(f: Fleet, w: Name, e: Env, bound: Trxs)
    requires OneWriter(f, w) && EnvEnabled(f, e) && Bounded(f, bound)
    ensures f.nodes[w].superReadOnly ==> Bounded(EnvDo(f, e), bound)
    ensures bound <= f.nodes[w].executed ==> Bounded(EnvDo(f, e), EnvDo(f, e).nodes[w].executed)
  {
    EnvGrows(f, e, w);
    match e
    case Receive(r, got) =>
      var src := f.nodes[r].source.value;
      assert Released(f, r, got) <= f.nodes[src].waiting;
    case _ =>
  }

  lemma InvEnv(p: Plan, s: Sys, e: Env)
    requires Inv(p, s) && EnvEnabled(s.f, e)
    ensures Inv(p, Sys(EnvDo(s.f, e), s.d))
  {
    var w := s.d.writer;
    EnvOneWriter(s.f, w, e);
    EnvGrows(s.f, e, p.to);
    EnvGrows(s.f, e, p.former);
    if s.d.phase == Quiescing && s.d.captured.Some? {
      EnvBounded(s.f, w, e, s.d.captured.value);
    }
    if Stalled(s.d.phase) && s.d.final.Some? {
      EnvBounded(s.f, w, e, s.d.final.value);
    }
    if Bounded(s.f, s.f.nodes[w].executed) {
      EnvBounded(s.f, w, e, s.f.nodes[w].executed);
    }
  }

  /** What one poll leaves on the desk. */
  lemma PolledPhase(p: Plan, s: Sys)
    requires Enabled(p, s, Poll)
    ensures var d := Polled(p, s);
      d == s.d.(phase := d.phase, applied := d.applied) &&
      (d.phase == GoingBack || d.phase == Waiting || (d.phase == Rereading && d.final.Some?) ||
       (d.phase == Ready && d.final.None?))
  {
    hide CatchUp.Judge, ViewOf;
  }

  /** What the poll showed applied is executed, and an acceptance holds the final set. */
  lemma PolledHolds(p: Plan, s: Sys)
    requires Enabled(p, s, Poll) && (s.d.applied.Some? ==> s.d.applied.value <= s.f.nodes[p.to].executed)
    ensures var d := Polled(p, s);
      (d.phase == Rereading && d.final.Some? ==> d.final.value <= s.f.nodes[p.to].executed) &&
      (d.applied.Some? ==> d.applied.value <= s.f.nodes[p.to].executed)
  {
    var nv := ViewOf(s.f, p.to);
    var r := CatchUp.PollRead(nv, false);
    assert CatchUp.Applied(nv) <= s.f.nodes[p.to].executed;
    if CatchUp.Judge(r, s.d.final) == CatchUp.CaughtUp {
      CatchUp.CaughtUpHoldsTarget(r, s.d.final);
    }
  }

  lemma InvPoll(p: Plan, s: Sys)
    requires Inv(p, s) && Enabled(p, s, Poll)
    ensures Inv(p, Do(p, s, Poll))
  {
    hide OneWriter, Bounded, Polled;
    PolledPhase(p, s);
    PolledHolds(p, s);
  }

  /** One node changes, without a new write or a new session. */
  lemma PutOneWriter(f: Fleet, w: Name, n: Name, node: Node)
    requires OneWriter(f, w) && n in f.nodes && node.executed == f.nodes[n].executed
    requires node.waiting <= f.nodes[n].waiting && (n != w ==> node.superReadOnly)
    requires n == w ==> node.superReadOnly || node.semisyncSource
    ensures OneWriter(Put(f, n, node), w)
    ensures forall bound :: Bounded(f, bound) ==> Bounded(Put(f, n, node), bound)
  {
  }

  lemma InvPut(p: Plan, s: Sys, n: Name, node: Node)
    requires Inv(p, s) && n in s.f.nodes && node.executed == s.f.nodes[n].executed
    requires node.waiting <= s.f.nodes[n].waiting && node.superReadOnly
    ensures Inv(p, Sys(Put(s.f, n, node), s.d))
  {
    PutOneWriter(s.f, s.d.writer, n, node);
  }

  lemma InvFence(p: Plan, s: Sys, killed: bool)
    requires Inv(p, s) && Enabled(p, s, FenceLands(killed))
    ensures Inv(p, Do(p, s, FenceLands(killed)))
  {
    InvPut(p, s, p.former, FencedNode(s.f.nodes[p.former], killed));
  }

  lemma InvBack(p: Plan, s: Sys, ok: bool)
    requires Inv(p, s) && Enabled(p, s, PromoteBack(true, ok))
    ensures Inv(p, Do(p, s, PromoteBack(true, ok)))
  {
    PutOneWriter(s.f, p.former, p.former, PromotedNode(s.f.nodes[p.former]));
  }

  lemma InvPromote(p: Plan, s: Sys, ok: bool)
    requires Inv(p, s) && Enabled(p, s, Promote(true, ok))
    ensures Inv(p, Do(p, s, Promote(true, ok)))
  {
    assert OneWriter(s.f, p.to);
    PutOneWriter(s.f, p.to, p.to, PromotedNode(s.f.nodes[p.to]));
  }

  lemma InvDesk(p: Plan, s: Sys, a: Action)
    requires Inv(p, s) && Enabled(p, s, a) && a != Poll && Do(p, s, a).f == s.f
    requires !a.FenceLands? && (a.Promote? || a.PromoteBack? ==> !a.took)
    ensures Inv(p, Do(p, s, a))
  {
    hide OneWriter, Bounded;
  }

  lemma InvStep(p: Plan, s: Sys, a: Action)
    requires Inv(p, s) && Enabled(p, s, a)
    ensures Inv(p, Do(p, s, a))
  {
    hide Inv;
    match a
    case Step(e) => InvEnv(p, s, e);
    case Poll => InvPoll(p, s);
    case FenceLands(killed) => InvFence(p, s, killed);
    case MoveReplica(n, took) =>
      if took { InvPut(p, s, n, RepointedNode(s.f.nodes[n], p.to)); }
    case RepointFormer(took) =>
      if took { InvPut(p, s, p.former, RepointedNode(s.f.nodes[p.former], p.to)); }
    case Promote(took, ok) => if took { InvPromote(p, s, ok); } else { InvDesk(p, s, a); }
    case PromoteBack(took, ok) => if took { InvBack(p, s, ok); } else { InvDesk(p, s, a); }
    case BeginStall(_) => InvDesk(p, s, a);
    case FenceReturns(_, _) => InvDesk(p, s, a);
    case WaiterHolds(_) => InvDesk(p, s, a);
    case WaiterTimesOut => InvDesk(p, s, a);
    case WaiterBreaks => InvDesk(p, s, a);
    case ReadSqlState => InvDesk(p, s, a);
    case GiveUp => InvDesk(p, s, a);
    case Reread(_) => InvDesk(p, s, a);
  }

  lemma {:induction false} InvRun(p: Plan, s: Sys, acts: seq<Action>)
    requires Inv(p, s) && Run(p, s, acts)
    ensures Inv(p, After(p, s, acts))
    decreases |acts|
  {
    if acts != [] {
      InvStep(p, s, acts[0]);
      InvRun(p, Do(p, s, acts[0]), acts[1..]);
    }
  }

  /** A switchover starts on a writable primary that has executed every acknowledged write, and
      whatever a session elsewhere still waits for. */
  ghost predicate Start(p: Plan, s: Sys) {
    Present(p, s.f) && s.d == Desk(Preparing, None, None, false, None, false, p.former) &&
    OneWriter(s.f, p.former) && Bounded(s.f, s.f.nodes[p.former].executed)
  }

  /** No acknowledged write is lost, wherever the run stops: when the fence's answer carried the
      final set, or the candidate was never promoted, the node that takes writes has executed
      every acknowledged transaction, and nobody else takes writes. */
  lemma SwitchoverKeepsAcked(p: Plan, s: Sys, acts: seq<Action>)
    requires Start(p, s) && Run(p, s, acts)
    ensures var t := After(p, s, acts);
      OneWriter(t.f, t.d.writer) &&
      (t.d.final.Some? || t.d.writer == p.former ==> t.f.acked <= t.f.nodes[t.d.writer].executed)
  {
    InvRun(p, s, acts);
  }

  /** A candidate is promoted only after it applied the quiesced primary's whole final set, on the
      waiter path and on the polling path, the torn-tail exit included. */
  lemma PromotedHoldsFinal(p: Plan, s: Sys, acts: seq<Action>, ok: bool)
    requires Start(p, s) && Run(p, s, acts) && Enabled(p, After(p, s, acts), Promote(true, ok))
    ensures var t := After(p, s, acts);
      t.d.final.Some? ==> t.f.acked <= t.d.final.value <= t.f.nodes[p.to].executed
  {
    InvRun(p, s, acts);
  }

  /** Whichever step accepts the candidate with the errant check answered, the candidate's set is
      then exactly the quiesced primary's final set. */
  lemma AcceptedExactly(p: Plan, s: Sys, acts: seq<Action>, a: Action)
    requires Start(p, s) && Run(p, s, acts) && Enabled(p, After(p, s, acts), a)
    requires var t := After(p, s, acts); var u := Do(p, t, a);
      t.d.phase != Ready && u.d.phase == Ready && u.d.checked && u.d.final.Some? && !a.Step?
    ensures var u := Do(p, After(p, s, acts), a);
      u.f.nodes[p.to].executed == u.d.final.value
  {
    InvRun(p, s, acts);
    AcceptedNow(p, After(p, s, acts), a);
  }

  lemma AcceptedNow(p: Plan, t: Sys, a: Action)
    requires Inv(p, t) && Enabled(p, t, a) && t.d.phase != Ready && !a.Step?
    requires var u := Do(p, t, a); u.d.phase == Ready && u.d.checked && u.d.final.Some?
    ensures var u := Do(p, t, a); u.f.nodes[p.to].executed == u.d.final.value
  {
    hide OneWriter, Bounded;
    match a
    case WaiterHolds(readBack) => EmptyDifference(t.f.nodes[p.to].executed, t.d.final.value);
    case Reread(answered) =>
      EmptyDifference(ViewOf(t.f, p.to).Have(), t.d.final.value);
      assert t.f.nodes[p.to].executed <= ViewOf(t.f, p.to).Have();
    case _ =>
  }

  // ----- a fence answer without the final set

  /** No session left on another node can still have a transaction acknowledged that `to` lacks. */
  ghost predicate NoLateAck(f: Fleet, to: Name)
    requires to in f.nodes
  {
    forall n, r, g :: (AckLink(f, n, r) && g in f.nodes[n].waiting) ==>
      g in f.nodes[r].executed || g in f.nodes[to].executed
  }

  ghost predicate Held(p: Plan, f: Fleet) {
    p.to in f.nodes && f.acked <= f.nodes[p.to].executed && NoLateAck(f, p.to)
  }

  ghost predicate WriterHoldsAcked(p: Plan, s: Sys, acts: seq<Action>) {
    Run(p, s, acts) ==>
      var t := After(p, s, acts);
      t.d.writer in t.f.nodes && t.f.acked <= t.f.nodes[t.d.writer].executed
  }

  /** Without the set the manager waits for the candidate's own relay log only. */
  ghost predicate Unknown(p: Plan, s: Sys) {
    Inv(p, s) && s.d.final.None? &&
    (s.d.phase == Waiting || s.d.phase == Ready || s.d.phase == GoingBack ||
     (s.d.phase == Switched && s.d.writer == p.to) || s.d.phase == Restored || s.d.phase == Halted)
  }

  /** Promoted back or never promoted, or the candidate holds all it may have to answer for. */
  ghost predicate Lossless(p: Plan, s: Sys) {
    Unknown(p, s) &&
    ((s.d.writer == p.former && (s.d.phase == Restored || s.d.phase == Halted)) || Held(p, s.f))
  }

  lemma HeldEnv(p: Plan, s: Sys, e: Env)
    requires Unknown(p, s) && Held(p, s.f) && EnvEnabled(s.f, e)
    requires !(s.d.writer == p.former && (s.d.phase == Restored || s.d.phase == Halted))
    ensures Held(p, EnvDo(s.f, e))
  {
    EnvGrows(s.f, e, p.to);
    assert forall n :: n in s.f.nodes && n != p.to ==> s.f.nodes[n].superReadOnly;
    match e
    case Receive(r, got) =>
      var src := s.f.nodes[r].source.value;
      forall g | g in Released(s.f, r, got) ensures g in s.f.nodes[p.to].executed {
        assert AckLink(s.f, src, r) && g in s.f.nodes[src].waiting;
      }
      LinksStay(s.f, p.to, e);
    case _ => LinksStay(s.f, p.to, e);
  }

  lemma LinksStay(f: Fleet, to: Name, e: Env)
    requires to in f.nodes && NoLateAck(f, to) && EnvEnabled(f, e)
    requires forall n :: n in f.nodes && n != to ==> f.nodes[n].superReadOnly
    ensures to in EnvDo(f, e).nodes && NoLateAck(EnvDo(f, e), to)
  {
    hide EnvDo, EnvEnabled;
    var t := EnvDo(f, e);
    EnvGrows(f, e, to);
    forall n, r, g | AckLink(t, n, r) && g in t.nodes[n].waiting
      ensures g in t.nodes[r].executed || g in t.nodes[to].executed
    {
      LinkStays(f, to, e, n, r, g);
      EnvGrows(f, e, r);
    }
  }

  lemma LinkStays(f: Fleet, to: Name, e: Env, n: Name, r: Name, g: Gtid)
    requires to in f.nodes && EnvEnabled(f, e)
    requires AckLink(EnvDo(f, e), n, r) && g in EnvDo(f, e).nodes[n].waiting
    requires n in f.nodes && n != to ==> f.nodes[n].superReadOnly
    ensures n in f.nodes && r in f.nodes && AckLink(f, n, r)
    ensures g in f.nodes[n].waiting || (n == to && g in EnvDo(f, e).nodes[to].executed)
  {
  }

  /** A node repointed to the candidate, or the candidate promoted, opens links to the candidate
      only, whose sessions wait for what it has executed. */
  lemma HeldPut(p: Plan, f: Fleet, n: Name, node: Node)
    requires Held(p, f) && n in f.nodes && node.executed == f.nodes[n].executed
    requires node.waiting == f.nodes[n].waiting && f.nodes[p.to].waiting <= f.nodes[p.to].executed
    requires n != p.to ==> !node.semisyncSource
    requires node.source.None? || node.source == Some(p.to)
    ensures Held(p, Put(f, n, node))
  {
    var t := Put(f, n, node);
    forall m, r, g | AckLink(t, m, r) && g in t.nodes[m].waiting
      ensures g in t.nodes[r].executed || g in t.nodes[p.to].executed
    {
      assert m != p.to ==> AckLink(f, m, r) && g in f.nodes[m].waiting;
    }
  }

  lemma LosslessManager(p: Plan, s: Sys, a: Action)
    requires Lossless(p, s) && Enabled(p, s, a) && !a.Step?
    ensures Lossless(p, Do(p, s, a))
  {
    hide Held, Do, Inv;
    UnknownManager(p, s, a);
    if Held(p, s.f) {
      HeldManager(p, s, a);
    }
  }

  /** Who can be promoted, and where that leaves the run. */
  lemma UnknownManager(p: Plan, s: Sys, a: Action)
    requires Unknown(p, s) && Enabled(p, s, a) && !a.Step?
    ensures var t := Do(p, s, a);
      Unknown(p, t) &&
      (s.d.writer == p.former && (s.d.phase == Restored || s.d.phase == Halted) ==> t.d == s.d) &&
      (a.PromoteBack? ==> t.d.writer == p.former && (t.d.phase == Restored || t.d.phase == Halted))
  {
    assert Stalled(s.d.phase) ==> s.d.writer == p.former;
    InvStep(p, s, a);
    hide Inv, Polled, Put;
    if a.Poll? { PolledPhase(p, s); }
  }

  lemma HeldManager(p: Plan, s: Sys, a: Action)
    requires Unknown(p, s) && Held(p, s.f) && Enabled(p, s, a) && !a.Step?
    ensures Held(p, Do(p, s, a).f) || (a.PromoteBack? && a.took)
  {
    if a.Promote? && a.took {
      HeldPut(p, s.f, p.to, PromotedNode(s.f.nodes[p.to]));
    } else if a.RepointFormer? && a.took {
      HeldPut(p, s.f, p.former, RepointedNode(s.f.nodes[p.former], p.to));
    }
  }

  lemma {:induction false} LosslessRun(p: Plan, s: Sys, acts: seq<Action>)
    requires Lossless(p, s) && Run(p, s, acts)
    ensures Lossless(p, After(p, s, acts))
    decreases |acts|
  {
    if acts != [] {
      if acts[0].Step? {
        InvEnv(p, s, acts[0].e);
        if !(s.d.writer == p.former && (s.d.phase == Restored || s.d.phase == Halted)) {
          HeldEnv(p, s, acts[0].e);
        }
      } else {
        LosslessManager(p, s, acts[0]);
      }
      LosslessRun(p, Do(p, s, acts[0]), acts[1..]);
    }
  }

  /** A failed SQL thread is never called caught up. */
  ghost predicate Refused(p: Plan, s: Sys) {
    Inv(p, s) && s.d.final.None? && s.d.writer == p.former &&
    ((s.d.phase == Waiting && s.f.nodes[p.to].sqlError && s.d.applied.None?) ||
     s.d.phase == GoingBack || s.d.phase == Restored || s.d.phase == Halted)
  }

  lemma {:induction false} RefusedRun(p: Plan, s: Sys, acts: seq<Action>)
    requires Refused(p, s) && Run(p, s, acts)
    ensures Refused(p, After(p, s, acts))
    decreases |acts|
  {
    if acts != [] {
      RefusedStep(p, s, acts[0]);
      RefusedRun(p, Do(p, s, acts[0]), acts[1..]);
    }
  }

  lemma RefusedStep(p: Plan, s: Sys, a: Action)
    requires Refused(p, s) && Enabled(p, s, a)
    ensures Refused(p, Do(p, s, a))
  {
    assert s.d.phase == GoingBack ==> s.d.writer == p.former;
    InvStep(p, s, a);
    hide Inv, Polled, EnvDo;
    match a
    case Step(e) => SqlStaysFailed(s.f, e, p.to);
    case Poll => FailedPoll(p, s);
    case _ =>
  }

  lemma FailedPoll(p: Plan, s: Sys)
    requires Enabled(p, s, Poll) && s.d.final.None? && s.f.nodes[p.to].sqlError && s.d.applied.None?
    ensures var d := Polled(p, s);
      d == s.d.(phase := d.phase, applied := d.applied) &&
      (d.phase == GoingBack || (d.phase == Waiting && d.applied.None?))
  {
  }

  /** The candidate restarts, which drops its relay log, and the next poll calls it caught up. */
  lemma PromoteRun(p: Plan, s: Sys) returns (acts: seq<Action>)
    requires Present(p, s.f) && s.d.phase == Waiting && s.d.final.None? && !s.f.nodes[p.to].sqlError
    requires !(s.f.acked <= s.f.nodes[p.to].executed)
    ensures Run(p, s, acts) && !WriterHoldsAcked(p, s, acts)
  {
    var s1 := Do(p, s, Step(Restart(p.to)));
    assert ViewOf(s1.f, p.to).RelayApplied();
    var s2 := Do(p, s1, Poll);
    assert s2.d.phase == Ready;
    acts := Prepend(p, s2, Promote(true, true), []);
    acts := Prepend(p, s1, Poll, acts);
    acts := Prepend(p, s, Step(Restart(p.to)), acts);
  }

  /** A session that still waits on a quiesced node gets its acknowledgement late. */
  lemma LateAckRun(p: Plan, s: Sys, n: Name, r: Name, g: Gtid) returns (acts: seq<Action>)
    requires Inv(p, s) && s.d.phase == Waiting && s.d.final.None? && !s.f.nodes[p.to].sqlError
    requires AckLink(s.f, n, r) && g in s.f.nodes[n].waiting
    requires g !in s.f.nodes[r].executed && g !in s.f.nodes[p.to].executed
    ensures Run(p, s, acts) && !WriterHoldsAcked(p, s, acts)
  {
    assert g in s.f.nodes[n].executed && n != r;
    hide Inv, Run, After, OneWriter, Bounded;
    var s1 := Do(p, s, Step(Restart(r)));
    var s2 := Do(p, s1, Step(Wake(n)));
    var s3 := Do(p, s2, Step(Heal));
    assert IoOk(s3.f, r) && {g} <= Missing(s3.f, r) && g in Released(s3.f, r, {g});
    var a := Step(Receive(r, {g}));
    var s4 := Do(p, s3, a);
    assert g in s4.f.acked && g !in s4.f.nodes[p.to].executed;
    acts := PromoteRun(p, s4);
    acts := Prepend(p, s3, a, acts);
    acts := Prepend(p, s2, Step(Heal), acts);
    acts := Prepend(p, s1, Step(Wake(n)), acts);
    acts := Prepend(p, s, Step(Restart(r)), acts);
  }

  /** A fence answer without the final set. Over every run from it the writer has executed every
      acknowledged write if and only if the candidate's SQL thread has failed, so that the old
      primary is promoted back, or the candidate has already executed every acknowledged write and
      no session left waiting can have one acknowledged that it has not. */
  lemma UnknownFinalDecides(p: Plan, s: Sys)
    requires Inv(p, s) && s.d.phase == Waiting && s.d.final.None? && s.d.applied.None?
    ensures (forall acts: seq<Action> :: WriterHoldsAcked(p, s, acts)) <==>
      (s.f.nodes[p.to].sqlError || (s.f.acked <= s.f.nodes[p.to].executed && NoLateAck(s.f, p.to)))
  {
    if s.f.nodes[p.to].sqlError {
      forall acts: seq<Action> ensures WriterHoldsAcked(p, s, acts) {
        if Run(p, s, acts) { RefusedRun(p, s, acts); }
      }
    } else if Held(p, s.f) {
      forall acts: seq<Action> ensures WriterHoldsAcked(p, s, acts) {
        if Run(p, s, acts) { LosslessRun(p, s, acts); }
      }
    } else if !(s.f.acked <= s.f.nodes[p.to].executed) {
      var acts := PromoteRun(p, s);
    } else {
      var n, r, g :| AckLink(s.f, n, r) && g in s.f.nodes[n].waiting
        && g !in s.f.nodes[r].executed && g !in s.f.nodes[p.to].executed;
      var acts := LateAckRun(p, s, n, r, g);
    }
  }

  lemma Prepend(p: Plan, s: Sys, a: Action, rest: seq<Action>) returns (acts: seq<Action>)
    requires Enabled(p, s, a) && Run(p, Do(p, s, a), rest)
    ensures Run(p, s, acts) && After(p, s, acts) == After(p, Do(p, s, a), rest)
    ensures acts == [a] + rest
  {
    acts := [a] + rest;
    assert acts[1..] == rest;
  }
}
