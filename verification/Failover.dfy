/** Automatic failover in dbguard mode, dbguard/manager/failover.py, as a transition system.
    The manager's steps, the background fence and the fleet's own steps interleave freely;
    every agent call may succeed, fail before it took effect, or take effect and be reported
    as failed. */
module Failover {
  import opened Intervals
  import opened GtidSets
  import opened Selection
  import opened Fleet

  /** The primary believed dead and the other members, in member order. */
  datatype Config = Config(former: Name, others: seq<Name>)

  datatype Phase = Idle | StoppingIo | Viewing | CatchingUp | Repointing | Promoting | Promoted | Halted

  datatype FenceTask = NotStarted | Running | Answered | GaveUp

  /** `toDo` holds the nodes whose STOP (or whose /repoint) is still outstanding; `landed` says
      the agent carried out the fence, whatever the manager was told. */
  datatype Mgr = Mgr(phase: Phase, fence: FenceTask, landed: bool, toDo: set<Name>, stopFailed: bool,
                     views: map<Name, NodeView>, winner: Option<Name>, ioSeenDown: bool)

  datatype Sys = Sys(f: Fleet, m: Mgr)

  datatype Action =
    | Step(e: Env)
    | Begin(stopList: set<Name>)
    | FenceLands(killed: bool)
    | FenceReturns(answered: bool)
    | StopIo(n: Name, took: bool, ok: bool)
    | Proceed
    | LookAt(n: Name, answered: bool)
    | Choose
    | PollWinner(answered: bool)
    | ReadSqlState
    | GiveUp
    | Repoint(n: Name, took: bool, ok: bool)
    | JoinFence
    | Promote(took: bool, ok: bool)

  predicate BeforeChoice(m: Mgr) { m.phase == Idle || m.phase == StoppingIo || m.phase == Viewing }

  predicate FenceDone(m: Mgr) { m.fence == Answered || m.fence == GaveUp }

  function ViewSeq(c: Config, views: map<Name, NodeView>): seq<NodeView>
    requires forall i :: 0 <= i < |c.others| ==> c.others[i] in views
  {
    seq(|c.others|, i requires 0 <= i < |c.others| => views[c.others[i]])
  }

  predicate AllSeen(c: Config, m: Mgr) {
    forall i :: 0 <= i < |c.others| ==> c.others[i] in m.views
  }

  /** Step 5 goes to every member the views found usable, candidate or not. */
  function Targets(c: Config, m: Mgr, w: Name): set<Name> {
    set n | n in c.others && n != w && n in m.views && m.views[n].Usable()
  }

  predicate HasWinner(s: Sys) { s.m.winner.Some? && s.m.winner.value in s.f.nodes }

  predicate Enabled(c: Config, s: Sys, a: Action) {
    match a
    case Step(e) => EnvEnabled(s.f, e)
    case Begin(stopList) => s.m.phase == Idle && stopList <= (set n | n in c.others)
    case FenceLands(_) => s.m.fence != NotStarted && c.former in s.f.nodes
    case FenceReturns(answered) => s.m.fence == Running && (answered ==> s.m.landed)
    case StopIo(n, took, ok) =>
      s.m.phase == StoppingIo && n in s.m.toDo && n in s.f.nodes && (ok ==> took) && (took ==> s.f.nodes[n].up)
    case Proceed => s.m.phase == StoppingIo && s.m.toDo == {} && (s.m.stopFailed ==> FenceDone(s.m))
    case LookAt(n, answered) => s.m.phase == Viewing && n in c.others && n in s.f.nodes && n !in s.m.views
    case Choose => s.m.phase == Viewing && AllSeen(c, s.m)
    case PollWinner(_) => s.m.phase == CatchingUp && HasWinner(s)
    case ReadSqlState =>
      s.m.phase == CatchingUp && HasWinner(s) && s.m.ioSeenDown &&
      var w := s.f.nodes[s.m.winner.value];
      w.up && w.source.Some? && w.retrieved - w.executed <= w.torn
    case GiveUp => s.m.phase == CatchingUp
    case Repoint(n, took, ok) =>
      s.m.phase == Repointing && HasWinner(s) && n in s.m.toDo && n in s.f.nodes && (ok ==> took)
      && (took ==> s.f.nodes[n].up)
    case JoinFence => s.m.phase == Repointing && s.m.toDo == {} && FenceDone(s.m)
    case Promote(took, ok) =>
      s.m.phase == Promoting && HasWinner(s) && (ok ==> took) && (took ==> s.f.nodes[s.m.winner.value].up)
  }

  function CaughtUp(c: Config, m: Mgr): Mgr
    requires m.winner.Some?
  {
    m.(phase := Repointing, toDo := Targets(c, m, m.winner.value))
  }

  /** What one /status shows the manager. */
  function StatusOf(f: Fleet, n: Name, answered: bool): NodeView
    requires n in f.nodes
  {
    if answered then ViewOf(f, n) else Unreachable(n)
  }

  /** One iteration of `wait_caught_up` on the winner's status. */
  function Polled(c: Config, m: Mgr, v: NodeView): Mgr
    requires m.winner.Some?
  {
    if !v.Usable() then m.(ioSeenDown := false)
    else if v.replica.lastSqlError then m.(phase := Halted)
    else if v.RelayApplied() then CaughtUp(c, m)
    else m.(ioSeenDown := v.replica.ioRunning != Yes)
  }

  function Do(c: Config, s: Sys, a: Action): Sys
    requires Enabled(c, s, a)
  {
    var f, m := s.f, s.m;
    match a
    case Step(e) => Sys(EnvDo(f, e), m)
    case Begin(stopList) => Sys(f, m.(phase := StoppingIo, fence := Running, toDo := stopList))
    case FenceLands(killed) =>
      Sys(Put(f, c.former, FencedNode(f.nodes[c.former], killed)), m.(landed := true))
    case FenceReturns(answered) => Sys(f, m.(fence := if answered then Answered else GaveUp))
    case StopIo(n, took, ok) =>
      Sys(if took then Put(f, n, f.nodes[n].(ioStopped := true)) else f,
          m.(toDo := m.toDo - {n}, stopFailed := m.stopFailed || !ok))
    case Proceed => Sys(f, m.(phase := Viewing, views := map[]))
    case LookAt(n, answered) =>
      Sys(f, m.(views := m.views[n := StatusOf(f, n, answered)]))
    case Choose =>
      var choice := ChoiceOf(ViewSeq(c, m.views), c.former);
      Sys(f, if choice.winner.None? then m.(phase := Halted)
             else m.(phase := CatchingUp, winner := choice.winner, ioSeenDown := false))
    case PollWinner(answered) => Sys(f, Polled(c, m, StatusOf(f, m.winner.value, answered)))
    case ReadSqlState => Sys(f, CaughtUp(c, m))
    case GiveUp => Sys(f, m.(phase := Halted))
    case Repoint(n, took, ok) =>
      Sys(if took then Put(f, n, RepointedNode(f.nodes[n], m.winner.value)) else f, m.(toDo := m.toDo - {n}))
    case JoinFence => Sys(f, m.(phase := Promoting))
    case Promote(took, ok) =>
      Sys(if took then Put(f, m.winner.value, PromotedNode(f.nodes[m.winner.value])) else f,
          m.(phase := if ok then Promoted else Halted))
  }

  /** A schedule: any finite interleaving. */
  predicate Run(c: Config, s: Sys, acts: seq<Action>)
    decreases |acts|
  {
    acts == [] || (Enabled(c, s, acts[0]) && Run(c, Do(c, s, acts[0]), acts[1..]))
  }

  function After(c: Config, s: Sys, acts: seq<Action>): Sys
    requires Run(c, s, acts)
    decreases |acts|
  {
    if acts == [] then s else After(c, Do(c, s, acts[0]), acts[1..])
  }

  lemma {:induction false} RunConcat(c: Config, s: Sys, x: seq<Action>, y: seq<Action>)
    ensures Run(c, s, x + y) <==> Run(c, s, x) && Run(c, After(c, s, x), y)
    ensures Run(c, s, x + y) ==> After(c, s, x + y) == After(c, After(c, s, x), y)
    decreases |x|
  {
    if x == [] {
      assert x + y == y;
    } else {
      assert (x + y)[1..] == x[1..] + y && (x + y)[0] == x[0];
      if Enabled(c, s, x[0]) {
        RunConcat(c, Do(c, s, x[0]), x[1..], y);
      }
    }
  }
}
