/** Exactly when a failover is lossless, judged at the choice of the winner: a condition on the state
    that holds if and only if no allowed schedule ends with a promoted winner that has not executed
    an acknowledged transaction. */
module FailoverLimits {
  import opened Intervals
  import opened GtidSets
  import opened Selection
  import opened Fleet
  import opened Failover
  import opened FailoverSafety
  import opened FailoverLossless

  /** A promote was confirmed and the winner has not executed an acknowledged transaction. */
  ghost predicate Lost(s: Sys) {
    s.m.phase == Promoted && HasWinner(s) && !(s.f.acked <= s.f.nodes[s.m.winner.value].executed)
  }

  /** Leaving the catch-up through the torn tail loses nothing exactly when the unapplied
      transactions are all unacknowledged. */
  lemma TornTailExact(c: Config, s: Sys)
    requires Settled(c, s) && s.m.phase == CatchingUp && Enabled(c, s, ReadSqlState)
    ensures var w := s.f.nodes[s.m.winner.value];
      s.f.acked <= Do(c, s, ReadSqlState).f.nodes[s.m.winner.value].executed
      <==> s.f.acked !! (w.retrieved - w.executed)
  {
    var w := s.f.nodes[s.m.winner.value];
    forall g | g in s.f.acked && s.f.acked !! (w.retrieved - w.executed) ensures g in w.executed {
      assert g in w.Have();
    }
  }

  // ----- the schedules a statement ranges over

  /** All of them; those where the winner does not restart before it has caught up; the fair ones,
      where moreover the torn tail that ends the catch-up holds no acknowledged transaction. */
  datatype Rule = Any | NoEarlyRestart | OnlyFair

  predicate Allowed(s: Sys, a: Action, rule: Rule) {
    match rule
    case Any => true
    case NoEarlyRestart =>
      s.m.phase == CatchingUp && s.m.winner.Some? ==> a != Step(Restart(s.m.winner.value))
    case OnlyFair => Fair(s, a)
  }

  predicate AllowedRun(c: Config, s: Sys, acts: seq<Action>, rule: Rule) {
    Run(c, s, acts) && AllowedFrom(c, s, acts, rule)
  }

  predicate AllowedFrom(c: Config, s: Sys, acts: seq<Action>, rule: Rule)
    requires Run(c, s, acts)
    decreases |acts|
  {
    acts == [] || (Allowed(s, acts[0], rule) && AllowedFrom(c, Do(c, s, acts[0]), acts[1..], rule))
  }

  lemma {:induction false} AllowedConcat(c: Config, s: Sys, x: seq<Action>, y: seq<Action>, rule: Rule)
    requires AllowedRun(c, s, x, rule) && AllowedRun(c, After(c, s, x), y, rule)
    ensures AllowedRun(c, s, x + y, rule) && After(c, s, x + y) == After(c, After(c, s, x), y)
    decreases |x|
  {
    if x == [] {
      assert x + y == y;
    } else {
      assert (x + y)[1..] == x[1..] + y && (x + y)[0] == x[0];
      AllowedConcat(c, Do(c, s, x[0]), x[1..], y, rule);
    }
  }

  lemma First(c: Config, s: Sys, a: Action, rest: seq<Action>, rule: Rule) returns (acts: seq<Action>)
    requires Enabled(c, s, a) && Allowed(s, a, rule) && AllowedRun(c, Do(c, s, a), rest, rule)
    ensures AllowedRun(c, s, acts, rule) && After(c, s, acts) == After(c, Do(c, s, a), rest)
  {
    acts := [a] + rest;
    assert acts[1..] == rest;
  }

  // ----- the condition

  /** The winner was just chosen. */
  ghost predicate AtChoice(c: Config, s: Sys) {
    Placed(c, s) && s.m.phase == CatchingUp && s.m.fence != NotStarted && !s.m.ioSeenDown
  }

  /** What a node is sure to have executed once it has caught up. */
  function Sure(node: Node, rule: Rule): Trxs {
    if rule == Any then node.executed else node.executed + (node.retrieved - node.torn)
  }

  function TornTail(node: Node): Trxs { node.retrieved * node.torn - node.executed }

  /** Some allowed schedule ends the catch-up with a yes. */
  predicate CanFinish(node: Node, acked: Trxs, rule: Rule) {
    !node.sqlError &&
    (rule != Any && TornTail(node) != {} ==> node.source.Some? && (rule == OnlyFair ==> acked !! TornTail(node)))
  }

  /** A replica over which the former primary can still have commits acknowledged. */
  predicate Link(c: Config, f: Fleet, r: Name) {
    r != c.former && AckLink(f, c.former, r)
  }

  /** Nothing can be acknowledged over the link that `sure` does not cover: the former primary takes
      no writes, and what its sessions wait for the replica has executed or `sure` covers. */
  ghost predicate Harmless(c: Config, f: Fleet, r: Name, sure: Trxs)
    requires Link(c, f, r)
  {
    f.nodes[c.former].superReadOnly &&
    forall g :: g in f.nodes[c.former].waiting ==> g in f.nodes[r].executed || g in sure
  }

  ghost predicate NoOpenLink(c: Config, f: Fleet, sure: Trxs) {
    forall r :: Link(c, f, r) ==> Harmless(c, f, r, sure)
  }

  // ----- the condition is enough

  function SureNow(s: Sys, rule: Rule): Trxs
    requires HasWinner(s)
  {
    var w := s.f.nodes[s.m.winner.value];
    if s.m.phase == CatchingUp then Sure(w, rule) else w.executed
  }

  ghost predicate Safe(c: Config, s: Sys, rule: Rule) {
    Placed(c, s) &&
    (s.m.phase != Halted ==> HasWinner(s) && s.f.acked <= SureNow(s, rule) && NoOpenLink(c, s.f, SureNow(s, rule)))
  }

  lemma SureGrows(c: Config, s: Sys, e: Env, rule: Rule)
    requires HasWinner(s) && EnvEnabled(s.f, e) && Allowed(s, Step(e), rule)
    ensures HasWinner(Sys(EnvDo(s.f, e), s.m)) && SureNow(s, rule) <= SureNow(Sys(EnvDo(s.f, e), s.m), rule)
  {
  }

  /** A new acknowledgement is covered. */
  lemma NewAckCovered(c: Config, s: Sys, e: Env, rule: Rule)
    requires Safe(c, s, rule) && s.m.phase != Halted && EnvEnabled(s.f, e)
    ensures EnvDo(s.f, e).acked <= s.f.acked + SureNow(s, rule)
  {
    match e
    case Receive(r, got) =>
      var src := s.f.nodes[r].source.value;
      var w := s.m.winner.value;
      assert Sound(s.f.nodes[w]);
      forall g | g in Released(s.f, r, got) ensures g in SureNow(s, rule) {
        assert g in s.f.nodes[src].waiting && g !in s.f.nodes[r].executed;
        if src == c.former {
          assert Sound(s.f.nodes[src]);
          assert Link(c, s.f, r);
        } else {
          assert src == w;
        }
      }
    case Commit(p, g) =>
      assert Sound(s.f.nodes[p]);
    case _ =>
  }

  lemma LinksShrink(c: Config, s: Sys, e: Env, r: Name, sure: Trxs, more: Trxs)
    requires Placed(c, s) && NoOpenLink(c, s.f, sure) && EnvEnabled(s.f, e) && sure <= more
    requires Link(c, EnvDo(s.f, e), r)
    ensures Harmless(c, EnvDo(s.f, e), r, more)
  {
    assert Sound(s.f.nodes[c.former]);
    assert Link(c, s.f, r);
    assert Harmless(c, s.f, r, sure);
  }

  lemma SafeEnv(c: Config, s: Sys, e: Env, rule: Rule)
    requires Safe(c, s, rule) && EnvEnabled(s.f, e) && Allowed(s, Step(e), rule)
    ensures Safe(c, Sys(EnvDo(s.f, e), s.m), rule)
  {
    PlacedStep(c, s, Step(e));
    if s.m.phase != Halted {
      SureGrows(c, s, e, rule);
      NewAckCovered(c, s, e, rule);
      var t := Sys(EnvDo(s.f, e), s.m);
      forall r | Link(c, t.f, r) ensures Harmless(c, t.f, r, SureNow(t, rule)) {
        LinksShrink(c, s, e, r, SureNow(s, rule), SureNow(t, rule));
      }
    }
  }

  lemma CatchUpExecutes(c: Config, s: Sys, a: Action, rule: Rule)
    requires Safe(c, s, rule) && (a.PollWinner? || a == ReadSqlState) && Enabled(c, s, a)
    ensures Safe(c, Do(c, s, a), rule)
  {
    PlacedStep(c, s, a);
    var w := s.f.nodes[s.m.winner.value];
    if Do(c, s, a).m.phase == Repointing {
      assert Sure(w, rule) <= w.executed;
      assert w.executed <= Sure(w, rule);
    }
  }

  lemma SafeManager(c: Config, s: Sys, a: Action, rule: Rule)
    requires Safe(c, s, rule) && Enabled(c, s, a) && !a.Step? && !a.PollWinner? && a != ReadSqlState
    ensures Safe(c, Do(c, s, a), rule)
  {
    PlacedStep(c, s, a);
    var t := Do(c, s, a);
    if s.m.phase == Halted {
      HaltedStays(c, s, a);
    } else {
      SureUnmoved(c, s, a, rule);
      if t.m.phase != Halted {
        LinksUnmoved(c, s, a, SureNow(s, rule));
      }
    }
    hide Do, Placed, SureNow, NoOpenLink, Enabled;
  }

  lemma LinksUnmoved(c: Config, s: Sys, a: Action, sure: Trxs)
    requires Placed(c, s) && NoOpenLink(c, s.f, sure) && Enabled(c, s, a) && !a.Step?
    ensures NoOpenLink(c, Do(c, s, a).f, sure)
  {
    hide Do, Placed, Enabled, Link;
    var t := Do(c, s, a);
    forall r | Link(c, t.f, r) ensures Harmless(c, t.f, r, sure) {
      ManagerLinks(c, s, a, r);
      assert Harmless(c, s.f, r, sure);
    }
  }

  lemma SureUnmoved(c: Config, s: Sys, a: Action, rule: Rule)
    requires Placed(c, s) && HasWinner(s) && Enabled(c, s, a) && !a.Step? && !a.PollWinner? && a != ReadSqlState
    ensures var t := Do(c, s, a);
      HasWinner(t) && t.f.acked == s.f.acked &&
      (t.m.phase != Halted ==> SureNow(t, rule) == SureNow(s, rule))
  {
    hide Good, ViewOf, Members, Targets;
    AckedStays(c, s, a);
  }

  /** The manager's calls open no link to the former primary and no session on it. */
  lemma ManagerLinks(c: Config, s: Sys, a: Action, r: Name)
    requires Placed(c, s) && Enabled(c, s, a) && !a.Step? && Link(c, Do(c, s, a).f, r)
    ensures Link(c, s.f, r)
    ensures var p, q := s.f.nodes[c.former], Do(c, s, a).f.nodes[c.former];
      (p.superReadOnly ==> q.superReadOnly) && q.waiting <= p.waiting &&
      Do(c, s, a).f.nodes[r].executed == s.f.nodes[r].executed
  {
    hide Good, ViewOf;
  }

  lemma {:induction false} SafeRun(c: Config, s: Sys, acts: seq<Action>, rule: Rule)
    requires Safe(c, s, rule) && AllowedRun(c, s, acts, rule)
    ensures Safe(c, After(c, s, acts), rule)
    decreases |acts|
  {
    if acts != [] {
      if acts[0].Step? {
        SafeEnv(c, s, acts[0].e, rule);
      } else if acts[0].PollWinner? || acts[0] == ReadSqlState {
        CatchUpExecutes(c, s, acts[0], rule);
      } else {
        SafeManager(c, s, acts[0], rule);
      }
      SafeRun(c, Do(c, s, acts[0]), acts[1..], rule);
    }
  }

  // ----- a catch-up that cannot finish promotes nobody

  ghost predicate Stuck(c: Config, s: Sys, rule: Rule) {
    Placed(c, s) &&
    (s.m.phase == Halted ||
     (s.m.phase == CatchingUp && HasWinner(s) &&
      var w := s.f.nodes[s.m.winner.value];
      (w.sqlError && !s.m.ioSeenDown) ||
      (rule != Any && w.source.None? && TornTail(w) != {}) ||
      (rule == OnlyFair && !(s.f.acked !! TornTail(w)))))
  }

  lemma TailStays(c: Config, s: Sys, e: Env, rule: Rule)
    requires Placed(c, s) && s.m.phase == CatchingUp && HasWinner(s) && EnvEnabled(s.f, e)
    requires Allowed(s, Step(e), rule) && rule != Any
    ensures s.m.winner.value in EnvDo(s.f, e).nodes
    ensures TornTail(s.f.nodes[s.m.winner.value]) <= TornTail(EnvDo(s.f, e).nodes[s.m.winner.value])
  {
  }

  lemma StuckEnv(c: Config, s: Sys, e: Env, rule: Rule)
    requires Stuck(c, s, rule) && EnvEnabled(s.f, e) && Allowed(s, Step(e), rule)
    ensures Stuck(c, Sys(EnvDo(s.f, e), s.m), rule)
  {
    PlacedStep(c, s, Step(e));
    if s.m.phase == CatchingUp {
      EnvGrows(s.f, e, s.m.winner.value);
      if rule != Any { TailStays(c, s, e, rule); }
      AckedGrows(s.f, e);
      SqlStaysFailed(s.f, e, s.m.winner.value);
      hide EnvDo, Placed;
    }
  }

  lemma AckedGrows(f: Fleet, e: Env)
    requires EnvEnabled(f, e)
    ensures f.acked <= EnvDo(f, e).acked
  {
  }

  lemma StuckManager(c: Config, s: Sys, a: Action, rule: Rule)
    requires Stuck(c, s, rule) && Enabled(c, s, a) && Allowed(s, a, rule) && !a.Step?
    ensures Stuck(c, Do(c, s, a), rule)
  {
    PlacedStep(c, s, a);
    if s.m.phase == CatchingUp {
      AckedStays(c, s, a);
      var w := s.f.nodes[s.m.winner.value];
      assert TornTail(w) <= w.retrieved - w.executed;
      if a.PollWinner? {
        StuckPoll(c, s, a.answered);
      }
    }
  }

  /** The poll of a winner whose SQL thread has failed halts, and an unapplied tail is not called applied. */
  lemma StuckPoll(c: Config, s: Sys, answered: bool)
    requires Enabled(c, s, PollWinner(answered))
    requires var w := s.f.nodes[s.m.winner.value]; w.sqlError || TornTail(w) != {}
    ensures var w, m := s.f.nodes[s.m.winner.value], Do(c, s, PollWinner(answered)).m;
      (m.phase == CatchingUp || m.phase == Halted) && m.winner == s.m.winner &&
      (m.phase == CatchingUp && !s.m.ioSeenDown && w.sqlError ==> !m.ioSeenDown)
  {
    var w := s.f.nodes[s.m.winner.value];
    if TornTail(w) != {} {
      var g :| g in TornTail(w);
      assert g in w.retrieved && g !in w.executed;
    }
  }

  lemma {:induction false} StuckRun(c: Config, s: Sys, acts: seq<Action>, rule: Rule)
    requires Stuck(c, s, rule) && AllowedRun(c, s, acts, rule)
    ensures Stuck(c, After(c, s, acts), rule)
    decreases |acts|
  {
    if acts != [] {
      if acts[0].Step? {
        StuckEnv(c, s, acts[0].e, rule);
      } else {
        StuckManager(c, s, acts[0], rule);
      }
      StuckRun(c, Do(c, s, acts[0]), acts[1..], rule);
    }
  }

  // ----- the condition is needed: a losing schedule

  /** Every repoint fails, the fence gives up, the promote goes through. */
  lemma {:induction false} FinishRun(c: Config, s: Sys, rule: Rule) returns (acts: seq<Action>)
    requires s.m.phase == Repointing && HasWinner(s) && s.f.nodes[s.m.winner.value].up
    requires s.m.fence != NotStarted
    requires forall n :: n in s.m.toDo ==> n in s.f.nodes
    ensures AllowedRun(c, s, acts, rule)
    ensures var t := After(c, s, acts);
      t.m.phase == Promoted && t.m.winner == s.m.winner &&
      t.f == Put(s.f, s.m.winner.value, PromotedNode(s.f.nodes[s.m.winner.value]))
    decreases |s.m.toDo|
  {
    if s.m.toDo != {} {
      var n :| n in s.m.toDo;
      var rest := FinishRun(c, Do(c, s, Repoint(n, false, false)), rule);
      acts := First(c, s, Repoint(n, false, false), rest, rule);
    } else {
      acts := FenceAndPromote(c, s, rule);
    }
  }

  lemma FenceAndPromote(c: Config, s: Sys, rule: Rule) returns (acts: seq<Action>)
    requires s.m.phase == Repointing && HasWinner(s) && s.f.nodes[s.m.winner.value].up
    requires s.m.fence != NotStarted && s.m.toDo == {}
    ensures AllowedRun(c, s, acts, rule)
    ensures var t := After(c, s, acts);
      t.m.phase == Promoted && t.m.winner == s.m.winner &&
      t.f == Put(s.f, s.m.winner.value, PromotedNode(s.f.nodes[s.m.winner.value]))
  {
    if s.m.fence == Running {
      acts := JoinAndPromote(c, Do(c, s, FenceReturns(false)), rule);
      acts := First(c, s, FenceReturns(false), acts, rule);
    } else {
      acts := JoinAndPromote(c, s, rule);
    }
  }

  lemma JoinAndPromote(c: Config, s: Sys, rule: Rule) returns (acts: seq<Action>)
    requires s.m.phase == Repointing && HasWinner(s) && s.f.nodes[s.m.winner.value].up
    requires FenceDone(s.m) && s.m.toDo == {}
    ensures AllowedRun(c, s, acts, rule)
    ensures var t := After(c, s, acts);
      t.m.phase == Promoted && t.m.winner == s.m.winner &&
      t.f == Put(s.f, s.m.winner.value, PromotedNode(s.f.nodes[s.m.winner.value]))
  {
    acts := First(c, Do(c, s, JoinFence), Promote(true, true), [], rule);
    acts := First(c, s, JoinFence, acts, rule);
  }

  /** Nothing but the winner's own progress tells the two fleets apart. */
  ghost predicate OnlyMoved(f: Fleet, g: Fleet, w: Name) {
    w in f.nodes && g.nodes.Keys == f.nodes.Keys && g.acked == f.acked &&
    (forall n :: n in f.nodes && n != w ==> g.nodes[n] == f.nodes[n]) &&
    g.nodes[w].source == f.nodes[w].source && g.nodes[w].ioStopped == f.nodes[w].ioStopped &&
    g.nodes[w].semisyncReplica == f.nodes[w].semisyncReplica
  }

  ghost predicate CaughtUpWith(c: Config, s: Sys, t: Sys, executed: Trxs) {
    HasWinner(s) && HasWinner(t) && OnlyMoved(s.f, t.f, s.m.winner.value) &&
    t.m.phase == Repointing && t.m.winner == s.m.winner && t.m.fence == s.m.fence &&
    t.m.toDo == Targets(c, s.m, s.m.winner.value) &&
    t.f.nodes[s.m.winner.value].up && t.f.nodes[s.m.winner.value].executed == executed
  }

  lemma RestartRun(c: Config, s: Sys) returns (acts: seq<Action>)
    requires AtChoice(c, s) && HasWinner(s) && !s.f.nodes[s.m.winner.value].sqlError
    ensures AllowedRun(c, s, acts, Any)
    ensures CaughtUpWith(c, s, After(c, s, acts), s.f.nodes[s.m.winner.value].executed)
  {
    var w := s.m.winner.value;
    var s1 := Do(c, s, Step(Restart(w)));
    assert ViewOf(s1.f, w).RelayApplied();
    var s2 := Do(c, s1, PollWinner(true));
    assert CaughtUpWith(c, s, s2, s.f.nodes[w].executed);
    acts := First(c, s1, PollWinner(true), [], Any);
    acts := First(c, s, Step(Restart(w)), acts, Any);
  }

  function SqlTodo(node: Node): Trxs { node.retrieved - node.executed - node.torn }

  lemma AppliedAll(node: Node)
    ensures node.executed + SqlTodo(node) == node.executed + (node.retrieved - node.torn)
    ensures node.retrieved - (node.executed + SqlTodo(node)) == TornTail(node)
  {
  }

  /** Awake and with its SQL thread done. */
  ghost function Applied(s: Sys): Sys
    requires HasWinner(s)
  {
    var w := s.m.winner.value;
    var node := s.f.nodes[w];
    Sys(Put(s.f, w, node.(up := true, executed := node.executed + SqlTodo(node))), s.m)
  }

  lemma WakeAndApply(f: Fleet, n: Name)
    requires n in f.nodes && !f.nodes[n].sqlError
    ensures var node := f.nodes[n];
      var e := Apply(n, SqlTodo(node));
      EnvEnabled(f, Wake(n)) && EnvEnabled(EnvDo(f, Wake(n)), e) &&
      EnvDo(EnvDo(f, Wake(n)), e) == Put(f, n, node.(up := true, executed := node.executed + SqlTodo(node)))
  {
    var node := f.nodes[n];
    assert f.nodes[n := node.(up := true)][n := node.(up := true, executed := node.executed + SqlTodo(node))]
        == f.nodes[n := node.(up := true, executed := node.executed + SqlTodo(node))];
  }

  lemma ApplyRun(c: Config, s: Sys, rest: seq<Action>, rule: Rule) returns (acts: seq<Action>)
    requires HasWinner(s) && !s.f.nodes[s.m.winner.value].sqlError
    requires AllowedRun(c, Applied(s), rest, rule)
    ensures AllowedRun(c, s, acts, rule) && After(c, s, acts) == After(c, Applied(s), rest)
  {
    hide AllowedRun, EnvEnabled, EnvDo;
    var w := s.m.winner.value;
    WakeAndApply(s.f, w);
    var s1 := Do(c, s, Step(Wake(w)));
    var a := Step(Apply(w, SqlTodo(s.f.nodes[w])));
    acts := First(c, s1, a, rest, rule);
    acts := First(c, s, Step(Wake(w)), acts, rule);
  }

  /** With no torn tail the next poll ends the catch-up. */
  lemma PollRun(c: Config, s: Sys, rule: Rule) returns (acts: seq<Action>)
    requires AtChoice(c, s) && HasWinner(s) && rule != Any
    requires var w := s.f.nodes[s.m.winner.value]; !w.sqlError && TornTail(w) == {}
    ensures AllowedRun(c, s, acts, rule)
    ensures CaughtUpWith(c, s, After(c, s, acts), Sure(s.f.nodes[s.m.winner.value], rule))
  {
    var w := s.m.winner.value;
    AppliedAll(s.f.nodes[w]);
    var s1 := Applied(s);
    EmptyDifference(s1.f.nodes[w].retrieved, s1.f.nodes[w].executed);
    assert ViewOf(s1.f, w).RelayApplied();
    assert CaughtUpWith(c, s, Do(c, s1, PollWinner(true)), Sure(s.f.nodes[w], rule));
    acts := First(c, s1, PollWinner(true), [], rule);
    acts := ApplyRun(c, s, acts, rule);
  }

  /** With a torn tail the link goes down, and the manager asks for the SQL thread's state. */
  lemma TornRun(c: Config, s: Sys, rule: Rule) returns (acts: seq<Action>)
    requires AtChoice(c, s) && HasWinner(s) && rule != Any
    requires var w := s.f.nodes[s.m.winner.value];
      !w.sqlError && TornTail(w) != {} && w.source.Some? && (rule == OnlyFair ==> s.f.acked !! TornTail(w))
    ensures AllowedRun(c, s, acts, rule)
    ensures CaughtUpWith(c, s, After(c, s, acts), Sure(s.f.nodes[s.m.winner.value], rule))
  {
    hide AllowedRun, Placed;
    var w := s.m.winner.value;
    AppliedAll(s.f.nodes[w]);
    var s1 := Applied(s);
    var cutLink := Step(Cut(w, s1.f.nodes[w].source.value));
    var s2 := Do(c, s1, cutLink);
    assert TornTail(s.f.nodes[w]) <= s2.f.nodes[w].retrieved - s2.f.nodes[w].executed;
    acts := TornEnd(c, s2, TornTail(s.f.nodes[w]), rule);
    acts := First(c, s1, cutLink, acts, rule);
    acts := ApplyRun(c, s, acts, rule);
  }

  /** A poll that finds the link down, then the question. */
  lemma TornEnd(c: Config, s: Sys, tail: Trxs, rule: Rule) returns (acts: seq<Action>)
    requires s.m.phase == CatchingUp && HasWinner(s) && tail != {} && (rule == OnlyFair ==> s.f.acked !! tail)
    requires var w := s.f.nodes[s.m.winner.value];
      w.up && w.source.Some? && !IoOk(s.f, s.m.winner.value) && !w.sqlError &&
      w.retrieved - w.executed == tail && tail <= w.torn
    ensures AllowedRun(c, s, acts, rule)
    ensures After(c, s, acts) == Sys(s.f, CaughtUp(c, s.m.(ioSeenDown := true)))
  {
    StillTorn(s.f, s.m.winner.value, tail);
    var s1 := Do(c, s, PollWinner(true));
    assert s1 == Sys(s.f, s.m.(ioSeenDown := true));
    acts := First(c, s1, ReadSqlState, [], rule);
    acts := First(c, s, PollWinner(true), acts, rule);
  }

  lemma StillTorn(f: Fleet, n: Name, tail: Trxs)
    requires n in f.nodes && f.nodes[n].up && tail != {} && tail <= f.nodes[n].retrieved - f.nodes[n].executed
    requires f.nodes[n].source.Some?
    ensures !ViewOf(f, n).RelayApplied()
  {
    var g :| g in tail;
    assert g in ViewOf(f, n).replica.retrieved;
  }

  lemma CatchUpRun(c: Config, s: Sys, rule: Rule) returns (acts: seq<Action>)
    requires AtChoice(c, s) && HasWinner(s) && CanFinish(s.f.nodes[s.m.winner.value], s.f.acked, rule)
    ensures AllowedRun(c, s, acts, rule)
    ensures CaughtUpWith(c, s, After(c, s, acts), Sure(s.f.nodes[s.m.winner.value], rule))
  {
    if rule == Any {
      acts := RestartRun(c, s);
    } else if TornTail(s.f.nodes[s.m.winner.value]) == {} {
      acts := PollRun(c, s, rule);
    } else {
      acts := TornRun(c, s, rule);
    }
  }

  // ----- a late acknowledgement over an open link

  /** The replica restarted, so that it fetches again; the former primary up; the links healed. */
  ghost function LinkedUp(c: Config, f: Fleet, r: Name): Fleet
    requires r in f.nodes && c.former in f.nodes && r != c.former
  {
    f.(nodes := f.nodes[r := Restarted(f.nodes[r])][c.former := f.nodes[c.former].(up := true)], cut := {})
  }

  lemma LinkUpRun(c: Config, s: Sys, r: Name, rest: seq<Action>, rule: Rule) returns (acts: seq<Action>)
    requires s.m.phase == Repointing && r in s.f.nodes && c.former in s.f.nodes && r != c.former
    requires AllowedRun(c, Sys(LinkedUp(c, s.f, r), s.m), rest, rule)
    ensures AllowedRun(c, s, acts, rule)
    ensures After(c, s, acts) == After(c, Sys(LinkedUp(c, s.f, r), s.m), rest)
  {
    var s1 := Do(c, s, Step(Restart(r)));
    var s2 := Do(c, s1, Step(Wake(c.former)));
    assert Do(c, s2, Step(Heal)) == Sys(LinkedUp(c, s.f, r), s.m);
    acts := First(c, s2, Step(Heal), rest, rule);
    acts := First(c, s1, Step(Wake(c.former)), acts, rule);
    acts := First(c, s, Step(Restart(r)), acts, rule);
  }

  ghost predicate AckedWithout(s: Sys, t: Sys) {
    t.m == s.m && HasWinner(s) && t.f.nodes.Keys == s.f.nodes.Keys &&
    (s.f.nodes[s.m.winner.value].up ==> t.f.nodes[s.m.winner.value].up) &&
    t.f.nodes[s.m.winner.value].executed == s.f.nodes[s.m.winner.value].executed &&
    !(t.f.acked <= t.f.nodes[s.m.winner.value].executed)
  }

  /** The former primary's session waits for a transaction that only it has executed. */
  lemma WaiterAcked(c: Config, s: Sys, r: Name, g: Gtid, rule: Rule) returns (acts: seq<Action>)
    requires s.m.phase == Repointing && HasWinner(s) && s.m.winner.value != c.former && Link(c, s.f, r)
    requires g in s.f.nodes[c.former].waiting && g in s.f.nodes[c.former].executed
    requires g !in s.f.nodes[r].executed && g !in s.f.nodes[s.m.winner.value].executed
    ensures AllowedRun(c, s, acts, rule) && AckedWithout(s, After(c, s, acts))
  {
    var t := Sys(LinkedUp(c, s.f, r), s.m);
    var a := Step(Receive(r, {g}));
    assert IoOk(t.f, r) && {g} <= Missing(t.f, r);
    assert g in Released(t.f, r, {g});
    assert AckedWithout(s, Do(c, t, a));
    acts := First(c, t, a, [], rule);
    acts := LinkUpRun(c, s, r, acts, rule);
  }

  /** The former primary still takes writes. */
  lemma WriteAcked(c: Config, s: Sys, r: Name, rule: Rule) returns (acts: seq<Action>)
    requires s.m.phase == Repointing && HasWinner(s) && s.m.winner.value != c.former && Link(c, s.f, r)
    requires !s.f.nodes[c.former].superReadOnly
    ensures AllowedRun(c, s, acts, rule) && AckedWithout(s, After(c, s, acts))
  {
    var g := NewTransaction(s.f);
    var s1 := Do(c, s, Step(Wake(c.former)));
    var a := Step(Commit(c.former, g));
    assert Fresh(s1.f, g);
    var s2 := Do(c, s1, a);
    acts := WaiterAcked(c, s2, r, g, rule);
    acts := First(c, s1, a, acts, rule);
    acts := First(c, s, Step(Wake(c.former)), acts, rule);
  }

  lemma LateAck(c: Config, s: Sys, r: Name, rule: Rule) returns (acts: seq<Action>)
    requires s.m.phase == Repointing && HasWinner(s) && s.m.winner.value != c.former && Link(c, s.f, r)
    requires !Harmless(c, s.f, r, s.f.nodes[s.m.winner.value].executed) && Sound(s.f.nodes[c.former])
    ensures AllowedRun(c, s, acts, rule) && AckedWithout(s, After(c, s, acts))
  {
    if s.f.nodes[c.former].superReadOnly {
      var g :| g in s.f.nodes[c.former].waiting && g !in s.f.nodes[r].executed
               && g !in s.f.nodes[s.m.winner.value].executed;
      acts := WaiterAcked(c, s, r, g, rule);
    } else {
      acts := WriteAcked(c, s, r, rule);
    }
  }

  ghost predicate Covered(c: Config, s: Sys, rule: Rule)
    requires HasWinner(s)
  {
    var sure := Sure(s.f.nodes[s.m.winner.value], rule);
    s.f.acked <= sure && NoOpenLink(c, s.f, sure)
  }

  /** The losing schedule: the winner catches up, the open link acknowledges one more write if need
      be, the repoints fail and the promote goes through. */
  lemma LosingRun(c: Config, s: Sys, rule: Rule) returns (acts: seq<Action>)
    requires AtChoice(c, s) && HasWinner(s) && CanFinish(s.f.nodes[s.m.winner.value], s.f.acked, rule)
    requires !Covered(c, s, rule)
    ensures AllowedRun(c, s, acts, rule) && Lost(After(c, s, acts))
  {
    var w := s.m.winner.value;
    var x := CatchUpRun(c, s, rule);
    var t := After(c, s, x);
    var y: seq<Action> := [];
    if s.f.acked <= Sure(s.f.nodes[w], rule) {
      var r :| Link(c, s.f, r) && !Harmless(c, s.f, r, Sure(s.f.nodes[w], rule));
      LinkStays(c, s, t, r);
      y := LateAck(c, t, r, rule);
    }
    var u := After(c, t, y);
    assert Members(c, s.f);
    var z := FinishRun(c, u, rule);
    AllowedConcat(c, t, y, z, rule);
    AllowedConcat(c, s, x, y + z, rule);
    acts := x + (y + z);
  }

  lemma LinkStays(c: Config, s: Sys, t: Sys, r: Name)
    requires AtChoice(c, s) && HasWinner(s) && HasWinner(t) && OnlyMoved(s.f, t.f, s.m.winner.value)
    requires t.m.winner == s.m.winner && Link(c, s.f, r)
    requires !Harmless(c, s.f, r, t.f.nodes[s.m.winner.value].executed)
    ensures Link(c, t.f, r) && Sound(t.f.nodes[c.former])
    ensures !Harmless(c, t.f, r, t.f.nodes[s.m.winner.value].executed)
  {
    assert Follows(s.f, r, c.former) && Sound(s.f.nodes[c.former]);
    assert r != s.m.winner.value ==> t.f.nodes[r] == s.f.nodes[r];
  }

  // ----- the decision

  ghost predicate Keeps(c: Config, s: Sys, acts: seq<Action>, rule: Rule) {
    AllowedRun(c, s, acts, rule) ==> !Lost(After(c, s, acts))
  }

  /** Exactly when a failover is lossless from the choice on. Over all allowed schedules none loses
      an acknowledged write if and only if the catch-up cannot finish at all, or the winner is sure
      to have executed every write acknowledged so far and no link to the former primary can get
      one more acknowledged that it is not. */
  lemma ChoiceDecides(c: Config, s: Sys, rule: Rule)
    requires AtChoice(c, s) && HasWinner(s)
    ensures (forall acts: seq<Action> :: Keeps(c, s, acts, rule)) <==>
      (CanFinish(s.f.nodes[s.m.winner.value], s.f.acked, rule) ==> Covered(c, s, rule))
  {
    if !CanFinish(s.f.nodes[s.m.winner.value], s.f.acked, rule) {
      forall acts: seq<Action> ensures Keeps(c, s, acts, rule) {
        if AllowedRun(c, s, acts, rule) { StuckRun(c, s, acts, rule); }
      }
    } else if Covered(c, s, rule) {
      forall acts: seq<Action> ensures Keeps(c, s, acts, rule) {
        if AllowedRun(c, s, acts, rule) { SafeRun(c, s, acts, rule); }
      }
    } else {
      var acts := LosingRun(c, s, rule);
      assert !Keeps(c, s, acts, rule);
    }
  }

  // ----- what the hypotheses of the lossless theorem mean for the condition

  lemma SilenceClosesLinks(c: Config, f: Fleet, sure: Trxs)
    requires Silenced(c, f)
    ensures NoOpenLink(c, f, sure)
  {
    forall r | Link(c, f, r) ensures Harmless(c, f, r, sure) {
      assert Follows(f, r, c.former);
    }
  }

  /** The winner may restart before it has caught up, which drops its relay log: with the former
      primary silenced every schedule is lossless if and only if the winner's SQL thread has failed
      or the winner has already executed every acknowledged write. */
  lemma RestartDecides(c: Config, s: Sys)
    requires AtChoice(c, s) && HasWinner(s) && Silenced(c, s.f)
    ensures var w := s.f.nodes[s.m.winner.value];
      (forall acts: seq<Action> :: Keeps(c, s, acts, Any)) <==> (w.sqlError || s.f.acked <= w.executed)
  {
    ChoiceDecides(c, s, Any);
    SilenceClosesLinks(c, s.f, s.f.nodes[s.m.winner.value].executed);
  }

  /** The choice protects what its candidates showed: acknowledged writes are protected exactly when
      the winner's view holds them all. */
  lemma ProtectedExactly(c: Config, s: Sys)
    requires Base(c, s) && AllSeen(c, s.m) && ChoiceOf(ViewSeq(c, s.m.views), c.former).winner.Some?
    ensures var w := ChoiceOf(ViewSeq(c, s.m.views), c.former).winner.value;
      w in s.m.views && (Protected(c, s) <==> s.f.acked <= s.m.views[w].Have())
  {
    WinnerOfViews(c, s.m);
    var w := ChoiceOf(ViewSeq(c, s.m.views), c.former).winner.value;
    if Protected(c, s) {
      WinnerShowsAll(c, s);
    } else {
      var g :| g in s.f.acked && !exists r :: ShownBy(c, s, r, g);
      assert !ShownBy(c, s, w, g);
    }
  }

  lemma AllSure(node: Node)
    requires TornTail(node) == {}
    ensures Sure(node, OnlyFair) == node.Have()
  {
    forall g | g in node.retrieved * node.torn ensures g in node.executed {
      assert g !in TornTail(node);
    }
  }

  /** Whether the candidates show every acknowledged write decides: from a choice with the former
      primary silenced, on a view of the winner that is still current, with no torn tail and a
      running SQL thread, every fair schedule is lossless if and only if they do. */
  lemma ProtectionDecides(c: Config, s: Sys)
    requires s.m.phase == Viewing && Base(c, s) && Enabled(c, s, Choose) && Silenced(c, s.f)
    requires s.m.fence != NotStarted && ChoiceOf(ViewSeq(c, s.m.views), c.former).winner.Some?
    ensures var w := ChoiceOf(ViewSeq(c, s.m.views), c.former).winner.value;
      w in s.m.views && w in s.f.nodes &&
      (s.m.views[w].Have() == s.f.nodes[w].Have() && !s.f.nodes[w].sqlError && TornTail(s.f.nodes[w]) == {} ==>
         ((forall acts: seq<Action> :: Keeps(c, Do(c, s, Choose), acts, OnlyFair)) <==> Protected(c, s)))
  {
    ProtectedExactly(c, s);
    ChoiceQuiets(c, s);
    var t := Do(c, s, Choose);
    var w := s.f.nodes[t.m.winner.value];
    ChoiceDecides(c, t, OnlyFair);
    SilenceClosesLinks(c, s.f, Sure(w, OnlyFair));
    if TornTail(w) == {} {
      AllSure(w);
    }
  }
}
