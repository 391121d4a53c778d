/** What every interleaving of a failover keeps once the winner is chosen: only the winner can
    still have a commit acknowledged, and the winner holds every acknowledged transaction. */
module FailoverSafety {
  import opened Intervals
  import opened GtidSets
  import opened Selection
  import opened Fleet
  import opened Failover

  ghost predicate Members(c: Config, f: Fleet) {
    c.former !in c.others && c.former in f.nodes &&
    (forall n :: n in c.others ==> n in f.nodes) &&
    (forall n :: n in f.nodes ==> n == c.former || n in c.others)
  }

  /** A session waits only for a transaction its node has binlogged, and a node that takes
      writes is a semi-sync source. */
  ghost predicate Sound(node: Node) {
    node.waiting <= node.executed && (node.superReadOnly || node.semisyncSource)
  }

  /** Nobody but the former primary and the winner takes writes or has sessions waiting. */
  ghost predicate Good(c: Config, f: Fleet, w: Option<Name>) {
    forall n :: n in f.nodes ==>
      Sound(f.nodes[n]) && (n != c.former && Some(n) != w ==> Passive(f.nodes[n]))
  }

  ghost predicate Follows(f: Fleet, n: Name, source: Name) {
    n in f.nodes && f.nodes[n].source == Some(source)
  }

  /** The former primary is quiet, or every replica of it has its IO thread stopped. */
  ghost predicate Silenced(c: Config, f: Fleet) {
    c.former in f.nodes &&
    (Passive(f.nodes[c.former]) || forall n :: Follows(f, n, c.former) ==> f.nodes[n].ioStopped)
  }

  // ----- single steps of the fleet

  /** One changed node decides. */
  lemma PutKeeps(c: Config, f: Fleet, w: Option<Name>, n: Name, node: Node)
    requires Members(c, f) && Good(c, f, w) && n in f.nodes
    requires Sound(node) && (n != c.former && Some(n) != w ==> Passive(node))
    ensures Members(c, Put(f, n, node)) && Good(c, Put(f, n, node), w)
  {
  }

  lemma FenceKeeps(c: Config, f: Fleet, w: Option<Name>, killed: bool)
    requires Members(c, f) && Good(c, f, w)
    ensures var t := Put(f, c.former, FencedNode(f.nodes[c.former], killed)); Members(c, t) && Good(c, t, w)
  {
    PutKeeps(c, f, w, c.former, FencedNode(f.nodes[c.former], killed));
  }

  lemma StopKeeps(c: Config, f: Fleet, n: Name)
    requires Members(c, f) && Good(c, f, None) && n in f.nodes
    ensures var t := Put(f, n, f.nodes[n].(ioStopped := true)); Members(c, t) && Good(c, t, None)
  {
    PutKeeps(c, f, None, n, f.nodes[n].(ioStopped := true));
  }

  lemma RepointKeeps(c: Config, f: Fleet, w: Option<Name>, n: Name, source: Name)
    requires Members(c, f) && Good(c, f, w) && n in f.nodes
    ensures var t := Put(f, n, RepointedNode(f.nodes[n], source)); Members(c, t) && Good(c, t, w)
  {
    PutKeeps(c, f, w, n, RepointedNode(f.nodes[n], source));
  }

  lemma PromoteKeeps(c: Config, f: Fleet, w: Name)
    requires Members(c, f) && Good(c, f, Some(w)) && w in f.nodes
    ensures var t := Put(f, w, PromotedNode(f.nodes[w])); Members(c, t) && Good(c, t, Some(w))
  {
    PutKeeps(c, f, Some(w), w, PromotedNode(f.nodes[w]));
  }

  lemma PutSilenced(c: Config, f: Fleet, n: Name, node: Node)
    requires Silenced(c, f) && n in f.nodes
    requires Passive(f.nodes[c.former]) && n == c.former ==> Passive(node)
    requires node.source == Some(c.former) && !node.ioStopped ==>
      f.nodes[n].source == Some(c.former) && !f.nodes[n].ioStopped
    ensures Silenced(c, Put(f, n, node))
  {
    if !Passive(f.nodes[c.former]) {
      forall m | Follows(Put(f, n, node), m, c.former) ensures Put(f, n, node).nodes[m].ioStopped {
        assert m != n ==> Follows(f, m, c.former);
        assert m == n ==> (Follows(f, n, c.former) || node.ioStopped);
      }
    }
  }

  /** Whatever the environment does, the two predicates above stay. */
  lemma EnvKeepsGood(c: Config, f: Fleet, w: Option<Name>, e: Env)
    requires Members(c, f) && Good(c, f, w) && EnvEnabled(f, e)
    ensures Members(c, EnvDo(f, e)) && Good(c, EnvDo(f, e), w)
  {
    match e
    case Cut(_, _) =>
    case Heal =>
    case Commit(p, g) =>
      PutKeeps(c, f, w, p, EnvDo(f, e).nodes[p]);
    case Receive(r, got) =>
      PutKeeps(c, f, w, r, EnvDo(f, e).nodes[r]);
    case Tear(r, g) =>
      PutKeeps(c, f, w, r, EnvDo(f, e).nodes[r]);
    case Apply(r, got) =>
      PutKeeps(c, f, w, r, EnvDo(f, e).nodes[r]);
    case Down(n) =>
      PutKeeps(c, f, w, n, EnvDo(f, e).nodes[n]);
    case Wake(n) =>
      PutKeeps(c, f, w, n, EnvDo(f, e).nodes[n]);
    case Restart(n) =>
      PutKeeps(c, f, w, n, EnvDo(f, e).nodes[n]);
    case SqlFails(n) =>
      PutKeeps(c, f, w, n, EnvDo(f, e).nodes[n]);
  }

  lemma EnvKeepsSilence(c: Config, f: Fleet, e: Env)
    requires Silenced(c, f) && EnvEnabled(f, e)
    ensures Silenced(c, EnvDo(f, e))
  {
    match e
    case Cut(_, _) => assert EnvDo(f, e).nodes == f.nodes; SameNodesSilenced(c, f, EnvDo(f, e));
    case Heal => SameNodesSilenced(c, f, EnvDo(f, e));
    case Commit(p, g) => PutSilenced(c, f, p, EnvDo(f, e).nodes[p]);
      SameNodesSilenced(c, Put(f, p, EnvDo(f, e).nodes[p]), EnvDo(f, e));
    case Receive(r, got) => PutSilenced(c, f, r, EnvDo(f, e).nodes[r]);
      SameNodesSilenced(c, Put(f, r, EnvDo(f, e).nodes[r]), EnvDo(f, e));
    case Tear(r, g) => PutSilenced(c, f, r, EnvDo(f, e).nodes[r]);
    case Apply(r, got) => PutSilenced(c, f, r, EnvDo(f, e).nodes[r]);
    case Down(n) => PutSilenced(c, f, n, EnvDo(f, e).nodes[n]);
    case Wake(n) => PutSilenced(c, f, n, EnvDo(f, e).nodes[n]);
    case Restart(n) => PutSilenced(c, f, n, EnvDo(f, e).nodes[n]);
    case SqlFails(n) => PutSilenced(c, f, n, EnvDo(f, e).nodes[n]);
  }

  lemma SameNodesSilenced(c: Config, f: Fleet, g: Fleet)
    requires Silenced(c, f) && f.nodes == g.nodes
    ensures Silenced(c, g)
  {
    assert forall n :: Follows(g, n, c.former) ==> Follows(f, n, c.former);
  }

  /** Once the former primary is silenced, an acknowledgement can only release a session that
      waits on the winner. */
  lemma EnvAcksOnlyWinner(c: Config, f: Fleet, w: Option<Name>, e: Env)
    requires Members(c, f) && Good(c, f, w) && Silenced(c, f) && EnvEnabled(f, e)
    ensures f.acked <= EnvDo(f, e).acked
    ensures forall g :: g in EnvDo(f, e).acked && g !in f.acked ==>
      w.Some? && w.value in f.nodes && g in f.nodes[w.value].waiting
  {
    match e
    case Receive(r, got) =>
      var src := f.nodes[r].source.value;
      assert src == c.former ==> Follows(f, r, c.former);
      assert Sound(f.nodes[src]);
    case Commit(p, g) =>
      assert Sound(f.nodes[p]);
    case _ =>
  }

  // ----- the invariant after the choice

  ghost predicate PastChoice(m: Mgr) {
    m.phase == CatchingUp || m.phase == Repointing || m.phase == Promoting || m.phase == Promoted
    || m.phase == Halted
  }

  ghost predicate Placed(c: Config, s: Sys) {
    Members(c, s.f) && PastChoice(s.m) && Good(c, s.f, s.m.winner) &&
    (s.m.winner.Some? ==> s.m.winner.value in c.others) && (s.m.phase != Halted ==> s.m.winner.Some?) &&
    (s.m.phase == Repointing ==> s.m.toDo <= Targets(c, s.m, s.m.winner.value))
  }

  /** Every step keeps who may write. */
  lemma PlacedStep(c: Config, s: Sys, a: Action)
    requires Placed(c, s) && Enabled(c, s, a)
    ensures Placed(c, Do(c, s, a)) && Do(c, s, a).m.winner == s.m.winner
  {
    hide Members, Good, ViewOf, EnvDo;
    match a
    case Step(e) => EnvKeepsGood(c, s.f, s.m.winner, e);
    case FenceLands(killed) => FenceKeeps(c, s.f, s.m.winner, killed);
    case Repoint(n, took, ok) => if took { RepointKeeps(c, s.f, s.m.winner, n, s.m.winner.value); }
    case Promote(took, ok) => if took { PromoteKeeps(c, s.f, s.m.winner.value); }
    case _ =>
  }

  /** Silence lasts through every step after the choice. */
  lemma SilenceStays(c: Config, s: Sys, a: Action)
    requires Placed(c, s) && Silenced(c, s.f) && Enabled(c, s, a)
    ensures Silenced(c, Do(c, s, a).f)
  {
    match a
    case Step(e) => EnvKeepsSilence(c, s.f, e);
    case FenceLands(killed) => PutSilenced(c, s.f, c.former, FencedNode(s.f.nodes[c.former], killed));
    case Repoint(n, took, ok) =>
      if took { PutSilenced(c, s.f, n, RepointedNode(s.f.nodes[n], s.m.winner.value)); }
    case Promote(took, ok) =>
      if took { PutSilenced(c, s.f, s.m.winner.value, PromotedNode(s.f.nodes[s.m.winner.value])); }
    case _ =>
  }

  ghost predicate Quieted(c: Config, s: Sys) {
    Placed(c, s) && Silenced(c, s.f)
  }

  lemma QuietedStep(c: Config, s: Sys, a: Action)
    requires Quieted(c, s) && Enabled(c, s, a)
    ensures Quieted(c, Do(c, s, a)) && Do(c, s, a).m.winner == s.m.winner
  {
    PlacedStep(c, s, a);
    SilenceStays(c, s, a);
  }

  lemma {:induction false} QuietedRun(c: Config, s: Sys, acts: seq<Action>)
    requires Quieted(c, s) && Run(c, s, acts)
    ensures Quieted(c, After(c, s, acts)) && After(c, s, acts).m.winner == s.m.winner
    decreases |acts|
  {
    if acts != [] {
      QuietedStep(c, s, acts[0]);
      QuietedRun(c, Do(c, s, acts[0]), acts[1..]);
    }
  }

  lemma AcksOnWinner(c: Config, t: Sys, a: Action)
    requires Quieted(c, t) && Enabled(c, t, a)
    ensures forall g :: g in Do(c, t, a).f.acked && g !in t.f.acked ==>
      t.m.winner.Some? && t.m.winner.value in t.f.nodes && g in t.f.nodes[t.m.winner.value].waiting
  {
    if a.Step? {
      EnvAcksOnlyWinner(c, t.f, t.m.winner, a.e);
    } else {
      AckedStays(c, t, a);
    }
  }

  /** One acknowledging node: from any state past the choice with the former primary silenced, over
      every run, each newly acknowledged commit is one its client waits for on the winner; with no
      winner there is none. */
  lemma OneAcknowledgingNode(c: Config, s: Sys, acts: seq<Action>, a: Action)
    requires Quieted(c, s) && Run(c, s, acts) && Enabled(c, After(c, s, acts), a)
    ensures var t := After(c, s, acts);
      forall g :: g in Do(c, t, a).f.acked && g !in t.f.acked ==>
        s.m.winner.Some? && s.m.winner.value in t.f.nodes && g in t.f.nodes[s.m.winner.value].waiting
  {
    QuietedRun(c, s, acts);
    AcksOnWinner(c, After(c, s, acts), a);
  }

  // ----- no acknowledged write is lost

  ghost predicate Settled(c: Config, s: Sys) {
    Quieted(c, s) && s.m.winner.Some? &&
    (s.m.phase == CatchingUp ==> s.f.acked <= s.f.nodes[s.m.winner.value].Have()) &&
    (s.m.phase == Repointing || s.m.phase == Promoting || s.m.phase == Promoted ==>
       s.f.acked <= s.f.nodes[s.m.winner.value].executed)
  }

  /** What the guarantee asks of the schedule: the winner does not restart, which would drop its
      relay log, before it has caught up, and the torn tail that ends the catch-up holds no
      acknowledged transaction. */
  predicate Fair(s: Sys, a: Action) {
    s.m.phase == CatchingUp && s.m.winner.Some? && s.m.winner.value in s.f.nodes ==>
      a != Step(Restart(s.m.winner.value)) &&
      (a == ReadSqlState ==>
         s.f.acked !! (s.f.nodes[s.m.winner.value].retrieved - s.f.nodes[s.m.winner.value].executed))
  }

  lemma SettledEnv(c: Config, s: Sys, e: Env)
    requires Settled(c, s) && EnvEnabled(s.f, e) && Fair(s, Step(e))
    ensures Settled(c, Sys(EnvDo(s.f, e), s.m))
  {
    var w := s.m.winner;
    EnvKeepsGood(c, s.f, w, e);
    EnvKeepsSilence(c, s.f, e);
    EnvAcksOnlyWinner(c, s.f, w, e);
    EnvGrows(s.f, e, w.value);
    assert Sound(s.f.nodes[w.value]);
  }

  lemma SettledCaughtUp(c: Config, s: Sys, a: Action)
    requires Settled(c, s) && (a.PollWinner? || a == ReadSqlState) && Enabled(c, s, a) && Fair(s, a)
    ensures Settled(c, Do(c, s, a))
  {
    QuietedStep(c, s, a);
    var w := s.f.nodes[s.m.winner.value];
    if Do(c, s, a).m.phase == Repointing {
      forall g | g in s.f.acked ensures g in w.executed {
        assert g in w.Have();
      }
    }
  }

  lemma SettledManager(c: Config, s: Sys, a: Action)
    requires Settled(c, s) && Enabled(c, s, a) && !a.Step? && !a.PollWinner? && a != ReadSqlState
    ensures Settled(c, Do(c, s, a))
  {
    QuietedStep(c, s, a);
    AckedStays(c, s, a);
  }

  /** The manager's calls acknowledge nothing and take nothing the winner executed. */
  lemma AckedStays(c: Config, s: Sys, a: Action)
    requires Placed(c, s) && Enabled(c, s, a) && !a.Step?
    ensures Do(c, s, a).f.acked == s.f.acked && Do(c, s, a).f.nodes.Keys == s.f.nodes.Keys
    ensures s.m.winner.Some? && s.m.winner.value in s.f.nodes ==>
      var w, v := s.f.nodes[s.m.winner.value], Do(c, s, a).f.nodes[s.m.winner.value];
      v.executed == w.executed && (s.m.phase == CatchingUp ==> v == w)
  {
    hide Good, ViewOf;
  }

  /** Every enabled step keeps the invariant. */
  lemma SettledStep(c: Config, s: Sys, a: Action)
    requires Settled(c, s) && Enabled(c, s, a) && Fair(s, a)
    ensures Settled(c, Do(c, s, a)) && Do(c, s, a).m.winner == s.m.winner
  {
    if a.Step? {
      SettledEnv(c, s, a.e);
    } else if a.PollWinner? || a == ReadSqlState {
      SettledCaughtUp(c, s, a);
    } else {
      SettledManager(c, s, a);
    }
    QuietedStep(c, s, a);
  }

  predicate FairRun(c: Config, s: Sys, acts: seq<Action>)
    requires Run(c, s, acts)
    decreases |acts|
  {
    acts == [] || (Fair(s, acts[0]) && FairRun(c, Do(c, s, acts[0]), acts[1..]))
  }

  lemma {:induction false} SettledRun(c: Config, s: Sys, acts: seq<Action>)
    requires Settled(c, s) && Run(c, s, acts) && FairRun(c, s, acts)
    ensures Settled(c, After(c, s, acts)) && After(c, s, acts).m.winner == s.m.winner
    decreases |acts|
  {
    if acts != [] {
      SettledStep(c, s, acts[0]);
      SettledRun(c, Do(c, s, acts[0]), acts[1..]);
    }
  }

  /** From the choice on, a failover whose winner holds every acknowledged write, with the former
      primary silenced, ends with no promote confirmed or with a winner that has executed every
      acknowledged write. */
  lemma LosslessFromChoice(c: Config, s: Sys, acts: seq<Action>)
    requires Settled(c, s) && Run(c, s, acts) && FairRun(c, s, acts)
    ensures var t := After(c, s, acts);
      t.m.phase == Promoted ==>
        t.m.winner == s.m.winner && s.m.winner.value in t.f.nodes &&
        t.f.acked <= t.f.nodes[s.m.winner.value].executed
  {
    SettledRun(c, s, acts);
  }

  /** `/promote` is sent only when the fence task has returned and every repoint is settled. */
  lemma PromoteAfterFence(c: Config, s: Sys, acts: seq<Action>)
    requires s.m.phase != Promoting && Run(c, s, acts)
    ensures After(c, s, acts).m.phase == Promoting ==> FenceDone(After(c, s, acts).m)
  {
    FenceBeforePromote(c, s, acts);
  }

  lemma FenceStaysDone(c: Config, s: Sys, a: Action)
    requires (s.m.phase == Promoting ==> FenceDone(s.m)) && Enabled(c, s, a)
    ensures Do(c, s, a).m.phase == Promoting ==> FenceDone(Do(c, s, a).m)
  {
    hide EnvDo, ViewOf, ChoiceOf, EnvEnabled, Targets, ViewSeq, AllSeen, Put, FencedNode, RepointedNode, PromotedNode;
  }

  lemma {:induction false} FenceBeforePromote(c: Config, s: Sys, acts: seq<Action>)
    requires s.m.phase == Promoting ==> FenceDone(s.m)
    requires Run(c, s, acts)
    ensures After(c, s, acts).m.phase == Promoting ==> FenceDone(After(c, s, acts).m)
    decreases |acts|
  {
    if acts != [] {
      FenceStaysDone(c, s, acts[0]);
      hide Do, Enabled;
      FenceBeforePromote(c, Do(c, s, acts[0]), acts[1..]);
    }
  }
}
