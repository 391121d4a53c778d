/** When a failover attaches no errant node: with targets that can come to execute only what the winner
    is sure to execute, the winner's followers hold only what the winner executed, through every
    interleaving; candidates are such targets. A target the choice excluded is attached without a
    check, and any other target can be attached errant. */
module FailoverErrant {
  import opened Intervals
  import opened GtidSets
  import opened Selection
  import opened Fleet
  import opened Failover
  import opened FailoverSafety
  import opened FailoverLossless
  import opened FailoverLimits
  import opened Errant
  import opened Supply

  ghost predicate Attaching(c: Config, s: Sys) {
    Placed(c, s) && HasWinner(s) && Clean(s.f, s.m.winner.value)
  }

  /** Whatever a member waiting to be repointed can come to execute, the winner is sure to execute. */
  ghost predicate Tidy(c: Config, s: Sys, rule: Rule) {
    Attaching(c, s) &&
    (s.m.phase == CatchingUp ==> forall n :: n in Targets(c, s.m, s.m.winner.value) ==> Fits(s, n, rule)) &&
    (s.m.phase == Repointing ==> forall n :: n in s.m.toDo ==> Fits(s, n, rule)) &&
    (s.m.phase == Promoted ==> Primary(s.f, s.m.winner.value))
  }

  ghost predicate Fits(s: Sys, n: Name, rule: Rule) {
    HasWinner(s) && ContainedIn(s.f, n, s.m.winner.value, SureNow(s, rule))
  }

  // ----- what one step does to the followers of a node

  /** The manager's calls keep the followers of any node within it, but for a repoint to it. */
  lemma CleanDo(c: Config, s: Sys, a: Action, p: Name)
    requires Clean(s.f, p) && Enabled(c, s, a)
    requires a.Repoint? && a.took && s.m.winner == Some(p) ==>
      a.n != p && s.f.nodes[a.n].executed <= s.f.nodes[p].executed
    ensures Clean(Do(c, s, a).f, p)
  {
    match a
    case Step(e) => CleanEnv(s.f, p, e);
    case FenceLands(killed) => CleanSame(s.f, p, c.former, FencedNode(s.f.nodes[c.former], killed));
    case StopIo(n, took, ok) =>
      if took { CleanSame(s.f, p, n, s.f.nodes[n].(ioStopped := true)); }
    case Repoint(n, took, ok) =>
      if took { CleanAfterPut(s.f, p, n, RepointedNode(s.f.nodes[n], s.m.winner.value)); }
    case Promote(took, ok) =>
      if took { CleanAfterPut(s.f, p, s.m.winner.value, PromotedNode(s.f.nodes[s.m.winner.value])); }
    case _ =>
  }

  lemma SureStays(c: Config, s: Sys, a: Action, rule: Rule)
    requires Placed(c, s) && HasWinner(s) && Enabled(c, s, a) && Allowed(s, a, rule)
    ensures HasWinner(Do(c, s, a))
    ensures Do(c, s, a).m.phase != Halted ==> SureNow(s, rule) <= SureNow(Do(c, s, a), rule)
  {
    if a.Step? {
      SureGrows(c, s, a.e, rule);
    } else {
      AckedStays(c, s, a);
      if a.PollWinner? || a == ReadSqlState {
        CaughtUpSure(c, s, a, rule);
      }
    }
  }

  lemma CaughtUpSure(c: Config, s: Sys, a: Action, rule: Rule)
    requires Placed(c, s) && HasWinner(s) && Enabled(c, s, a) && (a.PollWinner? || a == ReadSqlState)
    ensures HasWinner(Do(c, s, a))
    ensures Do(c, s, a).m.phase != Halted ==> SureNow(s, rule) <= SureNow(Do(c, s, a), rule)
  {
    hide Placed, Targets;
    var w := s.f.nodes[s.m.winner.value];
    forall g | g in Sure(w, rule) && Do(c, s, a).m.phase == Repointing ensures g in w.executed {
      assert g in w.executed || (g in w.retrieved && g !in w.torn);
      assert g !in w.executed ==> g in w.retrieved - w.executed;
    }
  }

  lemma PromotedIsPrimary(c: Config, s: Sys, a: Action)
    requires Placed(c, s) && HasWinner(s) && Enabled(c, s, a) && Do(c, s, a).m.phase == Promoted
    requires s.m.phase == Promoted ==> Primary(s.f, s.m.winner.value)
    ensures Primary(Do(c, s, a).f, s.m.winner.value)
  {
    assert PastChoice(s.m) && s.m.winner.value != c.former by { hide Good; }
    hide Placed, ViewOf, EnvDo, ChoiceOf;
    if a.Step? {
      ExcessEnv(s.f, s.m.winner.value, s.m.winner.value, a.e);
    }
  }

  lemma AttachingStep(c: Config, s: Sys, a: Action, rule: Rule)
    requires Tidy(c, s, rule) && Enabled(c, s, a)
    ensures Attaching(c, Do(c, s, a)) && Do(c, s, a).m.winner == s.m.winner
  {
    PlacedStep(c, s, a);
    if a.Repoint? {
      ContainedNow(s.f, a.n, s.m.winner.value, SureNow(s, rule));
    }
    CleanDo(c, s, a, s.m.winner.value);
  }

  lemma PolledKeeps(c: Config, m: Mgr, v: NodeView)
    requires m.winner.Some?
    ensures var p := Polled(c, m, v);
      p.views == m.views && (p.toDo == m.toDo || p.toDo == Targets(c, m, m.winner.value))
    ensures Polled(c, m, v).phase == Repointing ==>
      m.phase == Repointing || Polled(c, m, v).toDo == Targets(c, m, m.winner.value)
  {
    hide Targets;
  }

  lemma TargetBefore(c: Config, s: Sys, a: Action, n: Name)
    requires Placed(c, s) && HasWinner(s) && Enabled(c, s, a)
    requires var t := Do(c, s, a);
      (t.m.phase == CatchingUp && n in Targets(c, t.m, s.m.winner.value)) || (t.m.phase == Repointing && n in t.m.toDo)
    ensures n in Targets(c, s.m, s.m.winner.value) && n != c.former && n != s.m.winner.value
    ensures s.m.phase == CatchingUp || (s.m.phase == Repointing && n in s.m.toDo && (a.Repoint? ==> a.n != n))
  {
    assert c.former !in c.others && PastChoice(s.m);
    if a.PollWinner? {
      PolledKeeps(c, s.m, StatusOf(s.f, s.m.winner.value, a.answered));
    }
    hide Polled, Good, Members, EnvDo, ViewOf, StatusOf, Put, FencedNode, RepointedNode, PromotedNode, ChoiceOf,
         ViewSeq;
  }

  /** What a step of the manager does to one node opens no way around the winner. */
  lemma FitsDo(c: Config, s: Sys, a: Action, n: Name, rule: Rule)
    requires Placed(c, s) && Fits(s, n, rule) && Enabled(c, s, a) && !a.Promote?
    ensures HasWinner(s) && ContainedIn(Do(c, s, a).f, n, s.m.winner.value, SureNow(s, rule))
  {
    var w, sure := s.m.winner.value, SureNow(s, rule);
    match a
    case Step(e) => ContainedEnv(s.f, n, w, sure, e);
    case FenceLands(killed) => ContainedPut(s.f, n, w, sure, c.former, FencedNode(s.f.nodes[c.former], killed));
    case Repoint(m, took, ok) =>
      if took {
        assert RepointedNode(s.f.nodes[m], w).executed + Pending(RepointedNode(s.f.nodes[m], w))
          == s.f.nodes[m].executed;
        ContainedPut(s.f, n, w, sure, m, RepointedNode(s.f.nodes[m], w));
      }
    case _ =>
  }

  /** The targets of the new state were targets before, and still fit. */
  lemma TargetsStay(c: Config, s: Sys, a: Action, n: Name, rule: Rule)
    requires Tidy(c, s, rule) && Enabled(c, s, a) && Allowed(s, a, rule)
    requires var t := Do(c, s, a);
      (t.m.phase == CatchingUp && n in Targets(c, t.m, s.m.winner.value)) || (t.m.phase == Repointing && n in t.m.toDo)
    ensures Fits(Do(c, s, a), n, rule)
  {
    TargetBefore(c, s, a, n);
    FitsDo(c, s, a, n, rule);
    PlacedStep(c, s, a);
    SureStays(c, s, a, rule);
    WiderFits(Do(c, s, a).f, n, s.m.winner.value, SureNow(s, rule), SureNow(Do(c, s, a), rule));
  }

  lemma WiderFits(f: Fleet, n: Name, w: Name, sure: Trxs, more: Trxs)
    requires ContainedIn(f, n, w, sure) && sure <= more
    ensures ContainedIn(f, n, w, more)
  {
  }

  lemma TidyStep(c: Config, s: Sys, a: Action, rule: Rule)
    requires Tidy(c, s, rule) && Enabled(c, s, a) && Allowed(s, a, rule)
    ensures Tidy(c, Do(c, s, a), rule) && Do(c, s, a).m.winner == s.m.winner
  {
    var t := Do(c, s, a);
    AttachingStep(c, s, a, rule);
    forall n | (t.m.phase == CatchingUp && n in Targets(c, t.m, s.m.winner.value)) ||
               (t.m.phase == Repointing && n in t.m.toDo)
      ensures Fits(t, n, rule)
    {
      TargetsStay(c, s, a, n, rule);
    }
    if t.m.phase == Promoted {
      PromotedIsPrimary(c, s, a);
    }
  }

  lemma {:induction false} TidyRun(c: Config, s: Sys, acts: seq<Action>, rule: Rule)
    requires Tidy(c, s, rule) && AllowedRun(c, s, acts, rule)
    ensures Tidy(c, After(c, s, acts), rule) && After(c, s, acts).m.winner == s.m.winner
    decreases |acts|
  {
    if acts != [] {
      TidyStep(c, s, acts[0], rule);
      TidyRun(c, Do(c, s, acts[0]), acts[1..], rule);
    }
  }

  /** A catch-up that cannot finish attaches nobody. */
  lemma {:induction false} StuckClean(c: Config, s: Sys, acts: seq<Action>, rule: Rule)
    requires Stuck(c, s, rule) && HasWinner(s) && Clean(s.f, s.m.winner.value) && AllowedRun(c, s, acts, rule)
    ensures After(c, s, acts).m.winner == s.m.winner && Clean(After(c, s, acts).f, s.m.winner.value)
    decreases |acts|
  {
    if acts != [] {
      PlacedStep(c, s, acts[0]);
      CleanDo(c, s, acts[0], s.m.winner.value);
      if acts[0].Step? {
        StuckEnv(c, s, acts[0].e, rule);
      } else {
        StuckManager(c, s, acts[0], rule);
      }
      StuckClean(c, Do(c, s, acts[0]), acts[1..], rule);
    }
  }

  // ----- the condition

  /** Whatever a target can come to execute before it is repointed, its relay log and what its
      sources have and may yet write, the winner is sure to execute. */
  ghost predicate TargetsWithin(c: Config, s: Sys, rule: Rule)
    requires HasWinner(s)
  {
    forall n :: n in Targets(c, s.m, s.m.winner.value) ==>
      ContainedIn(s.f, n, s.m.winner.value, Sure(s.f.nodes[s.m.winner.value], rule))
  }

  ghost predicate StaysClean(c: Config, s: Sys, acts: seq<Action>, rule: Rule)
    requires HasWinner(s)
  {
    AllowedRun(c, s, acts, rule) ==> Clean(After(c, s, acts).f, s.m.winner.value)
  }

  lemma {:induction false} WritesMoved(f: Fleet, t: Fleet, n: Name, w: Name, k: nat)
    requires OnlyMoved(f, t, w)
    ensures WritesAbove(f, n, w, k) ==> WritesAbove(t, n, w, k)
    decreases k
  {
    if k > 0 && n in f.nodes && f.nodes[n].source.Some? {
      WritesMoved(f, t, f.nodes[n].source.value, w, k - 1);
    }
  }

  lemma {:induction false} BringsMoved(f: Fleet, t: Fleet, n: Name, w: Name, g: Gtid, k: nat)
    requires OnlyMoved(f, t, w)
    ensures Brings(f, n, w, g, k) ==> Brings(t, n, w, g, k)
    decreases k
  {
    if k > 0 && n in f.nodes && f.nodes[n].source.Some? {
      BringsMoved(f, t, f.nodes[n].source.value, w, g, k - 1);
    }
  }

  lemma LooseStays(f: Fleet, t: Fleet, n: Name, w: Name, sure: Trxs)
    requires OnlyMoved(f, t, w) && n in f.nodes && !ContainedIn(f, n, w, sure)
    ensures !ContainedIn(t, n, w, sure)
  {
    if k: nat :| WritesAbove(f, n, w, k) {
      WritesMoved(f, t, n, w, k);
    } else {
      var g, k: nat :| Brings(f, n, w, g, k) && g !in sure;
      BringsMoved(f, t, n, w, g, k);
    }
  }

  /** An excluded member (its semi-sync replica side off, say) is repointed like the others: with
      anything it can come to execute that the winner is not sure to, some schedule attaches it
      errant. */
  lemma ExcludedTargetErrs(c: Config, s: Sys, n: Name, rule: Rule) returns (acts: seq<Action>)
    requires AtChoice(c, s) && HasWinner(s) && n in Targets(c, s.m, s.m.winner.value)
    requires CanFinish(s.f.nodes[s.m.winner.value], s.f.acked, rule)
    requires !ContainedIn(s.f, n, s.m.winner.value, Sure(s.f.nodes[s.m.winner.value], rule))
    ensures AllowedRun(c, s, acts, rule)
    ensures var t := After(c, s, acts);
      Follower(t.f, n, s.m.winner.value) && !(t.f.nodes[n].executed <= t.f.nodes[s.m.winner.value].executed)
  {
    var w := s.m.winner.value;
    var x := CatchUpRun(c, s, rule);
    var t := After(c, s, x);
    LooseStays(s.f, t.f, n, w, Sure(s.f.nodes[w], rule));
    var y := AttachRun(c, t, n, rule);
    AllowedConcat(c, s, x, y, rule);
    acts := x + y;
  }

  function Steps(es: seq<Env>): seq<Action> {
    if es == [] then [] else [Step(es[0])] + Steps(es[1..])
  }

  lemma {:induction false} StepsRun(c: Config, s: Sys, es: seq<Env>, rule: Rule)
    requires s.m.phase == Repointing && EnvRun(s.f, es)
    ensures AllowedRun(c, s, Steps(es), rule) && After(c, s, Steps(es)) == Sys(EnvAfter(s.f, es), s.m)
    decreases |es|
  {
    if es != [] {
      StepsRun(c, Do(c, s, Step(es[0])), es[1..], rule);
      assert Steps(es)[1..] == Steps(es[1..]);
    }
  }

  /** What the winner lacks comes down to the target first, then the repoint. */
  lemma AttachRun(c: Config, t: Sys, n: Name, rule: Rule) returns (acts: seq<Action>)
    requires t.m.phase == Repointing && HasWinner(t) && n in t.m.toDo && n in t.f.nodes && n != t.m.winner.value
    requires !ContainedIn(t.f, n, t.m.winner.value, t.f.nodes[t.m.winner.value].executed)
    ensures AllowedRun(c, t, acts, rule)
    ensures var u := After(c, t, acts);
      Follower(u.f, n, t.m.winner.value) && !(u.f.nodes[n].executed <= u.f.nodes[t.m.winner.value].executed)
  {
    var g, es := LooseRun(t.f, n, t.m.winner.value, t.f.nodes[t.m.winner.value].executed);
    StepsRun(c, t, es, rule);
    var u := Sys(EnvAfter(t.f, es), t.m);
    var y := RepointRun(c, Do(c, u, Step(Wake(n))), n, rule);
    y := First(c, u, Step(Wake(n)), y, rule);
    AllowedConcat(c, t, Steps(es), y, rule);
    acts := Steps(es) + y;
  }

  lemma RepointRun(c: Config, t: Sys, n: Name, rule: Rule) returns (acts: seq<Action>)
    requires t.m.phase == Repointing && HasWinner(t) && n in t.m.toDo && n in t.f.nodes && n != t.m.winner.value
    requires t.f.nodes[n].up && !(t.f.nodes[n].executed <= t.f.nodes[t.m.winner.value].executed)
    ensures AllowedRun(c, t, acts, rule)
    ensures var u := After(c, t, acts);
      Follower(u.f, n, t.m.winner.value) && !(u.f.nodes[n].executed <= u.f.nodes[t.m.winner.value].executed)
  {
    acts := First(c, t, Failover.Repoint(n, true, true), [], rule);
  }

  /** No allowed schedule attaches an errant node if and only if the catch-up cannot finish, or
      whatever a member the repoint step addresses, excluded or not, can come to execute before that
      is something the winner is sure to execute. */
  lemma SubsetDecides(c: Config, s: Sys, rule: Rule)
    requires AtChoice(c, s) && Attaching(c, s)
    ensures (forall acts: seq<Action> :: StaysClean(c, s, acts, rule)) <==>
      (CanFinish(s.f.nodes[s.m.winner.value], s.f.acked, rule) ==> TargetsWithin(c, s, rule))
  {
    var w := s.m.winner.value;
    if !CanFinish(s.f.nodes[w], s.f.acked, rule) {
      forall acts: seq<Action> ensures StaysClean(c, s, acts, rule) {
        if AllowedRun(c, s, acts, rule) { StuckClean(c, s, acts, rule); }
      }
    } else if n :| n in Targets(c, s.m, w) && !ContainedIn(s.f, n, w, Sure(s.f.nodes[w], rule)) {
      var acts := ExcludedTargetErrs(c, s, n, rule);
      assert !Behind(After(c, s, acts).f, n, w);
      assert !StaysClean(c, s, acts, rule);
    } else {
      forall acts: seq<Action> ensures StaysClean(c, s, acts, rule) {
        if AllowedRun(c, s, acts, rule) { TidyRun(c, s, acts, rule); }
      }
    }
  }

  // ----- candidates satisfy it

  /** The winner was just chosen on views that still bound what the targets can come to execute, and
      the winner is sure to execute what its own view showed. */
  ghost predicate Chosen(c: Config, s: Sys, rule: Rule) {
    AtChoice(c, s) && Attaching(c, s) && AllSeen(c, s.m) &&
    ChoiceOf(ViewSeq(c, s.m.views), c.former).winner == s.m.winner &&
    (forall n :: n in c.others ==> s.m.views[n].name == n) &&
    s.m.views[s.m.winner.value].Have() <= Sure(s.f.nodes[s.m.winner.value], rule) &&
    forall n :: n in Targets(c, s.m, s.m.winner.value) ==>
      ContainedIn(s.f, n, s.m.winner.value, s.m.views[n].Have())
  }

  /** Every target of the repoint step was a candidate: no usable member was excluded. */
  predicate TargetsWereCandidates(c: Config, m: Mgr)
    requires m.winner.Some?
  {
    forall n :: n in Targets(c, m, m.winner.value) ==> CandidateProblem(m.views[n]).None?
  }

  lemma CandidatesWithin(c: Config, s: Sys, rule: Rule)
    requires Chosen(c, s, rule) && TargetsWereCandidates(c, s.m)
    ensures TargetsWithin(c, s, rule)
  {
    WinnerOfViews(c, s.m);
    var w := s.m.winner.value;
    forall n | n in Targets(c, s.m, w) ensures ContainedIn(s.f, n, w, Sure(s.f.nodes[w], rule)) {
      assert s.m.views[n].Have() <= s.m.views[w].Have();
      WiderFits(s.f, n, w, s.m.views[n].Have(), Sure(s.f.nodes[w], rule));
    }
  }

  /** From the choice on, whatever the allowed interleaving, every node replicating from the winner
      has executed only what the winner has executed. */
  lemma FailoverAttachesNoErrant(c: Config, s: Sys, acts: seq<Action>, rule: Rule)
    requires Chosen(c, s, rule) && TargetsWereCandidates(c, s.m) && AllowedRun(c, s, acts, rule)
    ensures var t := After(c, s, acts);
      s.m.winner.value in t.f.nodes &&
      forall n :: Follower(t.f, n, s.m.winner.value) ==>
        t.f.nodes[n].executed <= t.f.nodes[s.m.winner.value].executed
  {
    CandidatesWithin(c, s, rule);
    TidyRun(c, s, acts, rule);
  }
}
