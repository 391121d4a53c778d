/** `choose` of dbguard/manager/selection.py in dbguard mode, over the node views of
    dbguard/manager/model.py. A GTID set is the finite set of transactions it denotes
    (module GtidSets shows the interval code computes exactly these set operations). */
module Selection {
  import opened Intervals
  import opened GtidSets

  type Name = string

  type Trxs = set<Gtid>

  datatype ThreadState = Yes | No | Connecting | Unknown

  datatype ReplicaView = ReplicaView(configured: bool, sourceHost: Option<Name>, ioRunning: ThreadState,
                                     sqlRunning: ThreadState, retrieved: Trxs, executed: Trxs,
                                     lastSqlError: bool)

  /** What the manager knows about one node after one poll. */
  datatype NodeView = NodeView(name: Name, reachable: bool, responsive: bool, fenced: bool,
                               superReadOnly: Option<bool>, executed: Trxs, replica: ReplicaView,
                               semisyncReplica: bool)
  {
    predicate Usable() { reachable && responsive }

    predicate Writable() { Usable() && superReadOnly == Some(false) && !fenced }

    /** Everything the node holds, applied or only in its relay log. */
    function Have(): Trxs { executed + replica.executed + replica.retrieved }

    predicate RelayApplied() { replica.retrieved <= executed + replica.executed }
  }

  function Unreachable(name: Name): NodeView {
    NodeView(name, false, false, false, None, {},
             ReplicaView(false, None, Unknown, Unknown, {}, {}, false), false)
  }

  datatype Problem = AgentUnreachable | MysqldNotResponsive | NotConfigured | SqlError | SqlStopped
                   | NoSemisync

  /** `candidate_problem`, dbguard mode. */
  function CandidateProblem(nv: NodeView): Option<Problem> {
    if !nv.reachable then Some(AgentUnreachable)
    else if !nv.responsive then Some(MysqldNotResponsive)
    else if !nv.replica.configured then Some(NotConfigured)
    else if nv.replica.lastSqlError then Some(SqlError)
    else if nv.replica.sqlRunning == No then Some(SqlStopped)
    else if !nv.semisyncReplica then Some(NoSemisync)
    else None
  }

  /** One loser that holds something the winner lacks: how much, and the reverse count. */
  datatype Divergence = Divergence(loser: Name, extra: nat, back: nat)

  datatype Choice = Choice(winner: Option<Name>, candidates: seq<Name>, excluded: map<Name, Problem>,
                           diverged: seq<Divergence>, aheadBy: map<Name, nat>)

  /** The candidates, in node order. */
  function Candidates(nodes: seq<NodeView>, former: Name): seq<NodeView> {
    if nodes == [] then []
    else
      var rest := Candidates(nodes[..|nodes| - 1], former);
      var nv := nodes[|nodes| - 1];
      if nv.name != former && CandidateProblem(nv).None? then rest + [nv] else rest
  }

  function Excluded(nodes: seq<NodeView>, former: Name): map<Name, Problem> {
    if nodes == [] then map[]
    else
      var rest := Excluded(nodes[..|nodes| - 1], former);
      var nv := nodes[|nodes| - 1];
      if nv.name != former && CandidateProblem(nv).Some?
      then rest[nv.name := CandidateProblem(nv).value] else rest
  }

  function Names(nodes: seq<NodeView>): seq<Name> {
    seq(|nodes|, i requires 0 <= i < |nodes| => nodes[i].name)
  }

  /** Strictly smaller under the key (-have, -executed); node order breaks what is left. */
  predicate Beats(a: NodeView, b: NodeView) {
    |a.Have()| > |b.Have()| || (|a.Have()| == |b.Have()| && |a.executed| > |b.executed|)
  }

  /** `min(cands, key=dkey)` as an index. */
  function Best(cands: seq<NodeView>): (w: nat)
    requires cands != []
    ensures w < |cands|
    ensures forall i :: 0 <= i < |cands| ==> !Beats(cands[i], cands[w])
    ensures forall i :: 0 <= i < w ==> Beats(cands[w], cands[i])
  {
    if |cands| == 1 then 0
    else
      var w := Best(cands[..|cands| - 1]);
      assert cands[..|cands| - 1][w] == cands[w];
      assert forall i :: 0 <= i < |cands| - 1 ==> cands[..|cands| - 1][i] == cands[i];
      if Beats(cands[|cands| - 1], cands[w]) then |cands| - 1 else w
  }

  function Diverged(cands: seq<NodeView>, w: NodeView): seq<Divergence> {
    if cands == [] then []
    else
      var rest := Diverged(cands[..|cands| - 1], w);
      var nv := cands[|cands| - 1];
      if nv.Have() <= w.Have() then rest
      else rest + [Divergence(nv.name, |nv.Have() - w.Have()|, |w.Have() - nv.Have()|)]
  }

  /** The winner's lead over every other candidate; `best` is the winner's own index. */
  function AheadBy(cands: seq<NodeView>, w: NodeView, best: nat): map<Name, nat> {
    if cands == [] then map[]
    else
      var nv := cands[|cands| - 1];
      var rest := AheadBy(cands[..|cands| - 1], w, best);
      if |cands| - 1 == best then rest else rest[nv.name := |w.Have() - nv.Have()|]
  }

  /** The whole decision as a function of the views. */
  function ChoiceOf(nodes: seq<NodeView>, former: Name): Choice {
    var cands := Candidates(nodes, former);
    var excluded := Excluded(nodes, former);
    if cands == [] then Choice(None, [], excluded, [], map[])
    else
      var w := cands[Best(cands)];
      var bad := Diverged(cands, w);
      Choice(if bad == [] then Some(w.name) else None, Names(cands), excluded, bad,
             AheadBy(cands, w, Best(cands)))
  }

  // ----- what the decision means

  ghost predicate IsCandidate(nodes: seq<NodeView>, former: Name, nv: NodeView) {
    nv in nodes && nv.name != former && CandidateProblem(nv).None?
  }

  lemma {:induction false} CandidatesMember(nodes: seq<NodeView>, former: Name)
    ensures forall nv :: nv in Candidates(nodes, former) <==> IsCandidate(nodes, former, nv)
  {
    if nodes != [] {
      CandidatesMember(nodes[..|nodes| - 1], former);
      assert nodes == nodes[..|nodes| - 1] + [nodes[|nodes| - 1]];
    }
  }

  lemma {:induction false} DivergedSpec(cands: seq<NodeView>, w: NodeView)
    ensures Diverged(cands, w) == [] <==> forall nv :: nv in cands ==> nv.Have() <= w.Have()
  {
    if cands != [] {
      DivergedSpec(cands[..|cands| - 1], w);
      assert cands == cands[..|cands| - 1] + [cands[|cands| - 1]];
      assert cands[|cands| - 1] in cands;
    }
  }

  ghost predicate HoldsAll(nodes: seq<NodeView>, former: Name, nv: NodeView) {
    IsCandidate(nodes, former, nv) &&
    forall d :: IsCandidate(nodes, former, d) ==> d.Have() <= nv.Have()
  }

  /** A winner exists exactly when some candidate holds everything every candidate holds, and
      the winner is such a candidate. */
  lemma ChooseExact(nodes: seq<NodeView>, former: Name)
    ensures ChoiceOf(nodes, former).winner.Some? <==> exists nv :: HoldsAll(nodes, former, nv)
    ensures ChoiceOf(nodes, former).winner.Some? ==>
      exists nv :: HoldsAll(nodes, former, nv) && nv.name == ChoiceOf(nodes, former).winner.value
  {
    CandidatesMember(nodes, former);
    var cands := Candidates(nodes, former);
    if cands == [] {
      assert forall nv :: IsCandidate(nodes, former, nv) ==> nv in cands;
    } else {
      var w := cands[Best(cands)];
      DivergedSpec(cands, w);
      assert w in cands;
      if Diverged(cands, w) == [] {
        assert HoldsAll(nodes, former, w);
      }
      forall nv | HoldsAll(nodes, former, nv) ensures Diverged(cands, w) == [] {
        HolderWins(cands, nv);
      }
    }
  }

  /** The best candidate holds as much as one that holds everything. */
  lemma HolderWins(cands: seq<NodeView>, nv: NodeView)
    requires nv in cands && forall d :: d in cands ==> d.Have() <= nv.Have()
    ensures Diverged(cands, cands[Best(cands)]) == []
  {
    var w := cands[Best(cands)];
    var i :| 0 <= i < |cands| && cands[i] == nv;
    assert !Beats(cands[i], w) && w in cands;
    SubsetSize(w.Have(), nv.Have());
    DivergedSpec(cands, w);
  }

  /** When candidates exist but none wins, the best one and some other are incomparable: each
      holds transactions the other lacks. */
  lemma HaltMeansIncomparable(nodes: seq<NodeView>, former: Name)
    requires ChoiceOf(nodes, former).winner.None? && ChoiceOf(nodes, former).candidates != []
    ensures exists a, b :: IsCandidate(nodes, former, a) && IsCandidate(nodes, former, b)
              && !(a.Have() <= b.Have()) && !(b.Have() <= a.Have())
  {
    CandidatesMember(nodes, former);
    var cands := Candidates(nodes, former);
    var w := cands[Best(cands)];
    DivergedSpec(cands, w);
    var d :| d in cands && !(d.Have() <= w.Have());
    var i :| 0 <= i < |cands| && cands[i] == d;
    assert !Beats(cands[i], w);
    if w.Have() <= d.Have() {
      SubsetSize(w.Have(), d.Have());
    }
    assert w in cands && IsCandidate(nodes, former, w) && IsCandidate(nodes, former, d);
  }

  /** A chain of candidates always has a winner. */
  lemma {:induction false} ChainHasTop(cands: seq<NodeView>)
    requires cands != []
    requires forall a, b :: a in cands && b in cands ==> a.Have() <= b.Have() || b.Have() <= a.Have()
    ensures exists t :: t in cands && forall d :: d in cands ==> d.Have() <= t.Have()
  {
    var last := cands[|cands| - 1];
    assert cands == cands[..|cands| - 1] + [last];
    if |cands| == 1 {
      assert last in cands;
    } else {
      ChainHasTop(cands[..|cands| - 1]);
      var t :| t in cands[..|cands| - 1] && forall d :: d in cands[..|cands| - 1] ==> d.Have() <= t.Have();
      assert t in cands && last in cands;
      var top := if last.Have() <= t.Have() then t else last;
      forall d | d in cands ensures d.Have() <= top.Have() {
        assert d == last || d in cands[..|cands| - 1];
      }
    }
  }

  lemma ChainIsChosen(nodes: seq<NodeView>, former: Name)
    requires exists nv :: IsCandidate(nodes, former, nv)
    requires forall a, b :: IsCandidate(nodes, former, a) && IsCandidate(nodes, former, b) ==>
               a.Have() <= b.Have() || b.Have() <= a.Have()
    ensures ChoiceOf(nodes, former).winner.Some?
  {
    CandidatesMember(nodes, former);
    var cands := Candidates(nodes, former);
    var nv :| IsCandidate(nodes, former, nv);
    assert nv in cands;
    ChainHasTop(cands);
    var t :| t in cands && forall d :: d in cands ==> d.Have() <= t.Have();
    assert HoldsAll(nodes, former, t);
    ChooseExact(nodes, former);
  }

  /** `choose`: the loop that separates candidates from excluded nodes, then the comparison. */
  method Choose(nodes: seq<NodeView>, former: Name) returns (c: Choice)
    ensures c == ChoiceOf(nodes, former)
  {
    var excluded: map<Name, Problem> := map[];
    var cands: seq<NodeView> := [];
    var i := 0;
    while i < |nodes|
      invariant 0 <= i <= |nodes|
      invariant excluded == Excluded(nodes[..i], former)
      invariant cands == Candidates(nodes[..i], former)
    {
      var nv := nodes[i];
      assert nodes[..i + 1][..i] == nodes[..i];
      if nv.name != former {
        var why := CandidateProblem(nv);
        if why.Some? {
          excluded := excluded[nv.name := why.value];
        } else {
          cands := cands + [nv];
        }
      }
      i := i + 1;
    }
    assert nodes[..i] == nodes;
    if cands == [] {
      return Choice(None, [], excluded, [], map[]);
    }
    var bad, ahead := Compare(cands, Best(cands));
    c := Choice(if bad == [] then Some(cands[Best(cands)].name) else None, Names(cands), excluded, bad, ahead);
  }

  /** The loop over the losers: every divergence, and the winner's lead. */
  method Compare(cands: seq<NodeView>, best: nat) returns (bad: seq<Divergence>, ahead: map<Name, nat>)
    requires best < |cands|
    ensures bad == Diverged(cands, cands[best])
    ensures ahead == AheadBy(cands, cands[best], best)
  {
    var w := cands[best];
    ahead, bad := map[], [];
    var i := 0;
    while i < |cands|
      invariant 0 <= i <= |cands|
      invariant bad == Diverged(cands[..i], w)
      invariant ahead == AheadBy(cands[..i], w, best)
    {
      var nv := cands[i];
      CompareStep(cands, i, w, best);
      var extra := nv.Have() - w.Have();
      EmptyDifference(nv.Have(), w.Have());
      if i != best {
        if extra != {} {
          bad := bad + [Divergence(nv.name, |extra|, |w.Have() - nv.Have()|)];
        }
        ahead := ahead[nv.name := |w.Have() - nv.Have()|];
      }
      i := i + 1;
    }
    assert cands[..i] == cands;
  }

  lemma CompareStep(cands: seq<NodeView>, i: nat, w: NodeView, best: nat)
    requires i < |cands|
    ensures var nv := cands[i]; var rest := Diverged(cands[..i], w);
      Diverged(cands[..i + 1], w) ==
        if nv.Have() <= w.Have() then rest
        else rest + [Divergence(nv.name, |nv.Have() - w.Have()|, |w.Have() - nv.Have()|)]
    ensures var rest := AheadBy(cands[..i], w, best);
      AheadBy(cands[..i + 1], w, best) ==
        if i == best then rest else rest[cands[i].name := |w.Have() - cands[i].Have()|]
  {
    assert cands[..i + 1][..i] == cands[..i];
  }
}
