/** How the winner is ranked (dbguard/manager/selection.py): who comes first among the candidates, and what
    the counts of a choice say. */
module Ranking {
  import opened Intervals
  import opened GtidSets
  import opened Selection

  /** First by what a candidate holds, executed or only received, then by what it executed, then by its
      place among the nodes. */
  predicate Before(nodes: seq<NodeView>, i: int, j: int)
    requires 0 <= i < |nodes| && 0 <= j < |nodes|
  {
    var a, b := nodes[i], nodes[j];
    var have, than := |a.executed + a.replica.executed + a.replica.retrieved|,
                      |b.executed + b.replica.executed + b.replica.retrieved|;
    have > than || (have == than && |a.executed| > |b.executed|) ||
    (have == than && |a.executed| == |b.executed| && i < j)
  }

  ghost predicate RankedFirst(nodes: seq<NodeView>, former: Name, i: int) {
    0 <= i < |nodes| && IsCandidate(nodes, former, nodes[i]) &&
    forall j :: 0 <= j < |nodes| && j != i && IsCandidate(nodes, former, nodes[j]) ==> Before(nodes, i, j)
  }

  lemma {:induction false} BestIsFirst(nodes: seq<NodeView>, former: Name) returns (i: nat)
    requires Candidates(nodes, former) != []
    ensures i < |nodes| && RankedFirst(nodes, former, i)
    ensures nodes[i] == Candidates(nodes, former)[Best(Candidates(nodes, former))]
    decreases |nodes|
  {
    hide RankedFirst, Beats;
    var last := |nodes| - 1;
    var rest := Candidates(nodes[..last], former);
    if rest == [] {
      OnlyLast(nodes, former);
      i := last;
    } else {
      i := BestIsFirst(nodes[..last], former);
      if nodes[last].name != former && CandidateProblem(nodes[last]).None? {
        assert Candidates(nodes, former) == rest + [nodes[last]] && (rest + [nodes[last]])[..|rest|] == rest;
        if Beats(nodes[last], nodes[i]) {
          LastComesFirst(nodes, former, i);
          i := last;
        } else {
          StaysFirst(nodes, former, i);
        }
      } else {
        StaysFirst(nodes, former, i);
      }
    }
  }

  lemma SameCandidate(nodes: seq<NodeView>, former: Name, j: int)
    requires 0 <= j < |nodes| - 1
    ensures IsCandidate(nodes, former, nodes[j]) <==> IsCandidate(nodes[..|nodes| - 1], former, nodes[j])
  {
    assert nodes[..|nodes| - 1][j] in nodes[..|nodes| - 1] && nodes[j] in nodes;
  }

  lemma OnlyLast(nodes: seq<NodeView>, former: Name)
    requires Candidates(nodes, former) != [] && Candidates(nodes[..|nodes| - 1], former) == []
    ensures RankedFirst(nodes, former, |nodes| - 1)
  {
    CandidatesMember(nodes[..|nodes| - 1], former);
    forall j | 0 <= j < |nodes| - 1 ensures !IsCandidate(nodes, former, nodes[j]) {
      SameCandidate(nodes, former, j);
    }
  }

  /** The last node is behind one it does not beat. */
  lemma StaysFirst(nodes: seq<NodeView>, former: Name, i: nat)
    requires nodes != [] && RankedFirst(nodes[..|nodes| - 1], former, i)
    requires IsCandidate(nodes, former, nodes[|nodes| - 1]) ==> !Beats(nodes[|nodes| - 1], nodes[i])
    ensures RankedFirst(nodes, former, i)
  {
    var short := nodes[..|nodes| - 1];
    SameCandidate(nodes, former, i);
    hide IsCandidate;
    forall j | 0 <= j < |nodes| && j != i && IsCandidate(nodes, former, nodes[j]) ensures Before(nodes, i, j) {
      if j < |nodes| - 1 {
        SameCandidate(nodes, former, j);
        assert short[j] == nodes[j] && Before(short, i, j);
      }
    }
  }

  /** The last node ranks first when it beats the one that did. */
  lemma LastComesFirst(nodes: seq<NodeView>, former: Name, i: nat)
    requires nodes != [] && RankedFirst(nodes[..|nodes| - 1], former, i)
    requires nodes[|nodes| - 1].name != former && CandidateProblem(nodes[|nodes| - 1]).None?
    requires Beats(nodes[|nodes| - 1], nodes[i])
    ensures RankedFirst(nodes, former, |nodes| - 1)
  {
    var short, last := nodes[..|nodes| - 1], |nodes| - 1;
    assert IsCandidate(nodes, former, nodes[last]);
    hide IsCandidate, CandidateProblem;
    forall j | 0 <= j < last && IsCandidate(nodes, former, nodes[j]) ensures Before(nodes, last, j) {
      SameCandidate(nodes, former, j);
      assert short[j] == nodes[j] && (j != i ==> Before(short, i, j));
    }
  }

  /** The winner ranks first, and it holds everything any candidate holds. */
  lemma WinnerIsFirst(nodes: seq<NodeView>, former: Name)
    requires ChoiceOf(nodes, former).winner.Some?
    ensures exists i :: RankedFirst(nodes, former, i) && nodes[i].name == ChoiceOf(nodes, former).winner.value &&
                        HoldsAll(nodes, former, nodes[i])
  {
    CandidatesMember(nodes, former);
    var cands := Candidates(nodes, former);
    var i := BestIsFirst(nodes, former);
    DivergedSpec(cands, cands[Best(cands)]);
    assert HoldsAll(nodes, former, nodes[i]);
  }

  lemma FirstIsUnique(nodes: seq<NodeView>, former: Name, i: int, j: int)
    requires RankedFirst(nodes, former, i) && RankedFirst(nodes, former, j)
    ensures i == j
  {
    hide IsCandidate;
  }

  // ----- what the counts say

  lemma CountsBalance(a: Trxs, b: Trxs)
    ensures |a| + |b - a| == |b| + |a - b|
  {
    assert a == a * b + (a - b) && b == a * b + (b - a);
  }

  lemma {:induction false} DivergedEntries(cands: seq<NodeView>, w: NodeView, d: Divergence)
    ensures d in Diverged(cands, w) <==>
      exists nv :: nv in cands && !(nv.Have() <= w.Have()) && d.loser == nv.name &&
                   d.extra == |nv.Have() - w.Have()| && d.back == |w.Have() - nv.Have()|
  {
    if cands != [] {
      DivergedEntries(cands[..|cands| - 1], w, d);
      assert cands == cands[..|cands| - 1] + [cands[|cands| - 1]];
    }
  }

  /** Each candidate that holds what the best one lacks is reported, and no other; its surplus is never the
      larger of the two counts, since the best one holds at least as much. */
  lemma DivergenceCounts(nodes: seq<NodeView>, former: Name, i: int, d: Divergence)
    requires RankedFirst(nodes, former, i)
    ensures d in ChoiceOf(nodes, former).diverged <==>
      exists nv :: IsCandidate(nodes, former, nv) && d.loser == nv.name && nv.Have() - nodes[i].Have() != {} &&
                   d.extra == |nv.Have() - nodes[i].Have()| && d.back == |nodes[i].Have() - nv.Have()|
    ensures d in ChoiceOf(nodes, former).diverged ==> 0 < d.extra <= d.back
  {
    CandidatesMember(nodes, former);
    var cands := Candidates(nodes, former);
    assert nodes[i] in cands;
    var k := BestIsFirst(nodes, former);
    FirstIsUnique(nodes, former, i, k);
    var w := nodes[i];
    DivergedEntries(cands, w, d);
    forall nv: NodeView ensures (nv.Have() <= w.Have() <==> nv.Have() - w.Have() == {}) {
      EmptyDifference(nv.Have(), w.Have());
    }
    if d in ChoiceOf(nodes, former).diverged {
      var nv :| IsCandidate(nodes, former, nv) && !(nv.Have() <= w.Have()) && d.extra == |nv.Have() - w.Have()| &&
                d.back == |w.Have() - nv.Have()|;
      CountsBalance(nv.Have(), w.Have());
      var j :| 0 <= j < |nodes| && nodes[j] == nv;
      assert j == i || Before(nodes, i, j);
    }
  }

  ghost predicate DistinctNames(nodes: seq<NodeView>) {
    forall i, j :: 0 <= i < j < |nodes| ==> nodes[i].name != nodes[j].name
  }

  lemma {:induction false} LeadEntry(cands: seq<NodeView>, w: NodeView, best: nat, k: nat)
    requires DistinctNames(cands) && k < |cands| && k != best
    ensures cands[k].name in AheadBy(cands, w, best)
    ensures AheadBy(cands, w, best)[cands[k].name] == |w.Have() - cands[k].Have()|
    decreases |cands|
  {
    if k < |cands| - 1 {
      var short := cands[..|cands| - 1];
      assert short[k] == cands[k] && forall j :: 0 <= j < |short| ==> short[j] == cands[j];
      LeadEntry(short, w, best, k);
      assert cands[k].name != cands[|cands| - 1].name;
    }
  }

  lemma {:induction false} LeadNames(cands: seq<NodeView>, w: NodeView, best: nat, n: Name)
    ensures n in AheadBy(cands, w, best) ==> exists k :: 0 <= k < |cands| && k != best && cands[k].name == n
    decreases |cands|
  {
    if cands != [] {
      var short := cands[..|cands| - 1];
      LeadNames(short, w, best, n);
      assert forall k :: 0 <= k < |short| ==> short[k] == cands[k];
    }
  }

  lemma {:induction false} CandidatesDistinct(nodes: seq<NodeView>, former: Name)
    requires DistinctNames(nodes)
    ensures DistinctNames(Candidates(nodes, former))
    decreases |nodes|
  {
    if nodes != [] {
      var short, last := nodes[..|nodes| - 1], nodes[|nodes| - 1];
      assert forall k :: 0 <= k < |short| ==> short[k] == nodes[k];
      CandidatesDistinct(short, former);
      CandidatesMember(short, former);
      var rest := Candidates(short, former);
      forall k | 0 <= k < |rest| ensures rest[k].name != last.name {
        assert rest[k] in rest;
        var j :| 0 <= j < |short| && short[j] == rest[k];
        assert nodes[j].name != nodes[|nodes| - 1].name;
      }
    }
  }

  /** The lead over a candidate is what the winner holds and it lacks, which is the difference of what they
      hold; every candidate but the winner has an entry, and nobody else. */
  lemma LeadCounts(nodes: seq<NodeView>, former: Name, i: int, j: int)
    requires DistinctNames(nodes) && RankedFirst(nodes, former, i) && ChoiceOf(nodes, former).winner.Some?
    requires 0 <= j < |nodes|
    ensures nodes[j].name in ChoiceOf(nodes, former).aheadBy <==> j != i && IsCandidate(nodes, former, nodes[j])
    ensures nodes[j].name in ChoiceOf(nodes, former).aheadBy ==>
      ChoiceOf(nodes, former).aheadBy[nodes[j].name] == |nodes[i].Have()| - |nodes[j].Have()|
  {
    var cands := Candidates(nodes, former);
    CandidatesMember(nodes, former);
    CandidatesDistinct(nodes, former);
    assert nodes[i] in cands;
    var f := BestIsFirst(nodes, former);
    FirstIsUnique(nodes, former, i, f);
    DivergedSpec(cands, cands[Best(cands)]);
    Lead(nodes, former, cands, Best(cands), i, j);
  }

  lemma Lead(nodes: seq<NodeView>, former: Name, cands: seq<NodeView>, best: nat, i: int, j: int)
    requires DistinctNames(nodes) && DistinctNames(cands) && 0 <= i < |nodes| && 0 <= j < |nodes|
    requires forall nv :: nv in cands <==> IsCandidate(nodes, former, nv)
    requires best < |cands| && cands[best] == nodes[i] && forall nv :: nv in cands ==> nv.Have() <= nodes[i].Have()
    ensures var ahead := AheadBy(cands, nodes[i], best);
      (nodes[j].name in ahead <==> j != i && IsCandidate(nodes, former, nodes[j])) &&
      (nodes[j].name in ahead ==> ahead[nodes[j].name] == |nodes[i].Have()| - |nodes[j].Have()|)
  {
    assert forall nv :: nv in cands ==> nv in nodes;
    hide IsCandidate, AheadBy;
    if j != i && nodes[j] in cands {
      var k :| 0 <= k < |cands| && cands[k] == nodes[j];
      LeadEntry(cands, nodes[i], best, k);
      CountsBalance(nodes[j].Have(), nodes[i].Have());
      EmptyDifference(nodes[j].Have(), nodes[i].Have());
    } else {
      LeadNames(cands, nodes[i], best, nodes[j].name);
      if nodes[j].name in AheadBy(cands, nodes[i], best) {
        OtherName(nodes, former, cands, best, i, j);
      }
    }
  }

  lemma OtherName(nodes: seq<NodeView>, former: Name, cands: seq<NodeView>, best: nat, i: int, j: int)
    requires DistinctNames(nodes) && DistinctNames(cands) && 0 <= i < |nodes| && 0 <= j < |nodes|
    requires forall nv :: nv in cands ==> nv in nodes
    requires best < |cands| && cands[best] == nodes[i] && (j == i || nodes[j] !in cands)
    ensures !exists k :: 0 <= k < |cands| && k != best && cands[k].name == nodes[j].name
  {
    forall k | 0 <= k < |cands| && k != best ensures cands[k].name != nodes[j].name {
      assert cands[k] in cands;
      var m :| 0 <= m < |nodes| && nodes[m] == cands[k];
    }
  }

  // ----- who may be promoted

  lemma {:induction false} ExcludedEntry(nodes: seq<NodeView>, former: Name, j: nat)
    requires DistinctNames(nodes) && j < |nodes|
    ensures nodes[j].name in Excluded(nodes, former) <==>
      nodes[j].name != former && CandidateProblem(nodes[j]).Some?
    ensures nodes[j].name in Excluded(nodes, former) ==>
      Some(Excluded(nodes, former)[nodes[j].name]) == CandidateProblem(nodes[j])
    decreases |nodes|
  {
    var short, last := nodes[..|nodes| - 1], nodes[|nodes| - 1];
    hide CandidateProblem;
    assert forall k :: 0 <= k < |short| ==> short[k] == nodes[k];
    if j < |nodes| - 1 {
      assert nodes[j].name != last.name;
      ExcludedEntry(short, former, j);
    } else {
      NotExcluded(short, former, last.name);
    }
  }

  lemma {:induction false} NotExcluded(nodes: seq<NodeView>, former: Name, n: Name)
    requires forall k :: 0 <= k < |nodes| ==> nodes[k].name != n
    ensures n !in Excluded(nodes, former)
    decreases |nodes|
  {
    if nodes != [] {
      var short := nodes[..|nodes| - 1];
      assert forall k :: 0 <= k < |short| ==> short[k] == nodes[k];
      NotExcluded(short, former, n);
    }
  }

  /** Each member but the former primary is a candidate or excluded with its reason, never both: a candidate
      answers, replicates, its SQL thread has neither failed nor been stopped, and semi-sync is on. */
  lemma EachIsAccounted(nodes: seq<NodeView>, former: Name, j: nat)
    requires DistinctNames(nodes) && j < |nodes|
    ensures var nv, c := nodes[j], ChoiceOf(nodes, former);
      var fit := nv.reachable && nv.responsive && nv.replica.configured && !nv.replica.lastSqlError &&
                 nv.replica.sqlRunning != No && nv.semisyncReplica;
      (nv.name in c.candidates <==> nv.name != former && fit) &&
      (nv.name in c.excluded <==> nv.name != former && !fit)
    ensures var nv, c := nodes[j], ChoiceOf(nodes, former);
      nv.name in c.excluded ==>
        (var why := c.excluded[nv.name];
         if !nv.reachable then why == AgentUnreachable
         else if !nv.responsive then why == MysqldNotResponsive
         else if !nv.replica.configured then why == NotConfigured
         else if nv.replica.lastSqlError then why == SqlError
         else if nv.replica.sqlRunning == No then why == SqlStopped
         else why == NoSemisync)
  {
    ExcludedEntry(nodes, former, j);
    CandidatesMember(nodes, former);
    var cands := Candidates(nodes, former);
    var nv := nodes[j];
    if nv in cands {
      var k :| 0 <= k < |cands| && cands[k] == nv;
      assert Names(cands)[k] == nv.name;
    } else {
      forall k | 0 <= k < |cands| ensures Names(cands)[k] != nv.name {
        assert cands[k] in cands;
        var m :| 0 <= m < |nodes| && nodes[m] == cands[k];
      }
    }
    hide Best, Diverged, AheadBy, Candidates, Excluded;
  }
}
