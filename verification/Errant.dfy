/** Errant transactions: what a replica holds and its primary lacks. A node attached clean stays
    clean under every step of the fleet, an errant one stays errant, so the subset check before a
    repoint and the watch after it (dbguard/manager/rejoin.py) can be judged exactly. */
module Errant {
  import opened Intervals
  import opened GtidSets
  import opened Selection
  import opened Fleet

  ghost predicate Follower(f: Fleet, n: Name, p: Name) {
    n in f.nodes && p in f.nodes && f.nodes[n].source == Some(p)
  }

  /** Read-only and holding nothing its primary has not executed. */
  ghost predicate Behind(f: Fleet, n: Name, p: Name) {
    n in f.nodes && p in f.nodes && f.nodes[n].superReadOnly && f.nodes[n].Have() <= f.nodes[p].executed
  }

  ghost predicate Clean(f: Fleet, p: Name) {
    p in f.nodes && forall n :: Follower(f, n, p) ==> Behind(f, n, p)
  }

  /** A node that takes transactions from its own clients only. */
  ghost predicate Primary(f: Fleet, p: Name) {
    p in f.nodes && f.nodes[p].source == None && f.nodes[p].retrieved <= f.nodes[p].executed
  }

  /** One node of the fleet changes. */
  lemma CleanAfterPut(f: Fleet, p: Name, n: Name, node: Node)
    requires Clean(f, p) && n in f.nodes && f.nodes[p].executed <= Put(f, n, node).nodes[p].executed
    requires node.source == Some(p) ==> node.superReadOnly && node.Have() <= Put(f, n, node).nodes[p].executed
    ensures Clean(Put(f, n, node), p)
  {
    forall m | Follower(Put(f, n, node), m, p) ensures Behind(Put(f, n, node), m, p) {
      assert m != n ==> Follower(f, m, p);
    }
  }

  /** A change that leaves its link and its data alone, and does not make it writable. */
  lemma CleanSame(f: Fleet, p: Name, n: Name, node: Node)
    requires Clean(f, p) && n in f.nodes && node.source == f.nodes[n].source
    requires node.executed == f.nodes[n].executed && node.retrieved == f.nodes[n].retrieved
    requires f.nodes[n].superReadOnly ==> node.superReadOnly
    ensures Clean(Put(f, n, node), p)
  {
    assert node.source == Some(p) ==> Follower(f, n, p);
    CleanAfterPut(f, p, n, node);
  }

  ghost function Excess(f: Fleet, n: Name, p: Name): Trxs
    requires n in f.nodes && p in f.nodes
  {
    f.nodes[n].executed - f.nodes[p].executed
  }

  predicate EnvRun(f: Fleet, es: seq<Env>)
    decreases |es|
  {
    es == [] || (EnvEnabled(f, es[0]) && EnvRun(EnvDo(f, es[0]), es[1..]))
  }

  function EnvAfter(f: Fleet, es: seq<Env>): Fleet
    requires EnvRun(f, es)
    decreases |es|
  {
    if es == [] then f else EnvAfter(EnvDo(f, es[0]), es[1..])
  }

  lemma {:induction false} EnvConcat(f: Fleet, x: seq<Env>, y: seq<Env>)
    requires EnvRun(f, x) && EnvRun(EnvAfter(f, x), y)
    ensures EnvRun(f, x + y) && EnvAfter(f, x + y) == EnvAfter(EnvAfter(f, x), y)
    decreases |x|
  {
    if x == [] {
      assert x + y == y;
    } else {
      assert (x + y)[1..] == x[1..] + y;
      EnvConcat(EnvDo(f, x[0]), x[1..], y);
    }
  }

  // ----- clean stays clean

  lemma BehindEnv(f: Fleet, n: Name, p: Name, e: Env)
    requires Follower(f, n, p) && Behind(f, n, p) && EnvEnabled(f, e)
    ensures Follower(EnvDo(f, e), n, p) && Behind(EnvDo(f, e), n, p)
  {
    var t := EnvDo(f, e);
    match e
    case Receive(r, got) =>
      assert r == n ==> t.nodes[n].Have() == f.nodes[n].Have() + got && got <= f.nodes[p].executed;
    case Tear(r, g) =>
      assert r == n ==> t.nodes[n].Have() == f.nodes[n].Have() + {g};
    case Apply(r, got) =>
      assert r == n ==> t.nodes[n].Have() == f.nodes[n].Have();
    case _ =>
  }

  lemma SameSource(f: Fleet, e: Env, n: Name)
    requires EnvEnabled(f, e)
    ensures n in EnvDo(f, e).nodes <==> n in f.nodes
    ensures n in f.nodes ==> EnvDo(f, e).nodes[n].source == f.nodes[n].source
  {
  }

  /** "Every member replicating from the primary holds only what the primary executed" is
      inductive over every step of the fleet. */
  lemma CleanEnv(f: Fleet, p: Name, e: Env)
    requires Clean(f, p) && EnvEnabled(f, e)
    ensures Clean(EnvDo(f, e), p)
  {
    SameSource(f, e, p);
    forall n | Follower(EnvDo(f, e), n, p) ensures Behind(EnvDo(f, e), n, p) {
      SameSource(f, e, n);
      BehindEnv(f, n, p, e);
    }
  }

  lemma {:induction false} BehindRun(f: Fleet, n: Name, p: Name, es: seq<Env>)
    requires Follower(f, n, p) && Behind(f, n, p) && EnvRun(f, es)
    ensures Follower(EnvAfter(f, es), n, p) && Behind(EnvAfter(f, es), n, p)
    decreases |es|
  {
    if es != [] {
      BehindEnv(f, n, p, es[0]);
      BehindRun(EnvDo(f, es[0]), n, p, es[1..]);
    }
  }

  // ----- errant stays errant

  lemma ExcessEnv(f: Fleet, n: Name, p: Name, e: Env)
    requires n in f.nodes && Primary(f, p) && EnvEnabled(f, e)
    ensures n in EnvDo(f, e).nodes && Primary(EnvDo(f, e), p)
    ensures Excess(f, n, p) <= Excess(EnvDo(f, e), n, p)
    ensures f.nodes[p].executed <= EnvDo(f, e).nodes[p].executed
    ensures f.nodes[n].executed <= EnvDo(f, e).nodes[n].executed
  {
  }

  /** A transaction a primary lacks and another node executed never reaches that primary. */
  lemma {:induction false} ExcessRun(f: Fleet, n: Name, p: Name, es: seq<Env>)
    requires n in f.nodes && Primary(f, p) && EnvRun(f, es)
    ensures n in EnvAfter(f, es).nodes && Primary(EnvAfter(f, es), p)
    ensures Excess(f, n, p) <= Excess(EnvAfter(f, es), n, p)
    ensures f.nodes[p].executed <= EnvAfter(f, es).nodes[p].executed
    ensures f.nodes[n].executed <= EnvAfter(f, es).nodes[n].executed
    decreases |es|
  {
    if es != [] {
      ExcessEnv(f, n, p, es[0]);
      ExcessRun(EnvDo(f, es[0]), n, p, es[1..]);
    }
  }

  // ----- the subset check before a repoint

  /** Read-only and receiving nothing. */
  ghost predicate Quiet(f: Fleet, n: Name) {
    n in f.nodes && f.nodes[n].superReadOnly && (f.nodes[n].source == None || f.nodes[n].ioStopped)
  }

  /** What the SQL thread may still apply out of the relay log. */
  ghost function Pending(node: Node): Trxs {
    if node.sqlError then {} else node.retrieved - node.executed - node.torn
  }

  lemma QuietEnv(f: Fleet, n: Name, e: Env)
    requires Quiet(f, n) && EnvEnabled(f, e)
    ensures Quiet(EnvDo(f, e), n)
    ensures var a, b := f.nodes[n], EnvDo(f, e).nodes[n];
      a.executed <= b.executed && b.executed + Pending(b) <= a.executed + Pending(a)
  {
  }

  lemma {:induction false} QuietRun(f: Fleet, n: Name, es: seq<Env>)
    requires Quiet(f, n) && EnvRun(f, es)
    ensures Quiet(EnvAfter(f, es), n)
    ensures var a, b := f.nodes[n], EnvAfter(f, es).nodes[n];
      a.executed <= b.executed && b.executed + Pending(b) <= a.executed + Pending(a)
    decreases |es|
  {
    if es != [] {
      QuietEnv(f, n, es[0]);
      QuietRun(EnvDo(f, es[0]), n, es[1..]);
    }
  }

  /** `rejoin_node` from the stable read on: the node's set is read in `f`, the primary's after
      `e0`, the repoint lands after `e1`. */
  ghost predicate CheckPasses(f: Fleet, n: Name, p: Name, e0: seq<Env>)
    requires n in f.nodes && EnvRun(f, e0) && p in EnvAfter(f, e0).nodes
  {
    f.nodes[n].executed <= EnvAfter(f, e0).nodes[p].executed
  }

  ghost predicate Schedule(f: Fleet, n: Name, p: Name, e0: seq<Env>, e1: seq<Env>, e2: seq<Env>) {
    EnvRun(f, e0) && EnvRun(EnvAfter(f, e0), e1) && n in EnvAfter(EnvAfter(f, e0), e1).nodes &&
    EnvRun(Attached(EnvAfter(EnvAfter(f, e0), e1), n, p), e2)
  }

  ghost function Attached(f: Fleet, n: Name, p: Name): Fleet
    requires n in f.nodes
  {
    Put(f, n, RepointedNode(f.nodes[n], p))
  }

  ghost function Finally(f: Fleet, n: Name, p: Name, e0: seq<Env>, e1: seq<Env>, e2: seq<Env>): Fleet
    requires Schedule(f, n, p, e0, e1, e2)
  {
    EnvAfter(Attached(EnvAfter(EnvAfter(f, e0), e1), n, p), e2)
  }

  /** A repoint decides for good: the attached node is within its primary after any later steps
      exactly when it was within it at the repoint. */
  lemma AttachDecides(f: Fleet, n: Name, p: Name, es: seq<Env>)
    requires n in f.nodes && Primary(f, p) && n != p && EnvRun(Attached(f, n, p), es)
    ensures var t := EnvAfter(Attached(f, n, p), es);
      Follower(t, n, p) &&
      (Excess(t, n, p) == {} <==> Excess(f, n, p) == {}) &&
      (Excess(f, n, p) == {} ==> Behind(t, n, p))
  {
    var g := Attached(f, n, p);
    assert Primary(g, p) && g.nodes[n].Have() == f.nodes[n].executed;
    ExcessRun(g, n, p, es);
    assert Excess(g, n, p) == Excess(f, n, p);
    StillFollows(g, n, p, es);
    if Excess(f, n, p) == {} {
      EmptyDifference(f.nodes[n].executed, f.nodes[p].executed);
      BehindRun(g, n, p, es);
    }
  }

  lemma {:induction false} StillFollows(f: Fleet, n: Name, p: Name, es: seq<Env>)
    requires Follower(f, n, p) && EnvRun(f, es)
    ensures Follower(EnvAfter(f, es), n, p)
    decreases |es|
  {
    if es != [] {
      SameSource(f, es[0], n);
      SameSource(f, es[0], p);
      StillFollows(EnvDo(f, es[0]), n, p, es[1..]);
    }
  }

  /** What the node executed between the stable read and the repoint. */
  ghost function Meanwhile(f: Fleet, n: Name, e0: seq<Env>, e1: seq<Env>): Trxs
    requires n in f.nodes && EnvRun(f, e0) && EnvRun(EnvAfter(f, e0), e1)
    requires n in EnvAfter(EnvAfter(f, e0), e1).nodes
  {
    EnvAfter(EnvAfter(f, e0), e1).nodes[n].executed - f.nodes[n].executed
  }

  lemma {:induction false} ExecutedGrows(f: Fleet, n: Name, es: seq<Env>)
    requires n in f.nodes && EnvRun(f, es)
    ensures n in EnvAfter(f, es).nodes && f.nodes[n].executed <= EnvAfter(f, es).nodes[n].executed
    decreases |es|
  {
    if es != [] {
      EnvGrows(f, es[0], n);
      ExecutedGrows(EnvDo(f, es[0]), n, es[1..]);
    }
  }

  /** What was read passes the check exactly when the primary holds it at the repoint as well. */
  lemma ReadHolds(f: Fleet, n: Name, p: Name, e0: seq<Env>, e1: seq<Env>)
    requires n in f.nodes && Primary(f, p) && EnvRun(f, e0) && EnvRun(EnvAfter(f, e0), e1)
    ensures p in EnvAfter(f, e0).nodes && n in EnvAfter(EnvAfter(f, e0), e1).nodes
    ensures Primary(EnvAfter(EnvAfter(f, e0), e1), p)
    ensures CheckPasses(f, n, p, e0)
      <==> f.nodes[n].executed <= EnvAfter(EnvAfter(f, e0), e1).nodes[p].executed
  {
    var f1 := EnvAfter(f, e0);
    ExcessRun(f, n, p, e0);
    ExcessRun(f1, n, p, e1);
    var f2 := EnvAfter(f1, e1);
    forall g | g in f.nodes[n].executed && g !in f1.nodes[p].executed ensures g !in f2.nodes[p].executed {
      assert g in Excess(f1, n, p);
      assert g in Excess(f2, n, p);
    }
  }

  /** A repointed node is clean for good exactly when its stable read passes the check and the
      primary holds, at the repoint, what the node executed since that read, for every interleaving
      of the reads, the repoint and the fleet's own steps. Of a quiet node with its relay log
      applied the check alone decides. */
  lemma SubsetCheckExact(f: Fleet, n: Name, p: Name, e0: seq<Env>, e1: seq<Env>, e2: seq<Env>)
    requires n in f.nodes && Primary(f, p) && n != p && Schedule(f, n, p, e0, e1, e2)
    ensures var t := Finally(f, n, p, e0, e1, e2);
      Follower(t, n, p) && p in EnvAfter(f, e0).nodes && p in EnvAfter(EnvAfter(f, e0), e1).nodes &&
      (t.nodes[n].executed <= t.nodes[p].executed <==>
         CheckPasses(f, n, p, e0) && Meanwhile(f, n, e0, e1) <= EnvAfter(EnvAfter(f, e0), e1).nodes[p].executed)
    ensures Quiet(f, n) && Pending(f.nodes[n]) == {} ==> Meanwhile(f, n, e0, e1) == {}
  {
    var f2 := EnvAfter(EnvAfter(f, e0), e1);
    ReadHolds(f, n, p, e0, e1);
    ExecutedGrows(f, n, e0);
    ExecutedGrows(EnvAfter(f, e0), n, e1);
    AttachDecides(f2, n, p, e2);
    var t := Finally(f, n, p, e0, e1, e2);
    EmptyDifference(f2.nodes[n].executed, f2.nodes[p].executed);
    EmptyDifference(t.nodes[n].executed, t.nodes[p].executed);
    SplitSubset(f.nodes[n].executed, f2.nodes[n].executed, f2.nodes[p].executed);
    if Quiet(f, n) {
      QuietRun(f, n, e0);
      QuietRun(EnvAfter(f, e0), n, e1);
    }
  }

  lemma SplitSubset<T>(a: set<T>, b: set<T>, c: set<T>)
    requires a <= b
    ensures b <= c <==> a <= c && b - a <= c
  {
    assert b == a + (b - a);
  }

  ghost predicate Trusts(f: Fleet, n: Name, p: Name, e0: seq<Env>, e1: seq<Env>, e2: seq<Env>) {
    n in f.nodes && Schedule(f, n, p, e0, e1, e2) &&
    p in EnvAfter(f, e0).nodes && CheckPasses(f, n, p, e0) ==>
      var t := Finally(f, n, p, e0, e1, e2);
      n in t.nodes && p in t.nodes && t.nodes[n].executed <= t.nodes[p].executed
  }

  lemma StillWithin<T>(a: set<T>, b: set<T>, a1: set<T>, b1: set<T>)
    requires a - b <= a1 - b1 && a <= b1
    ensures a <= b
  {
    assert forall x :: x in a && x !in b ==> x in a - b;
  }
}
