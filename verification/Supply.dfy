/** What a node can still come to execute before it is repointed: its own relay log, and whatever the
    chain of sources behind a running IO thread can pass on. It decides whether a repoint can attach
    an errant node, so also when the subset check of a rejoin (dbguard/manager/rejoin.py), which looks
    at executed sets only, can be trusted. */
module Supply {
  import opened Intervals
  import opened GtidSets
  import opened Selection
  import opened Fleet
  import opened Errant

  /** Node `n` applies what its source passes on, but for transactions torn in its relay log. */
  predicate Open(f: Fleet, n: Name) {
    n in f.nodes && f.nodes[n].source.Some? && !f.nodes[n].ioStopped && !f.nodes[n].sqlError
  }

  /** `g` is on the `k`-th source up from `n`, executed or about to be, and can come down to `n`
      without passing the primary `p`. */
  ghost predicate Brings(f: Fleet, n: Name, p: Name, g: Gtid, k: nat)
    decreases k
  {
    n in f.nodes && n != p &&
    if k == 0 then g in f.nodes[n].executed + Pending(f.nodes[n])
    else Open(f, n) && g !in f.nodes[n].torn && Brings(f, f.nodes[n].source.value, p, g, k - 1)
  }

  /** The `k`-th source up from `n`, short of the primary, still takes writes. */
  ghost predicate WritesAbove(f: Fleet, n: Name, p: Name, k: nat)
    decreases k
  {
    n in f.nodes && n != p &&
    if k == 0 then !f.nodes[n].superReadOnly
    else Open(f, n) && WritesAbove(f, f.nodes[n].source.value, p, k - 1)
  }

  /** All that `n` can come to execute other than through the primary is within the bound. */
  ghost predicate ContainedIn(f: Fleet, n: Name, p: Name, bound: Trxs) {
    n in f.nodes && p in f.nodes &&
    (forall k: nat :: !WritesAbove(f, n, p, k)) &&
    forall g, k: nat :: Brings(f, n, p, g, k) ==> g in bound
  }

  ghost predicate Contained(f: Fleet, n: Name, p: Name) {
    p in f.nodes && ContainedIn(f, n, p, f.nodes[p].executed)
  }

  lemma ContainedNow(f: Fleet, n: Name, p: Name, bound: Trxs)
    requires ContainedIn(f, n, p, bound) && n != p
    ensures f.nodes[n].superReadOnly && f.nodes[n].executed + Pending(f.nodes[n]) <= bound
  {
    assert !WritesAbove(f, n, p, 0);
    forall g | g in f.nodes[n].executed + Pending(f.nodes[n]) ensures g in bound {
      assert Brings(f, n, p, g, 0);
    }
  }

  /** For a node that receives nothing only its relay log counts. */
  lemma QuietContained(f: Fleet, n: Name, p: Name, bound: Trxs)
    requires Quiet(f, n) && p in f.nodes && n != p
    ensures ContainedIn(f, n, p, bound) <==> f.nodes[n].executed + Pending(f.nodes[n]) <= bound
  {
    if ContainedIn(f, n, p, bound) {
      forall g | g in f.nodes[n].executed + Pending(f.nodes[n]) ensures g in bound {
        assert Brings(f, n, p, g, 0);
      }
    }
  }

  // ----- contained stays contained

  lemma {:induction false} WritesBefore(f: Fleet, n: Name, p: Name, e: Env, k: nat)
    requires EnvEnabled(f, e) && WritesAbove(EnvDo(f, e), n, p, k)
    ensures WritesAbove(f, n, p, k)
    decreases k
  {
    SameNodes(f, e);
    OpenBefore(f, n, e);
    if k > 0 {
      WritesBefore(f, f.nodes[n].source.value, p, e, k - 1);
    }
  }

  lemma OpenBefore(f: Fleet, n: Name, e: Env)
    requires EnvEnabled(f, e) && n in f.nodes
    ensures n in EnvDo(f, e).nodes && EnvDo(f, e).nodes[n].source == f.nodes[n].source
    ensures Open(EnvDo(f, e), n) ==> Open(f, n)
    ensures f.nodes[n].torn <= EnvDo(f, e).nodes[n].torn
    ensures f.nodes[n].superReadOnly ==> EnvDo(f, e).nodes[n].superReadOnly
  {
  }

  /** What a node holds for certain after a step it held before, or its source had executed it, or it
      has just been committed there. */
  lemma HeldBefore(f: Fleet, n: Name, e: Env, g: Gtid)
    requires EnvEnabled(f, e) && n in f.nodes
    requires var node := EnvDo(f, e).nodes[n]; g in node.executed + Pending(node)
    ensures g in f.nodes[n].executed + Pending(f.nodes[n]) || e == Commit(n, g) ||
      (Open(f, n) && g !in f.nodes[n].torn && f.nodes[n].source.value in f.nodes &&
       g in f.nodes[f.nodes[n].source.value].executed)
  {
  }

  lemma {:induction false} BroughtBefore(f: Fleet, n: Name, p: Name, e: Env, g: Gtid, k: nat)
    requires EnvEnabled(f, e) && Brings(EnvDo(f, e), n, p, g, k) && p in f.nodes
    ensures Brings(f, n, p, g, k) || Brings(f, n, p, g, k + 1) || WritesAbove(f, n, p, k) ||
      g in f.nodes[p].executed
    decreases k
  {
    SameNodes(f, e);
    OpenBefore(f, n, e);
    if k == 0 {
      HeldBefore(f, n, e, g);
      if Open(f, n) && g !in f.nodes[n].torn && f.nodes[n].source.value in f.nodes
         && g in f.nodes[f.nodes[n].source.value].executed && f.nodes[n].source.value != p {
        assert Brings(f, f.nodes[n].source.value, p, g, 0);
      }
    } else {
      BroughtBefore(f, f.nodes[n].source.value, p, e, g, k - 1);
    }
  }

  /** Whatever the fleet does, a node contained in a bound that covers the primary stays so. */
  lemma ContainedEnv(f: Fleet, n: Name, p: Name, bound: Trxs, e: Env)
    requires ContainedIn(f, n, p, bound) && f.nodes[p].executed <= bound && EnvEnabled(f, e)
    ensures ContainedIn(EnvDo(f, e), n, p, bound)
  {
    var t := EnvDo(f, e);
    SameNodes(f, e);
    forall k: nat ensures !WritesAbove(t, n, p, k) {
      if WritesAbove(t, n, p, k) { WritesBefore(f, n, p, e, k); }
    }
    forall g, k: nat | Brings(t, n, p, g, k) ensures g in bound {
      BroughtBefore(f, n, p, e, g, k);
    }
  }

  lemma {:induction false} ContainedRun(f: Fleet, n: Name, p: Name, es: seq<Env>)
    requires Contained(f, n, p) && EnvRun(f, es)
    ensures Contained(EnvAfter(f, es), n, p)
    decreases |es|
  {
    if es != [] {
      ContainedEnv(f, n, p, f.nodes[p].executed, es[0]);
      EnvGrows(f, es[0], p);
      ContainedRun(EnvDo(f, es[0]), n, p, es[1..]);
    }
  }

  /** A node changes: read-only, with nothing new outside the bound, and with no link opened but to
      the primary. */
  ghost predicate Mild(f: Fleet, p: Name, m: Name, node: Node, bound: Trxs) {
    m in f.nodes && p in f.nodes && m != p && node.superReadOnly &&
    node.executed + Pending(node) <= f.nodes[m].executed + Pending(f.nodes[m]) + bound &&
    (node.source == None || node.source == Some(p) ||
     (node.source == f.nodes[m].source && node.ioStopped == f.nodes[m].ioStopped &&
      node.sqlError == f.nodes[m].sqlError && node.torn == f.nodes[m].torn))
  }

  lemma {:induction false} BroughtAfterPut(f: Fleet, n: Name, p: Name, m: Name, node: Node, bound: Trxs,
                                           g: Gtid, k: nat)
    requires Mild(f, p, m, node, bound) && Brings(Put(f, m, node), n, p, g, k)
    ensures Brings(f, n, p, g, k) || g in bound
    decreases k
  {
    if k > 0 {
      BroughtAfterPut(f, Put(f, m, node).nodes[n].source.value, p, m, node, bound, g, k - 1);
    }
  }

  lemma {:induction false} WritesAfterPut(f: Fleet, n: Name, p: Name, m: Name, node: Node, bound: Trxs, k: nat)
    requires Mild(f, p, m, node, bound) && WritesAbove(Put(f, m, node), n, p, k)
    ensures WritesAbove(f, n, p, k)
    decreases k
  {
    if k > 0 {
      WritesAfterPut(f, Put(f, m, node).nodes[n].source.value, p, m, node, bound, k - 1);
    }
  }

  lemma ContainedPut(f: Fleet, n: Name, p: Name, bound: Trxs, m: Name, node: Node)
    requires ContainedIn(f, n, p, bound) && Mild(f, p, m, node, bound)
    ensures ContainedIn(Put(f, m, node), n, p, bound)
  {
    var t := Put(f, m, node);
    forall k: nat ensures !WritesAbove(t, n, p, k) {
      if WritesAbove(t, n, p, k) { WritesAfterPut(f, n, p, m, node, bound, k); }
    }
    forall g, k: nat | Brings(t, n, p, g, k) ensures g in bound {
      BroughtAfterPut(f, n, p, m, node, bound, g, k);
    }
  }

  // ----- what is not contained can come down

  /** The primary as it was; the links, their SQL threads and the torn tails too. */
  ghost predicate Kept(f: Fleet, t: Fleet, p: Name) {
    t.nodes.Keys == f.nodes.Keys && p in f.nodes && t.nodes[p] == f.nodes[p] &&
    forall n :: n in f.nodes ==>
      t.nodes[n].source == f.nodes[n].source && t.nodes[n].ioStopped == f.nodes[n].ioStopped &&
      t.nodes[n].sqlError == f.nodes[n].sqlError && t.nodes[n].torn == f.nodes[n].torn
  }

  /** A run of the fleet after which `n` has executed `g`. */
  ghost predicate ComesDown(f: Fleet, n: Name, p: Name, g: Gtid, es: seq<Env>) {
    EnvRun(f, es) && Kept(f, EnvAfter(f, es), p) && n in f.nodes && g in EnvAfter(f, es).nodes[n].executed
  }

  lemma FirstEnv(f: Fleet, e: Env, rest: seq<Env>) returns (es: seq<Env>)
    requires EnvEnabled(f, e) && EnvRun(EnvDo(f, e), rest)
    ensures EnvRun(f, es) && EnvAfter(f, es) == EnvAfter(EnvDo(f, e), rest)
  {
    es := [e] + rest;
    assert es[1..] == rest;
  }

  lemma ApplyOne(f: Fleet, n: Name, p: Name, g: Gtid) returns (es: seq<Env>)
    requires n in f.nodes && p in f.nodes && n != p && g in Pending(f.nodes[n])
    ensures ComesDown(f, n, p, g, es)
  {
    var f1 := EnvDo(f, Wake(n));
    es := FirstEnv(f1, Apply(n, {g}), []);
    es := FirstEnv(f, Wake(n), es);
  }

  /** One hop: the source has executed it, the link heals, it is received and applied. */
  lemma OneHop(f: Fleet, n: Name, p: Name, g: Gtid) returns (es: seq<Env>)
    requires Open(f, n) && p in f.nodes && n != p && g !in f.nodes[n].torn && f.nodes[n].source != Some(p)
    requires f.nodes[n].source.value in f.nodes && g in f.nodes[f.nodes[n].source.value].executed
    ensures ComesDown(f, n, p, g, es)
  {
    if g in f.nodes[n].executed {
      es := [];
    } else if g in f.nodes[n].retrieved {
      es := ApplyOne(f, n, p, g);
    } else {
      es := FetchOne(f, n, p, g);
    }
  }

  lemma FetchOne(f: Fleet, n: Name, p: Name, g: Gtid) returns (es: seq<Env>)
    requires Open(f, n) && p in f.nodes && n != p && g !in f.nodes[n].torn && f.nodes[n].source != Some(p)
    requires f.nodes[n].source.value in f.nodes && g in f.nodes[f.nodes[n].source.value].executed
    requires g !in f.nodes[n].executed && g !in f.nodes[n].retrieved
    ensures ComesDown(f, n, p, g, es)
  {
    var f3 := Linked(f, n, f.nodes[n].source.value);
    FetchKeeps(f, n, p, g);
    var t := EnvDo(f3, Receive(n, {g}));
    es := ApplyOne(t, n, p, g);
    es := FirstEnv(f3, Receive(n, {g}), es);
    es := LinkedRun(f, n, f.nodes[n].source.value, es);
  }

  /** Both ends up, and the links healed. */
  ghost function Linked(f: Fleet, n: Name, m: Name): Fleet
    requires n in f.nodes && m in f.nodes
  {
    EnvDo(EnvDo(EnvDo(f, Wake(n)), Wake(m)), Heal)
  }

  lemma FetchKeeps(f: Fleet, n: Name, p: Name, g: Gtid)
    requires Open(f, n) && p in f.nodes && n != p && g !in f.nodes[n].torn && f.nodes[n].source != Some(p)
    requires f.nodes[n].source.value in f.nodes && g in f.nodes[f.nodes[n].source.value].executed
    requires g !in f.nodes[n].executed && g !in f.nodes[n].retrieved
    ensures var f3 := Linked(f, n, f.nodes[n].source.value);
      EnvEnabled(f3, Receive(n, {g})) &&
      var t := EnvDo(f3, Receive(n, {g})); Kept(f, t, p) && g in Pending(t.nodes[n])
  {
    var f3 := Linked(f, n, f.nodes[n].source.value);
    assert IoOk(f3, n) && {g} <= Missing(f3, n);
  }

  lemma LinkedRun(f: Fleet, n: Name, m: Name, rest: seq<Env>) returns (es: seq<Env>)
    requires n in f.nodes && m in f.nodes && EnvRun(Linked(f, n, m), rest)
    ensures EnvRun(f, es) && EnvAfter(f, es) == EnvAfter(Linked(f, n, m), rest)
  {
    var f1 := EnvDo(f, Wake(n));
    es := FirstEnv(EnvDo(f1, Wake(m)), Heal, rest);
    es := FirstEnv(f1, Wake(m), es);
    es := FirstEnv(f, Wake(n), es);
  }

  lemma {:induction false} BringRun(f: Fleet, n: Name, p: Name, g: Gtid, k: nat) returns (es: seq<Env>)
    requires Brings(f, n, p, g, k) && p in f.nodes
    ensures ComesDown(f, n, p, g, es)
    decreases k
  {
    if k > 0 {
      var x := BringRun(f, f.nodes[n].source.value, p, g, k - 1);
      var t := EnvAfter(f, x);
      var y := OneHop(t, n, p, g);
      EnvConcat(f, x, y);
      es := x + y;
    } else if g in f.nodes[n].executed {
      es := [];
    } else {
      es := ApplyOne(f, n, p, g);
    }
  }

  /** The node that takes the write. */
  ghost function Writer(f: Fleet, n: Name, p: Name, k: nat): Name
    requires WritesAbove(f, n, p, k)
    decreases k
  {
    if k == 0 then n else Writer(f, f.nodes[n].source.value, p, k - 1)
  }

  lemma {:induction false} WriteBrings(f: Fleet, t: Fleet, n: Name, p: Name, g: Gtid, k: nat)
    requires WritesAbove(f, n, p, k) && Kept(f, t, p)
    requires forall m :: m in f.nodes ==> g !in f.nodes[m].torn
    requires Writer(f, n, p, k) in t.nodes && g in t.nodes[Writer(f, n, p, k)].executed
    ensures Brings(t, n, p, g, k)
    decreases k
  {
    if k > 0 {
      WriteBrings(f, t, f.nodes[n].source.value, p, g, k - 1);
    }
  }

  lemma {:induction false} WriterIsWritable(f: Fleet, n: Name, p: Name, k: nat)
    requires WritesAbove(f, n, p, k)
    ensures var m := Writer(f, n, p, k); m in f.nodes && m != p && !f.nodes[m].superReadOnly
    decreases k
  {
    if k > 0 {
      WriterIsWritable(f, f.nodes[n].source.value, p, k - 1);
    }
  }

  /** A write on a source that takes them, which nobody else has, comes down. */
  lemma WriteRun(f: Fleet, n: Name, p: Name, k: nat) returns (g: Gtid, es: seq<Env>)
    requires WritesAbove(f, n, p, k) && p in f.nodes
    ensures ComesDown(f, n, p, g, es) && g !in f.nodes[p].executed
  {
    g := NewTransaction(f);
    var m := Writer(f, n, p, k);
    WriterIsWritable(f, n, p, k);
    var t := Written(f, m, g);
    WrittenKeeps(f, m, p, g);
    WriteBrings(f, t, n, p, g, k);
    es := BringRun(t, n, p, g, k);
    es := WrittenRun(f, m, g, es);
  }

  /** The node up, and the write committed there. */
  ghost function Written(f: Fleet, m: Name, g: Gtid): Fleet
    requires m in f.nodes && !f.nodes[m].superReadOnly && Fresh(f, g)
  {
    EnvDo(EnvDo(f, Wake(m)), Commit(m, g))
  }

  lemma WrittenKeeps(f: Fleet, m: Name, p: Name, g: Gtid)
    requires m in f.nodes && !f.nodes[m].superReadOnly && Fresh(f, g) && p in f.nodes && m != p
    ensures var t := Written(f, m, g); Kept(f, t, p) && m in t.nodes && g in t.nodes[m].executed
  {
  }

  lemma WrittenRun(f: Fleet, m: Name, g: Gtid, rest: seq<Env>) returns (es: seq<Env>)
    requires m in f.nodes && !f.nodes[m].superReadOnly && Fresh(f, g) && EnvRun(Written(f, m, g), rest)
    ensures EnvRun(f, es) && EnvAfter(f, es) == EnvAfter(Written(f, m, g), rest)
  {
    es := FirstEnv(EnvDo(f, Wake(m)), Commit(m, g), rest);
    es := FirstEnv(f, Wake(m), es);
  }

  /** What is not contained in the bound comes down in some run, without the primary; with the bound
      reaching as far as the primary's own set the primary then lacks it. */
  lemma LooseRun(f: Fleet, n: Name, p: Name, bound: Trxs) returns (g: Gtid, es: seq<Env>)
    requires n in f.nodes && p in f.nodes && !ContainedIn(f, n, p, bound) && f.nodes[p].executed <= bound
    ensures ComesDown(f, n, p, g, es) && g !in f.nodes[p].executed
  {
    if k: nat :| WritesAbove(f, n, p, k) {
      g, es := WriteRun(f, n, p, k);
    } else {
      var h, k: nat :| Brings(f, n, p, h, k) && h !in bound;
      g := h;
      es := BringRun(f, n, p, g, k);
    }
  }

  // ----- the subset check

  lemma LooseDefeatsCheck(f: Fleet, n: Name, p: Name)
    requires n in f.nodes && Primary(f, p) && n != p
    requires f.nodes[n].executed <= f.nodes[p].executed && !Contained(f, n, p)
    ensures exists e0, e1, e2 :: !Trusts(f, n, p, e0, e1, e2)
  {
    var g, es := LooseRun(f, n, p, f.nodes[p].executed);
    var t := EnvAfter(f, es);
    assert EnvRun(f, []) && EnvAfter(f, []) == f;
    assert EnvRun(Attached(t, n, p), []);
    assert Finally(f, n, p, [], es, []) == Attached(t, n, p);
    assert !Trusts(f, n, p, [], es, []);
  }

  lemma ContainedTrusted(f: Fleet, n: Name, p: Name, e0: seq<Env>, e1: seq<Env>, e2: seq<Env>)
    requires n in f.nodes && Primary(f, p) && n != p && Schedule(f, n, p, e0, e1, e2)
    requires f.nodes[n].executed <= f.nodes[p].executed ==> Contained(f, n, p)
    ensures Trusts(f, n, p, e0, e1, e2)
  {
    SubsetCheckExact(f, n, p, e0, e1, e2);
    var f1 := EnvAfter(f, e0);
    var f2 := EnvAfter(f1, e1);
    ExcessRun(f, n, p, e0);
    if CheckPasses(f, n, p, e0) {
      StillWithin(f.nodes[n].executed, f.nodes[p].executed, f1.nodes[n].executed, f1.nodes[p].executed);
      ContainedRun(f, n, p, e0);
      ContainedRun(f1, n, p, e1);
      ContainedNow(f2, n, p, f2.nodes[p].executed);
    }
  }

  /** The check compares executed sets only. Over all schedules it is right, for any node, if and only
      if it fails anyway, or whatever the node can still come to execute is in the primary: its
      relay log, and what its sources have and may yet write. */
  lemma SubsetCheckDecides(f: Fleet, n: Name, p: Name)
    requires n in f.nodes && Primary(f, p) && n != p
    ensures (forall e0, e1, e2 :: Trusts(f, n, p, e0, e1, e2)) <==>
      (f.nodes[n].executed <= f.nodes[p].executed ==> Contained(f, n, p))
  {
    if f.nodes[n].executed <= f.nodes[p].executed && !Contained(f, n, p) {
      LooseDefeatsCheck(f, n, p);
    } else {
      forall e0, e1, e2 ensures Trusts(f, n, p, e0, e1, e2) {
        if Schedule(f, n, p, e0, e1, e2) {
          ContainedTrusted(f, n, p, e0, e1, e2);
        }
      }
    }
  }

  /** Of a node that receives nothing: if and only if its relay log adds nothing the primary lacks. */
  lemma QuietCheckDecides(f: Fleet, n: Name, p: Name)
    requires Quiet(f, n) && Primary(f, p) && n != p
    ensures (forall e0, e1, e2 :: Trusts(f, n, p, e0, e1, e2)) <==>
      (f.nodes[n].executed <= f.nodes[p].executed ==> Pending(f.nodes[n]) <= f.nodes[p].executed)
  {
    SubsetCheckDecides(f, n, p);
    QuietContained(f, n, p, f.nodes[p].executed);
  }
}
