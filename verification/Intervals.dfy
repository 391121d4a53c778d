/** Inclusive integer intervals and the loops over them: `_normalize`, `_subtract_iv` and
    `_intersect_iv` of dbguard/gtid.py, and the agent's `_interval_count`. A list of intervals
    denotes the set of integers it covers; every loop is specified by that set. */
module Intervals {

  datatype Option<+T> = None | Some(value: T)

  // ----- finite sets

  lemma SubsetSize<T>(a: set<T>, b: set<T>)
    requires a <= b
    ensures |a| <= |b|
    ensures |a| == |b| ==> a == b
  {
    var d := b - a;
    assert b == a + d;
  }

  lemma EmptyDifference<T>(a: set<T>, b: set<T>)
    ensures a - b == {} <==> a <= b
  {
    assert a == (a - b) + (a * b);
  }

  // ----- intervals

  datatype Interval = Interval(lo: int, hi: int) {
    predicate Valid() { lo <= hi }

    predicate Has(n: int) { lo <= n <= hi }
  }

  ghost function Range(iv: Interval): set<int> {
    set n | iv.lo <= n <= iv.hi && iv.Has(n)
  }

  /** The integers a list of intervals covers, in any order and with any overlap. */
  ghost function Points(s: seq<Interval>): set<int> {
    if s == [] then {} else Points(s[..|s| - 1]) + Range(s[|s| - 1])
  }

  ghost predicate AllValid(s: seq<Interval>) {
    forall i :: 0 <= i < |s| ==> s[i].Valid()
  }

  /** Sorted, non-empty and pairwise disjoint. */
  ghost predicate Disjoint(s: seq<Interval>) {
    AllValid(s) && forall i, j :: 0 <= i < j < |s| ==> s[i].hi < s[j].lo
  }

  /** Sorted, non-empty, disjoint and never adjacent: the merged form a GTID set stores. */
  ghost predicate Canonical(s: seq<Interval>) {
    s == [] ||
    var init, last := s[..|s| - 1], s[|s| - 1];
    last.Valid() && Canonical(init) && (init != [] ==> init[|init| - 1].hi + 1 < last.lo)
  }

  // ----- the set a list denotes

  lemma {:induction false} PointsMember(s: seq<Interval>, n: int)
    ensures n in Points(s) <==> exists i :: 0 <= i < |s| && s[i].Has(n)
  {
    if s != [] {
      var t := s[..|s| - 1];
      PointsMember(t, n);
      assert forall i :: 0 <= i < |t| ==> t[i] == s[i];
      assert s[|s| - 1].Has(n) <==> n in Range(s[|s| - 1]);
    }
  }

  lemma PointsMembers(s: seq<Interval>)
    ensures forall n :: n in Points(s) <==> exists i :: 0 <= i < |s| && s[i].Has(n)
  {
    forall n ensures n in Points(s) <==> exists i :: 0 <= i < |s| && s[i].Has(n) {
      PointsMember(s, n);
    }
  }

  lemma PointsAppend(s: seq<Interval>, iv: Interval)
    ensures Points(s + [iv]) == Points(s) + Range(iv)
  {
    assert (s + [iv])[..|s|] == s;
  }

  lemma {:induction false} PointsConcat(s: seq<Interval>, t: seq<Interval>)
    ensures Points(s + t) == Points(s) + Points(t)
  {
    if t == [] {
      assert s + t == s;
    } else {
      var init := t[..|t| - 1];
      PointsConcat(s, init);
      assert s + t == s + init + [t[|t| - 1]];
      PointsAppend(s + init, t[|t| - 1]);
    }
  }

  lemma PointsWithin(s: seq<Interval>, t: seq<Interval>)
    requires multiset(s) == multiset(t)
    ensures Points(s) <= Points(t)
    ensures AllValid(t) ==> AllValid(s)
  {
    assert forall i :: 0 <= i < |s| ==> s[i] in multiset(t);
    PointsMembers(s);
    PointsMembers(t);
    forall n | n in Points(s) ensures n in Points(t) {
      var i :| 0 <= i < |s| && s[i].Has(n);
      var j :| 0 <= j < |t| && t[j] == s[i];
    }
  }

  /** Lists with the same intervals cover the same integers, in whatever order. */
  lemma PointsOfMultiset(s: seq<Interval>, t: seq<Interval>)
    requires multiset(s) == multiset(t)
    ensures Points(s) == Points(t)
    ensures AllValid(s) <==> AllValid(t)
  {
    PointsWithin(s, t);
    PointsWithin(t, s);
  }

  lemma {:induction false} CanonicalBounds(s: seq<Interval>)
    requires Canonical(s) && s != []
    ensures forall n :: n in Points(s) ==> n <= s[|s| - 1].hi
    ensures s[|s| - 1].hi in Points(s)
    ensures forall n {:trigger n in Points(s[..|s| - 1])} :: n in Points(s[..|s| - 1]) ==> n + 1 < s[|s| - 1].lo
  {
    var init := s[..|s| - 1];
    if init != [] {
      CanonicalBounds(init);
    }
    assert s[|s| - 1].Has(s[|s| - 1].hi);
  }

  lemma {:induction false} CanonicalIsDisjoint(s: seq<Interval>)
    requires Canonical(s)
    ensures Disjoint(s)
  {
    if s != [] {
      CanonicalIsDisjoint(s[..|s| - 1]);
      assert forall i :: 0 <= i < |s| - 1 ==> s[..|s| - 1][i] == s[i];
    }
  }

  /** The merged form is unique: equal sets of integers have one representation. */
  lemma {:induction false} CanonicalUnique(a: seq<Interval>, b: seq<Interval>)
    requires Canonical(a) && Canonical(b) && Points(a) == Points(b)
    ensures a == b
  {
    if a != [] { CanonicalBounds(a); }
    if b != [] { CanonicalBounds(b); }
    if a != [] && b != [] {
      var ai, al, bi, bl := a[..|a| - 1], a[|a| - 1], b[..|b| - 1], b[|b| - 1];
      assert al.hi == bl.hi;
      assert bl.lo - 1 !in Points(b) && al.lo - 1 !in Points(a);
      assert al.Has(bl.lo - 1) ==> bl.lo - 1 in Points(a);
      assert bl.Has(al.lo - 1) ==> al.lo - 1 in Points(b);
      assert al == bl;
      assert Points(ai) == Points(a) - Range(al);
      assert Points(bi) == Points(b) - Range(bl);
      CanonicalUnique(ai, bi);
      assert a == ai + [al] && b == bi + [bl];
    }
  }

  // ----- _normalize

  /** Python's tuple order, which `sorted(intervals)` uses. */
  predicate Before(a: Interval, b: Interval) {
    a.lo < b.lo || (a.lo == b.lo && a.hi <= b.hi)
  }

  ghost predicate Sorted(s: seq<Interval>) {
    forall i, j :: 0 <= i < j < |s| ==> Before(s[i], s[j])
  }

  function Insert(iv: Interval, s: seq<Interval>): (r: seq<Interval>)
    requires Sorted(s)
    ensures Sorted(r) && multiset(r) == multiset(s) + multiset{iv}
  {
    if s == [] then [iv]
    else if Before(iv, s[0]) then
      [iv] + s
    else
      var rest := Insert(iv, s[1..]);
      assert s == [s[0]] + s[1..];
      ConsSorted(s[0], iv, s[1..], rest);
      [s[0]] + rest
  }

  lemma ConsSorted(x: Interval, iv: Interval, tail: seq<Interval>, rest: seq<Interval>)
    requires Sorted([x] + tail) && Sorted(rest) && !Before(iv, x)
    requires multiset(rest) == multiset(tail) + multiset{iv}
    ensures Sorted([x] + rest)
  {
    forall y | y in rest ensures Before(x, y) {
      assert y in multiset(rest);
      if y != iv {
        assert y in tail;
        var j :| 0 <= j < |tail| && tail[j] == y;
        assert ([x] + tail)[0] == x && ([x] + tail)[j + 1] == y;
      }
    }
  }

  function Sort(s: seq<Interval>): (r: seq<Interval>)
    ensures Sorted(r) && multiset(r) == multiset(s)
  {
    if s == [] then []
    else
      assert s == [s[0]] + s[1..];
      Insert(s[0], Sort(s[1..]))
  }

  /** One step of the merge: extend the last interval, or start a new one. */
  function Push(out: seq<Interval>, iv: Interval): seq<Interval> {
    if out != [] && iv.lo <= out[|out| - 1].hi + 1 then
      var last := out[|out| - 1];
      out[..|out| - 1] + [Interval(last.lo, if iv.hi > last.hi then iv.hi else last.hi)]
    else
      out + [iv]
  }

  function Merge(s: seq<Interval>): seq<Interval> {
    if s == [] then [] else Push(Merge(s[..|s| - 1]), s[|s| - 1])
  }

  lemma PushStep(out: seq<Interval>, iv: Interval)
    requires Canonical(out) && iv.Valid()
    requires out != [] ==> out[|out| - 1].lo <= iv.lo
    ensures Canonical(Push(out, iv))
    ensures Points(Push(out, iv)) == Points(out) + Range(iv)
  {
    hide Canonical, Points, Range;
    if out != [] && iv.lo <= out[|out| - 1].hi + 1 {
      var init, last := out[..|out| - 1], out[|out| - 1];
      var merged := Interval(last.lo, if iv.hi > last.hi then iv.hi else last.hi);
      CanonicalLast(out);
      RangesJoin(last, iv);
      CanonicalAppend(init, merged);
      Regroup(Points(init), Range(last), Range(iv));
    } else {
      CanonicalAppend(out, iv);
    }
  }

  lemma CanonicalLast(s: seq<Interval>)
    requires Canonical(s) && s != []
    ensures var init, last := s[..|s| - 1], s[|s| - 1];
      last.Valid() && Canonical(init) && (init != [] ==> init[|init| - 1].hi + 1 < last.lo) &&
      Points(s) == Points(init) + Range(last)
  {
  }

  lemma RangesJoin(a: Interval, b: Interval)
    requires a.Valid() && b.Valid() && a.lo <= b.lo <= a.hi + 1
    ensures Range(Interval(a.lo, if b.hi > a.hi then b.hi else a.hi)) == Range(a) + Range(b)
  {
  }

  lemma Regroup<T>(a: set<T>, b: set<T>, c: set<T>)
    ensures (a + b) + c == a + (b + c)
  {
  }

  lemma EmptyIsCanonical()
    ensures Canonical([]) && Points([]) == {}
  {
  }

  /** Merging a sorted list keeps the set it denotes and leaves it canonical. */
  lemma {:induction false} MergeSpec(s: seq<Interval>)
    requires Sorted(s) && AllValid(s)
    ensures Canonical(Merge(s))
    ensures Points(Merge(s)) == Points(s)
    ensures s == [] <==> Merge(s) == []
    ensures s != [] ==> Merge(s)[|Merge(s)| - 1].lo <= s[|s| - 1].lo
  {
    hide Canonical;
    if s == [] {
      EmptyIsCanonical();
    } else {
      var init := s[..|s| - 1];
      MergeSpec(init);
      assert init != [] ==> Before(init[|init| - 1], s[|s| - 1]);
      PushStep(Merge(init), s[|s| - 1]);
    }
  }

  /** The loop of `_normalize` over the sorted intervals: None stands for the GtidParseError of an
      inverted interval. */
  method MergeSorted(s: seq<Interval>) returns (r: Option<seq<Interval>>)
    ensures r.Some? <==> AllValid(s)
    ensures r.Some? ==> r.value == Merge(s)
  {
    var out: seq<Interval> := [];
    var i := 0;
    while i < |s|
      invariant 0 <= i <= |s|
      invariant forall j :: 0 <= j < i ==> s[j].Valid()
      invariant out == Merge(s[..i])
    {
      var iv := s[i];
      if iv.lo > iv.hi {
        assert !s[i].Valid();
        return None;
      }
      assert s[..i + 1][..i] == s[..i];
      if out != [] && iv.lo <= out[|out| - 1].hi + 1 {
        var last := out[|out| - 1];
        out := out[..|out| - 1] + [Interval(last.lo, if iv.hi > last.hi then iv.hi else last.hi)];
      } else {
        out := out + [iv];
      }
      i := i + 1;
    }
    assert s[..i] == s;
    r := Some(out);
  }

  /** `_normalize`. */
  method Normalize(intervals: seq<Interval>) returns (r: Option<seq<Interval>>)
    ensures r.Some? <==> AllValid(intervals)
    ensures r.Some? ==> Canonical(r.value) && Points(r.value) == Points(intervals)
  {
    var s := Sort(intervals);
    PointsOfMultiset(intervals, s);
    r := MergeSorted(s);
    if r.Some? {
      MergeSpec(s);
    }
  }

  // ----- count

  function Count(s: seq<Interval>): int {
    if s == [] then 0 else Count(s[..|s| - 1]) + s[|s| - 1].hi - s[|s| - 1].lo + 1
  }

  lemma {:induction false} RangeSize(iv: Interval)
    requires iv.lo <= iv.hi + 1
    ensures |Range(iv)| == iv.hi - iv.lo + 1
    decreases iv.hi - iv.lo + 1
  {
    if iv.lo <= iv.hi {
      RangeSize(Interval(iv.lo, iv.hi - 1));
      assert Range(iv) == Range(Interval(iv.lo, iv.hi - 1)) + {iv.hi};
    } else {
      assert Range(iv) == {};
    }
  }

  /** Summing lengths counts the integers covered, because nothing is covered twice. */
  lemma {:induction false} CountIsCardinality(s: seq<Interval>)
    requires Canonical(s)
    ensures Count(s) == |Points(s)|
  {
    if s != [] {
      CountIsCardinality(s[..|s| - 1]);
      CanonicalBounds(s);
      RangeSize(s[|s| - 1]);
      assert Points(s[..|s| - 1]) !! Range(s[|s| - 1]);
    }
  }

  // ----- _subtract_iv and _intersect_iv

  lemma NotCovered(b: seq<Interval>, k: nat, lo: int, hi: int)
    requires k <= |b|
    requires forall q :: 0 <= q < k ==> b[q].hi < lo
    requires forall q :: k <= q < |b| ==> hi < b[q].lo
    ensures Range(Interval(lo, hi)) !! Points(b)
  {
    PointsMembers(b);
    assert forall n, q :: lo <= n <= hi && 0 <= q < |b| ==> !b[q].Has(n);
  }

  lemma DisjointMinus(x: set<int>, y: set<int>)
    requires x !! y
    ensures x - y == x
  {
  }

  lemma Covered(b: seq<Interval>, k: nat)
    requires k < |b|
    ensures Range(b[k]) <= Points(b)
  {
    PointsMembers(b);
  }

  lemma CanonicalAppend(s: seq<Interval>, iv: Interval)
    requires Canonical(s) && iv.Valid() && (s != [] ==> s[|s| - 1].hi + 1 < iv.lo)
    ensures Canonical(s + [iv])
    ensures Points(s + [iv]) == Points(s) + Range(iv)
  {
    assert (s + [iv])[..|s|] == s;
  }

  lemma {:induction false} CanonicalTail(s: seq<Interval>)
    requires Canonical(s) && s != []
    ensures s[0].Valid() && Canonical(s[1..])
    ensures |s| > 1 ==> s[0].hi + 1 < s[1].lo
    ensures Points(s) == Range(s[0]) + Points(s[1..])
  {
    if |s| > 1 {
      var init := s[..|s| - 1];
      CanonicalTail(init);
      assert s[1..][..|s| - 2] == init[1..];
    } else {
      assert s[..0] == s[1..] == [];
    }
  }

  lemma {:induction false} CanonicalAbove(s: seq<Interval>, n: int)
    requires Canonical(s) && n in Points(s)
    ensures s[0].lo <= n
  {
    CanonicalTail(s);
    if n !in Range(s[0]) {
      CanonicalAbove(s[1..], n);
    }
  }

  /** `out` followed by what is left of `cur..e` past the intervals of `b` from `k` on. */
  function Cut(out: seq<Interval>, cur: int, e: int, b: seq<Interval>, k: nat): seq<Interval>
    decreases |b| - k
  {
    if k < |b| && b[k].lo <= e then
      var out' := if b[k].lo > cur then out + [Interval(cur, b[k].lo - 1)] else out;
      var next := if b[k].hi + 1 > cur then b[k].hi + 1 else cur;
      if next > e then out' else Cut(out', next, e, b, k + 1)
    else if cur <= e then out + [Interval(cur, e)]
    else out
  }

  lemma {:induction false} CutSpec(out: seq<Interval>, cur: int, e: int, b: seq<Interval>, k: nat)
    requires cur <= e && Disjoint(b) && k <= |b|
    requires forall q :: 0 <= q < k ==> b[q].hi < cur
    requires Canonical(out) && (out != [] ==> out[|out| - 1].hi + 1 < cur)
    ensures Canonical(Cut(out, cur, e, b, k))
    ensures Points(Cut(out, cur, e, b, k)) == Points(out) + (Range(Interval(cur, e)) - Points(b))
    decreases |b| - k
  {
    hide Canonical, Points, Range;
    if k < |b| && b[k].lo <= e {
      var bk := b[k];
      var out', next := CutStep(out, cur, e, b, k);
      if next <= e {
        CutSpec(out', next, e, b, k + 1);
      }
    } else {
      NotCovered(b, k, cur, e);
      CanonicalAppend(out, Interval(cur, e));
      DisjointMinus(Range(Interval(cur, e)), Points(b));
      assert Cut(out, cur, e, b, k) == out + [Interval(cur, e)];
    }
  }

  /** One interval of `b`: what is appended, and what is still to be cut. */
  lemma CutStep(out: seq<Interval>, cur: int, e: int, b: seq<Interval>, k: nat)
    returns (out': seq<Interval>, next: int)
    requires cur <= e && Disjoint(b) && k < |b| && b[k].lo <= e
    requires forall q :: 0 <= q < k ==> b[q].hi < cur
    requires Canonical(out) && (out != [] ==> out[|out| - 1].hi + 1 < cur)
    ensures next == if b[k].hi + 1 > cur then b[k].hi + 1 else cur
    ensures out' == if b[k].lo > cur then out + [Interval(cur, b[k].lo - 1)] else out
    ensures Canonical(out') && (out' != [] ==> out'[|out'| - 1].hi + 1 < next)
    ensures Points(out') + (Range(Interval(next, e)) - Points(b)) ==
            Points(out) + (Range(Interval(cur, e)) - Points(b))
    ensures next > e ==> Points(out') == Points(out) + (Range(Interval(cur, e)) - Points(b))
  {
    var bk := b[k];
    out' := if bk.lo > cur then out + [Interval(cur, bk.lo - 1)] else out;
    next := if bk.hi + 1 > cur then bk.hi + 1 else cur;
    NotCovered(b, k, cur, bk.lo - 1);
    Covered(b, k);
    if bk.lo > cur {
      CanonicalAppend(out, Interval(cur, bk.lo - 1));
    } else {
      assert Range(Interval(cur, bk.lo - 1)) == {};
    }
    assert bk.Valid();
    CutSets(Points(out), Points(out'), cur, e, bk, next, Points(b));
  }

  lemma CutSets(before: set<int>, after: set<int>, cur: int, e: int, bk: Interval, next: int,
                covered: set<int>)
    requires cur <= e && bk.lo <= e && bk.Valid() && Range(bk) <= covered
    requires next == if bk.hi + 1 > cur then bk.hi + 1 else cur
    requires Range(Interval(cur, bk.lo - 1)) !! covered
    requires after == before + Range(Interval(cur, bk.lo - 1))
    ensures after + (Range(Interval(next, e)) - covered) == before + (Range(Interval(cur, e)) - covered)
    ensures next > e ==> after == before + (Range(Interval(cur, e)) - covered)
  {
    var left, right := Range(Interval(cur, bk.lo - 1)), Range(Interval(next, e));
    assert Range(Interval(cur, e)) - covered == left + (right - covered) by {
      forall n | n in Range(Interval(cur, e)) && n !in covered ensures n in left || n in right {
        assert bk.Has(n) ==> n in Range(bk);
      }
    }
    assert next > e ==> right == {};
  }

  /** `_subtract_iv` as a function: each interval of `a`, cut by the intervals of `b`. */
  function CutAll(a: seq<Interval>, b: seq<Interval>): seq<Interval> {
    if a == [] then []
    else Cut(CutAll(a[..|a| - 1], b), a[|a| - 1].lo, a[|a| - 1].hi, b, 0)
  }

  lemma {:induction false} CutAllSpec(a: seq<Interval>, b: seq<Interval>)
    requires Canonical(a) && Disjoint(b)
    ensures Canonical(CutAll(a, b))
    ensures Points(CutAll(a, b)) == Points(a) - Points(b)
  {
    if a != [] {
      var init, last := a[..|a| - 1], a[|a| - 1];
      var left := CutAll(init, b);
      CutAllSpec(init, b);
      CanonicalBounds(a);
      if left != [] {
        CanonicalBounds(left);
        assert left[|left| - 1].hi in Points(init);
      }
      CutSpec(left, last.lo, last.hi, b, 0);
    }
  }

  /** Intervals of `b` that end before `cur` never matter again. */
  lemma {:induction false} CutSkips(out: seq<Interval>, cur: int, e: int, b: seq<Interval>, j: nat, k: nat)
    requires cur <= e && j <= k <= |b|
    requires forall q :: j <= q < k ==> b[q].Valid() && b[q].hi < cur
    ensures Cut(out, cur, e, b, j) == Cut(out, cur, e, b, k)
    decreases k - j
  {
    if j < k {
      assert b[j].Valid();
      CutSkips(out, cur, e, b, j + 1, k);
    }
  }

  /** The parts of `a` that `b` does not cover, by the two-pointer walk of `_subtract_iv`. */
  method SubtractIv(a: seq<Interval>, b: seq<Interval>) returns (out: seq<Interval>)
    requires Canonical(a) && Disjoint(b)
    ensures Canonical(out)
    ensures Points(out) == Points(a) - Points(b)
  {
    hide Canonical, Points;
    out := [];
    CanonicalIsDisjoint(a);
    var j := 0;
    var i := 0;
    while i < |a|
      invariant 0 <= i <= |a| && 0 <= j <= |b|
      invariant i == 0 ==> j == 0
      invariant i > 0 ==> forall q :: 0 <= q < j ==> b[q].hi < a[i - 1].lo
      invariant out == CutAll(a[..i], b)
    {
      var s, e := a[i].lo, a[i].hi;
      assert a[i].Valid() && (i > 0 ==> a[i - 1].Valid() && a[i - 1].hi < a[i].lo);
      assert a[..i + 1][..i] == a[..i];
      ghost var done := CutAll(a[..i + 1], b);
      assert done == Cut(out, s, e, b, 0);
      j := SkipBefore(b, j, s);
      CutSkips(out, s, e, b, 0, j);
      out := CutInterval(out, s, e, b, j);
      i := i + 1;
    }
    assert a[..i] == a;
    CutAllSpec(a, b);
  }

  method SkipBefore(b: seq<Interval>, start: nat, cur: int) returns (j: nat)
    requires start <= |b|
    requires forall q :: 0 <= q < start ==> b[q].hi < cur
    ensures start <= j <= |b| && forall q :: 0 <= q < j ==> b[q].hi < cur
    ensures j < |b| ==> b[j].hi >= cur
  {
    j := start;
    while j < |b| && b[j].hi < cur
      invariant start <= j <= |b|
      invariant forall q :: 0 <= q < j ==> b[q].hi < cur
    {
      j := j + 1;
    }
  }

  method CutInterval(prefix: seq<Interval>, s: int, e: int, b: seq<Interval>, j: nat)
    returns (out: seq<Interval>)
    requires s <= e && j <= |b|
    ensures out == Cut(prefix, s, e, b, j)
  {
    out := prefix;
    var cur, k := s, j;
    while k < |b| && b[k].lo <= e
      invariant j <= k <= |b| && cur <= e
      invariant Cut(out, cur, e, b, k) == Cut(prefix, s, e, b, j)
    {
      var bs, be := b[k].lo, b[k].hi;
      if bs > cur {
        out := out + [Interval(cur, bs - 1)];
      }
      cur := if be + 1 > cur then be + 1 else cur;
      if cur > e {
        break;
      }
      k := k + 1;
    }
    if cur <= e {
      out := out + [Interval(cur, e)];
    }
  }

  /** `out` followed by the overlaps of `a` with `b`. */
  function Overlap(out: seq<Interval>, a: seq<Interval>, b: seq<Interval>): seq<Interval>
    decreases |a| + |b|
  {
    if a == [] || b == [] then out
    else if a[0].hi < b[0].hi then Overlap(Emit(out, a[0], b[0]), a[1..], b)
    else Overlap(Emit(out, a[0], b[0]), a, b[1..])
  }

  function Emit(out: seq<Interval>, x: Interval, y: Interval): seq<Interval> {
    var s := if x.lo > y.lo then x.lo else y.lo;
    var e := if x.hi < y.hi then x.hi else y.hi;
    if s <= e then out + [Interval(s, e)] else out
  }

  /** The gap the next overlap must leave: `out` ends before one of the two pending intervals. */
  ghost predicate EndsBefore(out: seq<Interval>, a: seq<Interval>, b: seq<Interval>) {
    out != [] && a != [] && b != [] ==>
      out[|out| - 1].hi + 1 < a[0].lo || out[|out| - 1].hi + 1 < b[0].lo
  }

  lemma {:induction false} OverlapSpec(out: seq<Interval>, a: seq<Interval>, b: seq<Interval>)
    requires Canonical(a) && Canonical(b)
    requires Canonical(out) && EndsBefore(out, a, b)
    ensures Canonical(Overlap(out, a, b))
    ensures Points(Overlap(out, a, b)) == Points(out) + (Points(a) * Points(b))
    decreases |a| + |b|
  {
    if a != [] && b != [] {
      var out' := Emit(out, a[0], b[0]);
      HeadPoints(out, a, b);
      HeadGap(out, a, b);
      if a[0].hi < b[0].hi {
        OverlapSpec(out', a[1..], b);
      } else {
        OverlapSpec(out', a, b[1..]);
      }
    }
  }

  /** Emitting the overlap of the heads, then dropping the head that ends first: the sets. */
  lemma HeadPoints(out: seq<Interval>, a: seq<Interval>, b: seq<Interval>)
    requires a != [] && b != [] && Canonical(a) && Canonical(b)
    requires Canonical(out) && EndsBefore(out, a, b)
    ensures Points(Emit(out, a[0], b[0])) + (if a[0].hi < b[0].hi then Points(a[1..]) * Points(b)
                                             else Points(a) * Points(b[1..]))
         == Points(out) + (Points(a) * Points(b))
  {
    CanonicalTail(a);
    CanonicalTail(b);
    EmitSpec(out, a[0], b[0]);
    if a[0].hi < b[0].hi {
      TailsMiss(a[0], b[0], b[1..]);
    } else {
      TailsMiss(b[0], a[0], a[1..]);
    }
    OverlapSets(Points(out), Points(Emit(out, a[0], b[0])), Range(a[0]), Points(a[1..]),
                Range(b[0]), Points(b[1..]));
  }

  /** The same step: the merged form and the gap. */
  lemma HeadGap(out: seq<Interval>, a: seq<Interval>, b: seq<Interval>)
    requires a != [] && b != [] && Canonical(a) && Canonical(b)
    requires Canonical(out) && EndsBefore(out, a, b)
    ensures Canonical(a[1..]) && Canonical(b[1..]) && Canonical(Emit(out, a[0], b[0]))
    ensures if a[0].hi < b[0].hi then EndsBefore(Emit(out, a[0], b[0]), a[1..], b)
            else EndsBefore(Emit(out, a[0], b[0]), a, b[1..])
  {
    CanonicalTail(a);
    CanonicalTail(b);
    EmitSpec(out, a[0], b[0]);
  }

  lemma EmitSpec(out: seq<Interval>, x: Interval, y: Interval)
    requires x.Valid() && y.Valid() && Canonical(out)
    requires out != [] ==> out[|out| - 1].hi + 1 < x.lo || out[|out| - 1].hi + 1 < y.lo
    ensures Canonical(Emit(out, x, y))
    ensures Points(Emit(out, x, y)) == Points(out) + (Range(x) * Range(y))
    ensures Emit(out, x, y) == out ||
            Emit(out, x, y)[|Emit(out, x, y)| - 1].hi == if x.hi < y.hi then x.hi else y.hi
  {
    hide Canonical, Points, Range;
    var s := if x.lo > y.lo then x.lo else y.lo;
    var e := if x.hi < y.hi then x.hi else y.hi;
    RangeMeet(x, y);
    if s <= e {
      CanonicalAppend(out, Interval(s, e));
    } else {
      NoRange(Interval(s, e));
    }
  }

  lemma NoRange(iv: Interval)
    requires iv.hi < iv.lo
    ensures Range(iv) == {}
  {
  }

  lemma RangeMeet(x: Interval, y: Interval)
    ensures Range(x) * Range(y) ==
            Range(Interval(if x.lo > y.lo then x.lo else y.lo, if x.hi < y.hi then x.hi else y.hi))
  {
  }

  /** An interval that ends no later than the other's head misses the other's tail. */
  lemma TailsMiss(x: Interval, y: Interval, rest: seq<Interval>)
    requires x.hi <= y.hi && Canonical(rest) && (rest != [] ==> y.hi + 1 < rest[0].lo)
    ensures Range(x) !! Points(rest)
  {
    forall n | n in Points(rest) ensures n !in Range(x) {
      CanonicalAbove(rest, n);
    }
  }

  lemma OverlapSets(before: set<int>, after: set<int>, x: set<int>, xs: set<int>,
                    y: set<int>, ys: set<int>)
    requires after == before + (x * y)
    ensures x !! ys ==> after + (xs * (y + ys)) == before + ((x + xs) * (y + ys))
    ensures y !! xs ==> after + ((x + xs) * ys) == before + ((x + xs) * (y + ys))
  {
  }

  /** The overlap of two merged lists, by the two-pointer walk of `_intersect_iv`. */
  method IntersectIv(a: seq<Interval>, b: seq<Interval>) returns (out: seq<Interval>)
    requires Canonical(a) && Canonical(b)
    ensures Canonical(out)
    ensures Points(out) == Points(a) * Points(b)
  {
    hide Canonical, Points;
    out := [];
    var i, j := 0, 0;
    while i < |a| && j < |b|
      invariant 0 <= i <= |a| && 0 <= j <= |b|
      invariant Overlap(out, a[i..], b[j..]) == Overlap([], a, b)
      decreases |a| - i + |b| - j
    {
      assert a[i..][1..] == a[i + 1..] && b[j..][1..] == b[j + 1..];
      var s := if a[i].lo > b[j].lo then a[i].lo else b[j].lo;
      var e := if a[i].hi < b[j].hi then a[i].hi else b[j].hi;
      if s <= e {
        out := out + [Interval(s, e)];
      }
      if a[i].hi < b[j].hi {
        i := i + 1;
      } else {
        j := j + 1;
      }
    }
    EmptyIsCanonical();
    OverlapSpec([], a, b);
  }
}
