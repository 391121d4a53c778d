/** The agent's fallback phantom counter, `_interval_count` of dbguard/agent/gtidcount.py: the
    intervals of `a` are split by each interval of `b` in turn and the lengths left are summed.
    Neither list is merged or sorted. `subtract_count` sums it over the servers of `a`. */
module GtidCount {
  import opened Intervals
  import opened GtidSets

  /** Non-empty intervals that share no integer, in any order. */
  ghost predicate Separate(s: seq<Interval>) {
    s == [] ||
    (s[|s| - 1].Valid() && Range(s[|s| - 1]) !! Points(s[..|s| - 1]) && Separate(s[..|s| - 1]))
  }

  /** An interval of `b` that is inverted by more than one duplicates what lies between its bounds,
      unless an earlier interval has cut every piece there, or other intervals take all of it. */
  ghost predicate MaskedAt(b: seq<Interval>, j: nat)
    requires j < |b|
  {
    b[j].lo <= b[j].hi + 1 ||
    (exists i :: 0 <= i < j && b[i].lo <= b[j].lo && b[j].hi <= b[i].hi) ||
    forall x :: b[j].hi < x < b[j].lo ==> x in Points(b)
  }

  ghost predicate Masked(b: seq<Interval>) {
    forall j :: 0 <= j < |b| ==> MaskedAt(b, j)
  }

  function Piece(p: Interval, b: Interval): seq<Interval> {
    if b.hi < p.lo || b.lo > p.hi then [p]
    else
      (if p.lo < b.lo then [Interval(p.lo, b.lo - 1)] else []) +
      (if p.hi > b.hi then [Interval(b.hi + 1, p.hi)] else [])
  }

  function Split(pieces: seq<Interval>, b: Interval): seq<Interval> {
    if pieces == [] then [] else Split(pieces[..|pieces| - 1], b) + Piece(pieces[|pieces| - 1], b)
  }

  function SplitAll(pieces: seq<Interval>, b: seq<Interval>): seq<Interval> {
    if b == [] then pieces else Split(SplitAll(pieces, b[..|b| - 1]), b[|b| - 1])
  }

  function CountLeft(a: seq<Interval>, b: seq<Interval>): int {
    if a == [] then 0 else CountLeft(a[..|a| - 1], b) + Count(SplitAll([a[|a| - 1]], b))
  }

  lemma {:induction false} SeparateCount(s: seq<Interval>)
    requires Separate(s)
    ensures Count(s) == |Points(s)|
  {
    if s != [] {
      SeparateCount(s[..|s| - 1]);
      RangeSize(s[|s| - 1]);
    }
  }

  lemma SinglePoints(iv: Interval)
    ensures Points([iv]) == Range(iv)
    ensures iv.Valid() ==> Separate([iv])
  {
    assert [iv][..0] == [];
  }

  // ----- how often the pieces hold an integer

  ghost function Mult(pieces: seq<Interval>, x: int): nat {
    if pieces == [] then 0
    else Mult(pieces[..|pieces| - 1], x) + if pieces[|pieces| - 1].Has(x) then 1 else 0
  }

  lemma {:induction false} MultPoints(pieces: seq<Interval>, x: int)
    ensures Mult(pieces, x) > 0 <==> x in Points(pieces)
  {
    if pieces != [] {
      MultPoints(pieces[..|pieces| - 1], x);
    }
  }

  lemma {:induction false} MultConcat(s: seq<Interval>, t: seq<Interval>, x: int)
    ensures Mult(s + t, x) == Mult(s, x) + Mult(t, x)
  {
    if t == [] {
      assert s + t == s;
    } else {
      MultConcat(s, t[..|t| - 1], x);
      assert (s + t)[..|s + t| - 1] == s + t[..|t| - 1];
    }
  }

  predicate Over(p: Interval, u: int, v: int) { p.lo <= u && v <= p.hi }

  /** Some piece reaches from `u` to `v`. */
  ghost predicate Spans(pieces: seq<Interval>, u: int, v: int) {
    exists i :: 0 <= i < |pieces| && Over(pieces[i], u, v)
  }

  lemma PieceSpec(p: Interval, b: Interval, x: int)
    requires p.Valid()
    ensures AllValid(Piece(p, b))
    ensures Mult(Piece(p, b), x) ==
      if !p.Has(x) || b.Has(x) then 0 else if b.hi < x < b.lo && Over(p, b.hi, b.lo) then 2 else 1
  {
    var l := if p.lo < b.lo then [Interval(p.lo, b.lo - 1)] else [];
    var r := if p.hi > b.hi then [Interval(b.hi + 1, p.hi)] else [];
    OneMult(p, x);
    OneMult(Interval(p.lo, b.lo - 1), x);
    OneMult(Interval(b.hi + 1, p.hi), x);
    MultConcat(l, r, x);
  }

  lemma OneMult(p: Interval, x: int)
    ensures Mult([p], x) == if p.Has(x) then 1 else 0
  {
    assert [p][..0] == [];
  }

  /** A cut takes what it covers, and duplicates what an inverted one jumps over in a piece that
      reaches across. */
  lemma {:induction false} SplitSpec(pieces: seq<Interval>, b: Interval, x: int)
    requires AllValid(pieces)
    ensures AllValid(Split(pieces, b))
    ensures b.Has(x) ==> Mult(Split(pieces, b), x) == 0
    ensures !b.Has(x) ==> Mult(pieces, x) <= Mult(Split(pieces, b), x) <= 2 * Mult(pieces, x)
    ensures !b.Has(x) && !(b.hi < x < b.lo && Spans(pieces, b.hi, b.lo)) ==>
      Mult(Split(pieces, b), x) == Mult(pieces, x)
    ensures b.hi < x < b.lo && Spans(pieces, b.hi, b.lo) ==> Mult(Split(pieces, b), x) >= 2
  {
    if pieces != [] {
      var init, p := pieces[..|pieces| - 1], pieces[|pieces| - 1];
      SplitSpec(init, b, x);
      PieceSpec(p, b, x);
      MultConcat(Split(init, b), Piece(p, b), x);
      SpansLast(pieces, b.hi, b.lo);
      hide Piece, Split, Mult, Spans;
      SplitLast(pieces, b, x);
    }
  }

  lemma SplitLast(pieces: seq<Interval>, b: Interval, x: int)
    requires pieces != []
    ensures var init, p := pieces[..|pieces| - 1], pieces[|pieces| - 1];
      Split(pieces, b) == Split(init, b) + Piece(p, b) && Mult(pieces, x) == Mult(init, x) + if p.Has(x) then 1 else 0
  {
  }

  lemma SpansLast(pieces: seq<Interval>, u: int, v: int)
    requires pieces != []
    ensures Spans(pieces, u, v) <==> Spans(pieces[..|pieces| - 1], u, v) || Over(pieces[|pieces| - 1], u, v)
  {
    var init := pieces[..|pieces| - 1];
    if Spans(init, u, v) {
      var i :| 0 <= i < |init| && Over(init[i], u, v);
      assert pieces[i] == init[i];
    }
    if i :| 0 <= i < |pieces| && Over(pieces[i], u, v) {
      assert i < |init| ==> init[i] == pieces[i];
    }
  }

  lemma SpansConcat(s: seq<Interval>, t: seq<Interval>, u: int, v: int)
    ensures Spans(s + t, u, v) <==> Spans(s, u, v) || Spans(t, u, v)
  {
    if i :| 0 <= i < |s| && Over(s[i], u, v) {
      assert (s + t)[i] == s[i];
    }
    if i :| 0 <= i < |t| && Over(t[i], u, v) {
      assert (s + t)[|s| + i] == t[i];
    }
  }

  /** The cut leaves the stretch from `u` to `v` alone. */
  predicate Passes(b: Interval, u: int, v: int) { b.lo > v || b.hi < u }

  lemma {:induction false} SplitSpans(pieces: seq<Interval>, b: Interval, u: int, v: int)
    requires u < v
    ensures Spans(Split(pieces, b), u, v) <==> Spans(pieces, u, v) && Passes(b, u, v)
  {
    if pieces != [] {
      var init, p := pieces[..|pieces| - 1], pieces[|pieces| - 1];
      SplitSpans(init, b, u, v);
      SpansLast(pieces, u, v);
      SpansConcat(Split(init, b), Piece(p, b), u, v);
      PieceSpans(p, b, u, v);
    }
  }

  lemma PieceSpans(p: Interval, b: Interval, u: int, v: int)
    requires u < v
    ensures Spans(Piece(p, b), u, v) <==> Over(p, u, v) && Passes(b, u, v)
  {
    var l := if p.lo < b.lo then [Interval(p.lo, b.lo - 1)] else [];
    var r := if p.hi > b.hi then [Interval(b.hi + 1, p.hi)] else [];
    SpansConcat(l, r, u, v);
    OneSpans(p, u, v);
    OneSpans(Interval(p.lo, b.lo - 1), u, v);
    OneSpans(Interval(b.hi + 1, p.hi), u, v);
  }

  lemma OneSpans(p: Interval, u: int, v: int)
    ensures Spans([p], u, v) <==> Over(p, u, v)
  {
    assert [p][0] == p;
  }

  // ----- all of `b`

  lemma {:induction false} SplitAllSpec(pieces: seq<Interval>, b: seq<Interval>, x: int)
    requires AllValid(pieces)
    ensures AllValid(SplitAll(pieces, b))
    ensures Mult(SplitAll(pieces, b), x) > 0 <==> Mult(pieces, x) > 0 && x !in Points(b)
  {
    if b != [] {
      SplitAllSpec(pieces, b[..|b| - 1], x);
      SplitSpec(SplitAll(pieces, b[..|b| - 1]), b[|b| - 1], x);
    }
  }

  ghost predicate AllPass(b: seq<Interval>, u: int, v: int) {
    forall iv :: iv in b ==> Passes(iv, u, v)
  }

  lemma AllPassLast(b: seq<Interval>, u: int, v: int)
    requires b != []
    ensures AllPass(b, u, v) <==> AllPass(b[..|b| - 1], u, v) && Passes(b[|b| - 1], u, v)
  {
    var init, last := b[..|b| - 1], b[|b| - 1];
    assert forall iv :: iv in b <==> iv in init || iv == last by { assert b == init + [last]; }
  }

  lemma {:induction false} SplitAllSpans(pieces: seq<Interval>, b: seq<Interval>, u: int, v: int)
    requires u < v
    ensures Spans(SplitAll(pieces, b), u, v) <==> Spans(pieces, u, v) && AllPass(b, u, v)
  {
    if b != [] {
      var k := |b| - 1;
      AllPassLast(b, u, v);
      SplitNext(pieces, b, k);
      assert b[..k + 1] == b;
      hide Spans, Split, SplitAll, AllPass, Passes;
      SplitAllSpans(pieces, b[..k], u, v);
      SplitSpans(SplitAll(pieces, b[..k]), b[k], u, v);
    }
  }

  lemma SplitNext(pieces: seq<Interval>, b: seq<Interval>, k: nat)
    requires k < |b|
    ensures SplitAll(pieces, b[..k + 1]) == Split(SplitAll(pieces, b[..k]), b[k])
  {
    assert b[..k + 1][..k] == b[..k];
  }

  /** With every badly inverted interval masked no integer outside of `b` is held twice. */
  lemma {:induction false} HeldOnce(p: Interval, b: seq<Interval>, k: nat, x: int)
    requires p.Valid() && Masked(b) && k <= |b| && x !in Points(b)
    ensures AllValid(SplitAll([p], b[..k])) && Mult(SplitAll([p], b[..k]), x) <= 1
  {
    if k == 0 {
      OneMult(p, x);
      assert SplitAll([p], b[..0]) == [p];
    } else {
      var j := k - 1;
      HeldOnce(p, b, j, x);
      SplitNext([p], b, j);
      SplitSpec(SplitAll([p], b[..j]), b[j], x);
      PointsMember(b, x);
      assert !b[j].Has(x);
      if b[j].hi < x < b[j].lo {
        SplitAllSpans([p], b[..j], b[j].hi, b[j].lo);
        MaskedCuts(b, j, x);
      }
      hide SplitAll, Split, Mult, Spans, AllPass, Masked, Points;
    }
  }

  lemma MaskedCuts(b: seq<Interval>, j: nat, x: int)
    requires j < |b| && MaskedAt(b, j) && b[j].hi < x < b[j].lo && x !in Points(b)
    ensures !AllPass(b[..j], b[j].hi, b[j].lo)
  {
    var i :| 0 <= i < j && b[i].lo <= b[j].lo && b[j].hi <= b[i].hi;
    assert b[..j][i] == b[i] && !Passes(b[i], b[j].hi, b[j].lo);
  }

  /** What is outside of `b` is never held less often. */
  lemma {:induction false} HeldStays(pieces: seq<Interval>, b: seq<Interval>, k: nat, x: int)
    requires AllValid(pieces) && k <= |b| && x !in Points(b)
    ensures Mult(SplitAll(pieces, b[..k]), x) <= Mult(SplitAll(pieces, b), x)
    decreases |b| - k
  {
    if k == |b| {
      assert b[..k] == b;
    } else {
      HeldStays(pieces, b, k + 1, x);
      SplitNext(pieces, b, k);
      SplitAllSpec(pieces, b[..k], x);
      SplitSpec(SplitAll(pieces, b[..k]), b[k], x);
      PointsMember(b, x);
    }
  }

  lemma {:induction false} OnceIsSeparate(pieces: seq<Interval>)
    requires AllValid(pieces) && forall x :: Mult(pieces, x) <= 1
    ensures Separate(pieces)
  {
    if pieces != [] {
      var init, last := pieces[..|pieces| - 1], pieces[|pieces| - 1];
      forall x ensures Mult(init, x) <= 1 && !(last.Has(x) && x in Points(init)) {
        assert Mult(pieces, x) <= 1;
        MultPoints(init, x);
      }
      OnceIsSeparate(init);
    }
  }

  lemma UnionSize(x: set<int>, y: set<int>)
    ensures |x + y| <= |x| + |y|
    ensures !(x !! y) ==> |x + y| < |x| + |y|
  {
    assert x + y == x + (y - x) && y == (y - x) + (y * x);
    assert |x + y| == |x| + |y - x| && |y| == |y - x| + |y * x|;
    if !(x !! y) {
      assert y * x != {};
    }
  }

  /** A repeated integer is counted more than once. */
  lemma {:induction false} RepeatCounts(pieces: seq<Interval>, x: int)
    requires AllValid(pieces)
    ensures Count(pieces) >= |Points(pieces)| && (Mult(pieces, x) >= 2 ==> Count(pieces) > |Points(pieces)|)
  {
    if pieces != [] {
      var init, last := pieces[..|pieces| - 1], pieces[|pieces| - 1];
      RepeatCounts(init, x);
      MultPoints(init, x);
      RangeSize(last);
      UnionSize(Points(init), Range(last));
      assert last.Has(x) ==> x in Range(last);
    }
  }

  lemma LeftOfOne(p: Interval, b: seq<Interval>)
    requires p.Valid()
    ensures AllValid(SplitAll([p], b)) && Points(SplitAll([p], b)) == Range(p) - Points(b)
  {
    SplitAllSpec([p], b, 0);
    forall x ensures x in Points(SplitAll([p], b)) <==> x in Range(p) - Points(b) {
      OneMult(p, x);
      SplitAllSpec([p], b, x);
      MultPoints(SplitAll([p], b), x);
    }
  }

  lemma OneIsCardinality(p: Interval, b: seq<Interval>)
    requires p.Valid() && Masked(b)
    ensures Count(SplitAll([p], b)) == |Range(p) - Points(b)|
  {
    var pieces := SplitAll([p], b);
    LeftOfOne(p, b);
    assert b[..|b|] == b;
    forall x ensures Mult(pieces, x) <= 1 {
      MultPoints(pieces, x);
      if x !in Points(b) { HeldOnce(p, b, |b|, x); }
    }
    OnceIsSeparate(pieces);
    SeparateCount(pieces);
  }

  /** The fallback counts |a minus b| whenever the intervals of `a` are separate and the badly
      inverted ones of `b` masked. */
  lemma {:induction false} CountLeftIsCardinality(a: seq<Interval>, b: seq<Interval>)
    requires Separate(a) && Masked(b)
    ensures CountLeft(a, b) == |Points(a) - Points(b)|
  {
    if a != [] {
      var init, last := a[..|a| - 1], a[|a| - 1];
      CountLeftIsCardinality(init, b);
      OneIsCardinality(last, b);
      DisjointDifference(Points(init), Range(last), Points(b));
    }
  }

  lemma DisjointDifference(x: set<int>, y: set<int>, z: set<int>)
    requires x !! y
    ensures |(x + y) - z| == |x - z| + |y - z|
  {
    assert (x + y) - z == (x - z) + (y - z);
  }

  /** A badly inverted interval that is not masked counts twice what lies between its bounds and
      outside of `b`. */
  lemma InvertedMiscounts(b: seq<Interval>, j: nat)
    requires j < |b| && !MaskedAt(b, j)
    ensures var a := [Interval(b[j].hi, b[j].lo)];
      Separate(a) && CountLeft(a, b) > |Points(a) - Points(b)|
  {
    var u, v := b[j].hi, b[j].lo;
    var p := Interval(u, v);
    var x :| u < x < v && x !in Points(b);
    UnmaskedPasses(b, j);
    hide MaskedAt, Points, Range, Separate, SplitAll, Count, CountLeft, Mult, AllPass;
    SinglePoints(p);
    OneCountLeft(p, b);
    LeftOfOne(p, b);
    HeldTwice(b, j, x);
    HeldStays([p], b, j + 1, x);
    RepeatCounts(SplitAll([p], b), x);
  }

  lemma UnmaskedPasses(b: seq<Interval>, j: nat)
    requires j < |b| && !MaskedAt(b, j)
    ensures AllPass(b[..j], b[j].hi, b[j].lo)
  {
    hide Points;
    forall iv | iv in b[..j] ensures Passes(iv, b[j].hi, b[j].lo) {
      var i :| 0 <= i < j && b[i] == iv;
    }
  }

  lemma OneCountLeft(p: Interval, b: seq<Interval>)
    ensures CountLeft([p], b) == Count(SplitAll([p], b))
  {
    assert [p][..0] == [] && [p][|[p]| - 1] == p;
    assert CountLeft([p][..0], b) == 0;
  }

  lemma HeldTwice(b: seq<Interval>, j: nat, x: int)
    requires j < |b| && b[j].hi < x < b[j].lo && AllPass(b[..j], b[j].hi, b[j].lo)
    ensures Mult(SplitAll([Interval(b[j].hi, b[j].lo)], b[..j + 1]), x) >= 2
  {
    var p := Interval(b[j].hi, b[j].lo);
    OneSpans(p, p.lo, p.hi);
    SplitAllSpans([p], b[..j], p.lo, p.hi);
    SplitAllSpec([p], b[..j], x);
    hide SplitAll, Split, Mult, Spans, AllPass;
    SplitSpec(SplitAll([p], b[..j]), b[j], x);
    SplitNext([p], b, j);
  }

  /** The count is right for every separate `a` exactly when every badly inverted interval of `b` is
      masked by the others. */
  lemma CountLeftDecides(b: seq<Interval>)
    ensures (forall a: seq<Interval> :: Separate(a) ==> CountLeft(a, b) == |Points(a) - Points(b)|) <==> Masked(b)
  {
    if Masked(b) {
      forall a: seq<Interval> | Separate(a) ensures CountLeft(a, b) == |Points(a) - Points(b)| {
        CountLeftIsCardinality(a, b);
      }
    } else {
      var j :| 0 <= j < |b| && !MaskedAt(b, j);
      InvertedMiscounts(b, j);
    }
  }

  /** For one interval of `b`: exactly when it is not inverted by more than one. */
  lemma CountLeftExact(b: Interval)
    ensures (forall a: seq<Interval> :: Separate(a) ==> CountLeft(a, [b]) == |Points(a) - Range(b)|)
       <==> b.lo <= b.hi + 1
  {
    SinglePoints(b);
    CountLeftDecides([b]);
    if b.lo > b.hi + 1 {
      assert b.hi + 1 !in Points([b]);
      assert !MaskedAt([b], 0);
    }
  }

  lemma ValidIsMasked(b: seq<Interval>)
    requires AllValid(b)
    ensures Masked(b)
  {
    forall j | 0 <= j < |b| ensures MaskedAt(b, j) {
      assert b[j].Valid();
    }
  }

  /** `_interval_count`. */
  method IntervalCount(a: seq<Interval>, b: seq<Interval>) returns (count: int)
    ensures count == CountLeft(a, b)
    ensures Separate(a) && Masked(b) ==> count == |Points(a) - Points(b)|
  {
    count := 0;
    var i := 0;
    while i < |a|
      invariant 0 <= i <= |a|
      invariant count == CountLeft(a[..i], b)
    {
      var pieces := [a[i]];
      var j := 0;
      while j < |b|
        invariant 0 <= j <= |b|
        invariant pieces == SplitAll([a[i]], b[..j])
      {
        assert b[..j + 1][..j] == b[..j];
        pieces := SplitPieces(pieces, b[j]);
        j := j + 1;
      }
      assert b[..j] == b;
      assert a[..i + 1][..i] == a[..i];
      count := count + Count(pieces);
      i := i + 1;
    }
    assert a[..i] == a;
    if Separate(a) && Masked(b) {
      CountLeftIsCardinality(a, b);
    }
  }

  /** The innermost loop: every piece, split by one interval of `b`. */
  method SplitPieces(pieces: seq<Interval>, b: Interval) returns (next: seq<Interval>)
    ensures next == Split(pieces, b)
  {
    next := [];
    var i := 0;
    while i < |pieces|
      invariant 0 <= i <= |pieces|
      invariant next == Split(pieces[..i], b)
    {
      var p := pieces[i];
      assert pieces[..i + 1][..i] == pieces[..i];
      if b.hi < p.lo || b.lo > p.hi {
        next := next + [p];
      } else {
        ghost var was := next;
        if p.lo < b.lo {
          next := next + [Interval(p.lo, b.lo - 1)];
        }
        if p.hi > b.hi {
          next := next + [Interval(b.hi + 1, p.hi)];
        }
        assert next == was + Piece(p, b);
      }
      i := i + 1;
    }
    assert pieces[..i] == pieces;
  }

  /** On the canonical intervals a GTID set stores, the fallback and `_subtract_iv` agree. */
  lemma FallbackAgrees(a: seq<Interval>, b: seq<Interval>)
    requires Canonical(a) && Canonical(b)
    ensures CountLeft(a, b) == Count(CutAll(a, b))
  {
    CanonicalIsDisjoint(b);
    CutAllSpec(a, b);
    CountIsCardinality(CutAll(a, b));
    CanonicalIsSeparate(a);
    ValidIsMasked(b);
    CountLeftIsCardinality(a, b);
  }

  lemma {:induction false} CanonicalIsSeparate(a: seq<Interval>)
    requires Canonical(a)
    ensures Separate(a)
  {
    if a != [] {
      CanonicalIsSeparate(a[..|a| - 1]);
      CanonicalBounds(a);
    }
  }

  // ----- the sum over servers

  /** The count over the keys in the order they come. */
  ghost function SumLeft(order: seq<Key>, a: IntervalMap, b: IntervalMap): int {
    if order == [] then 0
    else
      var k := order[|order| - 1];
      SumLeft(order[..|order| - 1], a, b) + CountLeft(Get(a, k), Get(b, k))
  }

  ghost predicate EachKeyOnce(order: seq<Key>, keys: set<Key>) {
    (forall i :: 0 <= i < |order| ==> order[i] in keys) && (forall k :: k in keys ==> k in order) &&
    forall i, j :: 0 <= i < j < |order| ==> order[i] != order[j]
  }

  /** No integer twice under one server in `a`, and `b`'s badly inverted intervals masked. */
  ghost predicate Countable(a: IntervalMap, b: IntervalMap) {
    (forall k :: k in a ==> Separate(a[k])) && (forall k :: k in b ==> Masked(b[k]))
  }

  ghost function LeftUnder(k: Key, ivs: seq<Interval>, b: IntervalMap): set<Gtid> {
    Tagged(k, Points(ivs) - Points(Get(b, k)))
  }

  lemma LeftGtids(done: IntervalMap, b: IntervalMap, k: Key, ivs: seq<Interval>)
    requires k !in done
    ensures Gtids(done[k := ivs]) - Gtids(b) == (Gtids(done) - Gtids(b)) + LeftUnder(k, ivs, b)
    ensures (Gtids(done) - Gtids(b)) !! LeftUnder(k, ivs, b)
  {
    GtidsMember(done);
    GtidsMember(done[k := ivs]);
    GtidsMember(b);
    forall g ensures g in Gtids(done[k := ivs]) - Gtids(b) <==> g in (Gtids(done) - Gtids(b)) + LeftUnder(k, ivs, b) {
      assert g.key == k ==> (g in LeftUnder(k, ivs, b) <==> g.n in Points(ivs) - Points(Get(b, k)));
    }
  }

  lemma MoreLeft(done: IntervalMap, b: IntervalMap, k: Key, ivs: seq<Interval>)
    requires k !in done && Separate(ivs) && (k in b ==> Masked(b[k]))
    ensures |Gtids(done[k := ivs]) - Gtids(b)| == |Gtids(done) - Gtids(b)| + CountLeft(ivs, Get(b, k))
  {
    CountLeftIsCardinality(ivs, Get(b, k));
    TaggedSize(k, Points(ivs) - Points(Get(b, k)));
    LeftGtids(done, b, k, ivs);
  }

  lemma NoKeys(a: IntervalMap, b: IntervalMap)
    ensures EachKeyOnce([], {}) && SumLeft([], a, b) == 0 && |Gtids(map[]) - Gtids(b)| == 0
    ensures a - a.Keys == map[] && a.Keys - a.Keys == {}
  {
    assert Gtids(map[]) - Gtids(b) == {};
  }

  lemma MoreKeys(order: seq<Key>, a: IntervalMap, b: IntervalMap, k: Key, keys: set<Key>)
    requires EachKeyOnce(order, keys) && k !in keys
    ensures EachKeyOnce(order + [k], keys + {k})
    ensures SumLeft(order + [k], a, b) == SumLeft(order, a, b) + CountLeft(Get(a, k), Get(b, k))
  {
    assert (order + [k])[..|order + [k]| - 1] == order;
  }

  lemma MoreDone(a: IntervalMap, todo: set<Key>, k: Key)
    requires k in todo && todo <= a.Keys
    ensures (a - todo)[k := a[k]] == a - (todo - {k})
    ensures a.Keys - (todo - {k}) == a.Keys - todo + {k}
  {
  }

  /** The fallback of `subtract_count` on two parsed texts: what it sums, and that the sum is the
      number of transactions of `a` that `b` lacks. */
  method SubtractCount(a: IntervalMap, b: IntervalMap) returns (count: int, ghost order: seq<Key>)
    ensures EachKeyOnce(order, a.Keys) && count == SumLeft(order, a, b)
    ensures Countable(a, b) ==> count == |Gtids(a) - Gtids(b)|
  {
    hide Gtids, SumLeft, EachKeyOnce, Separate, Points;
    NoKeys(a, b);
    count, order := 0, [];
    var todo := a.Keys;
    ghost var done: IntervalMap := map[];
    while todo != {}
      invariant todo <= a.Keys && EachKeyOnce(order, a.Keys - todo)
      invariant done == a - todo
      invariant count == SumLeft(order, a, b)
      invariant Countable(a, b) ==> count == |Gtids(done) - Gtids(b)|
      decreases todo
    {
      var k :| k in todo;
      if Countable(a, b) {
        MoreLeft(done, b, k, a[k]);
      }
      var here := IntervalCount(Get(a, k), Get(b, k));
      MoreKeys(order, a, b, k, a.Keys - todo);
      MoreDone(a, todo, k);
      count, order := count + here, order + [k];
      done := done[k := a[k]];
      todo := todo - {k};
    }
    assert a - {} == a && a.Keys - {} == a.Keys;
  }

  /** The fallback gives what the exact path gives: on the maps GTID sets store it is countable. */
  lemma StoredIsCountable(a: GtidSet, b: GtidSet)
    requires a.Valid() && b.Valid()
    ensures Countable(a.m, b.m)
  {
    forall k | k in a.m ensures Separate(a.m[k]) { CanonicalIsSeparate(a.m[k]); }
    forall k | k in b.m ensures Masked(b.m[k]) {
      CanonicalIsDisjoint(b.m[k]);
      ValidIsMasked(b.m[k]);
    }
  }
}
