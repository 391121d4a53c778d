/** The copy loop of dbguard/osc/runner.py and its `ChunkSizer`, as the objects they are: read the
    largest key, then boundary after boundary, copying each chunk, while the application writes
    between any two statements. All three triggers are in place. */
module OscLoop {
  import opened Intervals
  import opened Keys
  import opened OscCopy

  // ----- traffic between two statements

  datatype Tables = Tables(live: Rows, shadow: Rows)

  function Served(t: Tables, ws: seq<Write>): Tables {
    if ws == [] then t
    else
      var before := Served(t, ws[..|ws| - 1]);
      var w := ws[|ws| - 1];
      if Applicable(before.live, w) then Tables(Applied(before.live, w), Mirrored(before.shadow, w)) else before
  }

  /** Nothing becomes missing or stale, and what agrees keeps agreeing. */
  ghost predicate NoWorse(a: Tables, b: Tables) {
    forall k ::
      (Agree(a.live, a.shadow, k) ==> Agree(b.live, b.shadow, k)) &&
      (Stale(b.live, b.shadow, k) ==> Stale(a.live, a.shadow, k)) &&
      (Missing(b.live, b.shadow, k) ==> Missing(a.live, a.shadow, k))
  }

  predicate KeysOf(w: Write, universe: set<Key>) {
    match w
    case Insert(k, _) => k in universe
    case Update(k, to, _) => k in universe && to in universe
    case Delete(k) => k in universe
  }

  lemma {:induction false} ServedWithin(t: Tables, ws: seq<Write>, universe: set<Key>)
    requires t.live.Keys <= universe && forall i :: 0 <= i < |ws| ==> KeysOf(ws[i], universe)
    ensures Served(t, ws).live.Keys <= universe
  {
    if ws != [] {
      ServedWithin(t, ws[..|ws| - 1], universe);
      assert KeysOf(ws[|ws| - 1], universe);
    }
  }

  lemma {:induction false} ServedNoWorse(t: Tables, ws: seq<Write>)
    ensures NoWorse(t, Served(t, ws))
  {
    if ws != [] {
      ServedNoWorse(t, ws[..|ws| - 1]);
      var before := Served(t, ws[..|ws| - 1]);
      var w := ws[|ws| - 1];
      if Applicable(before.live, w) {
        forall k
          ensures Agree(before.live, before.shadow, k) ==> Agree(Applied(before.live, w), Mirrored(before.shadow, w), k)
          ensures Stale(Applied(before.live, w), Mirrored(before.shadow, w), k) ==> Stale(before.live, before.shadow, k)
          ensures Missing(Applied(before.live, w), Mirrored(before.shadow, w), k) ==>
            Missing(before.live, before.shadow, k)
        {
          WriteMirrored(before.live, before.shadow, w, k);
        }
      }
    }
  }

  class Server {
    var live: Rows
    var shadow: Rows

    constructor (live: Rows, shadow: Rows)
      ensures this.live == live && this.shadow == shadow
    {
      this.live, this.shadow := live, shadow;
    }

    function View(): Tables
      reads this
    {
      Tables(live, shadow)
    }

    method Serve(ws: seq<Write>)
      modifies this
      ensures View() == Served(old(View()), ws)
    {
      for i := 0 to |ws|
        invariant View() == Served(old(View()), ws[..i])
      {
        assert ws[..i + 1][..i] == ws[..i];
        var w := ws[i];
        if Applicable(live, w) {
          live, shadow := Applied(live, w), Mirrored(shadow, w);
        }
      }
      assert ws[..|ws|] == ws;
    }

    method CopyChunk(lo: Option<Key>, hi: Key)
      modifies this`shadow
      ensures shadow == Copied(live, old(shadow), lo, Some(hi))
    {
      shadow := Copied(live, shadow, lo, Some(hi));
    }
  }

  // ----- the boundary read

  function RowsIn(rows: Rows, lo: Option<Key>, hi: Key): set<Key> {
    set k | k in rows && InRange(k, lo, Some(hi))
  }

  ghost predicate NextKey(rows: Rows, lo: Option<Key>, k: Key) {
    k in rows && (lo.Some? ==> Less(lo.value, k)) &&
    forall x :: x in rows && (lo.Some? ==> Less(lo.value, x)) ==> !Less(x, k)
  }

  method FirstAfter(rows: Rows, lo: Option<Key>) returns (next: Option<Key>)
    ensures next.Some? ==> NextKey(rows, lo, next.value)
    ensures next.None? ==> forall x :: x in rows ==> lo.Some? && !Less(lo.value, x)
  {
    next := None;
    var left := rows.Keys;
    ghost var seen: set<Key> := {};
    while left != {}
      invariant seen + left == rows.Keys
      invariant LeastIn(seen, lo, next)
      decreases left
    {
      var x :| x in left;
      LeastStep(seen, lo, next, x);
      left, seen := left - {x}, seen + {x};
      if (lo.Some? ==> Less(lo.value, x)) && (next.Some? ==> Less(x, next.value)) {
        next := Some(x);
      }
    }
    assert seen == rows.Keys;
  }

  /** The least of the keys seen so far that lie beyond `lo`, if any does. */
  ghost predicate LeastIn(seen: set<Key>, lo: Option<Key>, next: Option<Key>) {
    match next
    case None => forall y :: y in seen ==> lo.Some? && !Less(lo.value, y)
    case Some(n) =>
      n in seen && (lo.Some? ==> Less(lo.value, n)) &&
      forall y :: y in seen && (lo.Some? ==> Less(lo.value, y)) ==> !Less(y, n)
  }

  lemma LeastStep(seen: set<Key>, lo: Option<Key>, next: Option<Key>, x: Key)
    requires LeastIn(seen, lo, next)
    ensures LeastIn(seen + {x}, lo,
      if (lo.Some? ==> Less(lo.value, x)) && (next.Some? ==> Less(x, next.value)) then Some(x) else next)
  {
    Total(x, x);
    if next.Some? && Less(x, next.value) {
      BelowAll(seen, lo, x, next.value);
    }
  }

  lemma BelowAll(seen: set<Key>, lo: Option<Key>, x: Key, than: Key)
    requires Less(x, than)
    requires forall y :: y in seen && (lo.Some? ==> Less(lo.value, y)) ==> !Less(y, than)
    ensures forall y :: y in seen && (lo.Some? ==> Less(lo.value, y)) ==> !Less(y, x)
  {
    forall y | y in seen && (lo.Some? ==> Less(lo.value, y)) ensures !Less(y, x) {
      if Less(y, x) {
        Transitive(y, x, than);
      }
    }
  }

  /** `boundary_sql`: the chunk-th key after lo, capped at max; none when fewer are left. */
  method Boundary(rows: Rows, lo: Option<Key>, max: Key, chunk: nat) returns (b: Option<Key>)
    requires chunk > 0
    ensures b.Some? ==> b.value in rows && InRange(b.value, lo, Some(max)) && |RowsIn(rows, lo, b.value)| == chunk
    ensures b.None? ==> |RowsIn(rows, lo, max)| < chunk
  {
    var at := lo;
    for i := 0 to chunk
      invariant i == 0 ==> at == lo
      invariant i > 0 ==> at.Some? && at.value in rows && InRange(at.value, lo, Some(max)) &&
                          |RowsIn(rows, lo, at.value)| == i
    {
      var next := FirstAfter(rows, at);
      if next.None? || Less(max, next.value) {
        NoneLeft(rows, lo, max, at, next, i);
        return None;
      }
      OneRowMore(rows, lo, at, next.value, i);
      at := next;
    }
    return at;
  }

  lemma OneRowMore(rows: Rows, lo: Option<Key>, at: Option<Key>, next: Key, i: nat)
    requires NextKey(rows, at, next)
    requires i == 0 ==> at == lo
    requires i > 0 ==> at.Some? && InRange(at.value, lo, Some(at.value)) && |RowsIn(rows, lo, at.value)| == i
    ensures lo.Some? ==> Less(lo.value, next)
    ensures |RowsIn(rows, lo, next)| == i + 1
  {
    hide Less, InRange, RowsIn;
    var before := if i == 0 then {} else RowsIn(rows, lo, at.value);
    if i == 0 { FirstOne(rows, lo, next, next); }
    forall k ensures k in RowsIn(rows, lo, next) <==> k in before + {next} {
      RowsInHas(rows, lo, next, k);
      if i == 0 {
        FirstOne(rows, lo, next, k);
      } else {
        RowsInHas(rows, lo, at.value, k);
        OneMore(rows, lo, at.value, next, k);
      }
    }
    assert RowsIn(rows, lo, next) == before + {next};
    if i > 0 {
      RowsInHas(rows, lo, at.value, next);
      OneMore(rows, lo, at.value, next, next);
    }
  }

  lemma RowsInHas(rows: Rows, lo: Option<Key>, hi: Key, k: Key)
    ensures k in RowsIn(rows, lo, hi) <==> k in rows && InRange(k, lo, Some(hi))
  {
  }

  lemma FirstOne(rows: Rows, lo: Option<Key>, next: Key, k: Key)
    requires NextKey(rows, lo, next)
    ensures lo.Some? ==> Less(lo.value, next)
    ensures k in rows && InRange(k, lo, Some(next)) <==> k == next
  {
    Total(k, next);
  }

  lemma OneMore(rows: Rows, lo: Option<Key>, at: Key, next: Key, k: Key)
    requires NextKey(rows, Some(at), next) && InRange(at, lo, Some(at))
    ensures lo.Some? ==> Less(lo.value, next)
    ensures k in rows && InRange(k, lo, Some(next)) <==> (k in rows && InRange(k, lo, Some(at))) || k == next
    ensures !InRange(next, lo, Some(at))
  {
    hide Less;
    if lo.Some? { Transitive(lo.value, at, next); }
    Total(k, next);
    Total(at, k);
    Total(at, next);
    if Less(next, k) { Transitive(at, next, k); }
  }

  lemma NoneLeft(rows: Rows, lo: Option<Key>, max: Key, at: Option<Key>, next: Option<Key>, i: nat)
    requires next.None? ==> forall x :: x in rows ==> at.Some? && !Less(at.value, x)
    requires next.Some? ==> NextKey(rows, at, next.value) && Less(max, next.value)
    requires i == 0 ==> at == lo
    requires i > 0 ==> at.Some? && |RowsIn(rows, lo, at.value)| == i
    ensures |RowsIn(rows, lo, max)| <= i
  {
    var before := if i == 0 then {} else RowsIn(rows, lo, at.value);
    forall k | k in RowsIn(rows, lo, max) ensures k in before {
      if next.Some? && (at.Some? ==> Less(at.value, k)) {
        Total(k, next.value);
        Total(k, max);
        if Less(next.value, k) { Transitive(max, next.value, k); }
      }
    }
    SubsetSize(RowsIn(rows, lo, max), before);
  }

  ghost predicate Largest(seen: set<Key>, m: Key) {
    m in seen && forall y :: y in seen ==> !Less(m, y)
  }

  lemma LargestStep(seen: set<Key>, m: Option<Key>, x: Key)
    requires if m.Some? then Largest(seen, m.value) else seen == {}
    ensures Largest(seen + {x}, if m.None? || Less(m.value, x) then x else m.value)
  {
    Total(x, x);
    if m.Some? && Less(m.value, x) {
      forall y | y in seen ensures !Less(x, y) {
        if Less(x, y) { Transitive(m.value, x, y); }
      }
    }
  }

  /** `max_pk_sql`. */
  method MaxKey(rows: Rows) returns (m: Option<Key>)
    ensures m.Some? ==> Largest(rows.Keys, m.value)
    ensures m.None? <==> rows == map[]
  {
    m := None;
    var left := rows.Keys;
    ghost var seen: set<Key> := {};
    while left != {}
      invariant seen + left == rows.Keys
      invariant if m.Some? then Largest(seen, m.value) else seen == {}
      decreases left
    {
      var x :| x in left;
      LargestStep(seen, m, x);
      left, seen := left - {x}, seen + {x};
      if m.None? || Less(m.value, x) {
        m := Some(x);
      }
    }
    assert seen == rows.Keys;
    assert m.None? ==> rows.Keys == {};
  }

  // ----- the chunk size

  class ChunkSizer {
    var size: nat
    const target: real
    const minSize: nat
    const maxSize: nat
    const adaptive: bool

    ghost predicate Valid()
      reads this
    {
      0 < minSize <= maxSize && 0 < size && target > 0.0
    }

    constructor (size: nat, target: real, minSize: nat, maxSize: nat, adaptive: bool)
      requires 0 < minSize <= maxSize && 0 < size && target > 0.0
      ensures Valid() && this.size == size && this.adaptive == adaptive
    {
      this.size, this.target, this.minSize, this.maxSize, this.adaptive := size, target, minSize, maxSize, adaptive;
    }

    /** A short chunk, or a fixed size, changes nothing. */
    method Update(elapsed: real, rows: nat)
      requires Valid()
      modifies this
      ensures Valid()
      ensures size ==
        if adaptive && 2 * rows >= old(size) then Resized(old(size), elapsed, target, minSize, maxSize) else old(size)
    {
      if !adaptive || rows as real < size as real * 0.5 {
        return;
      }
      var wanted := size as real * Factor(elapsed, target);
      if wanted < minSize as real { wanted := minSize as real; }
      if wanted > maxSize as real { wanted := maxSize as real; }
      size := wanted.Floor;
    }
  }

  /** `min(2.0, max(0.5, target / elapsed))`. */
  function Factor(elapsed: real, target: real): real {
    if elapsed <= 0.0 then 2.0
    else if target / elapsed < 0.5 then 0.5 else if target / elapsed > 2.0 then 2.0 else target / elapsed
  }

  function Clamp(w: real, lo: real, hi: real): real {
    if w < lo then (if lo > hi then hi else lo) else if w > hi then hi else w
  }

  function Resized(size: nat, elapsed: real, target: real, minSize: nat, maxSize: nat): (n: nat)
    requires minSize <= maxSize
    ensures minSize <= n <= maxSize
  {
    Clamp(size as real * Factor(elapsed, target), minSize as real, maxSize as real).Floor
  }

  /** Within the bounds a chunk that took no time or at most half the target doubles the size, one that took
      at least twice the target halves it, and any other leads to the largest size that, at the speed just
      seen, stays within the target. */
  lemma ResizedMeans(size: nat, elapsed: real, target: real, minSize: nat, maxSize: nat)
    requires minSize <= maxSize
    ensures var n := Resized(size, elapsed, target, minSize, maxSize);
      if elapsed <= 0.0 || 2.0 * elapsed <= target then n == Within(2 * size, minSize, maxSize)
      else if elapsed >= 2.0 * target then n == Within(size / 2, minSize, maxSize)
      else minSize < n < maxSize ==> n as real * elapsed <= size as real * target < (n + 1) as real * elapsed
  {
    FactorMeans(elapsed, target);
    hide Factor, Clamp, Within, Resized;
    var f, n := Factor(elapsed, target), Resized(size, elapsed, target, minSize, maxSize);
    ResizedBy(size, elapsed, target, minSize, maxSize, f);
    if elapsed <= 0.0 || 2.0 * elapsed <= target {
      Doubles(size, f, minSize, maxSize);
    } else if elapsed >= 2.0 * target {
      Halves(size, f, minSize, maxSize);
    } else {
      Scales(size, f, target, elapsed, minSize, maxSize, n);
    }
  }

  lemma ResizedBy(size: nat, elapsed: real, target: real, minSize: nat, maxSize: nat, f: real)
    requires minSize <= maxSize && f == Factor(elapsed, target)
    ensures Resized(size, elapsed, target, minSize, maxSize) ==
      Clamp(size as real * f, minSize as real, maxSize as real).Floor
  {
    SameProduct(size as real, f, Factor(elapsed, target));
    hide Factor, Clamp;
  }

  lemma SameProduct(x: real, f: real, g: real)
    requires f == g
    ensures x * f == x * g
  {
  }

  lemma Scales(size: nat, f: real, a: real, b: real, lo: nat, hi: nat, n: int)
    requires b > 0.0 && f * b == a && lo <= hi && n == Clamp(size as real * f, lo as real, hi as real).Floor
    ensures lo < n < hi ==> n as real * b <= size as real * a < (n + 1) as real * b
  {
    InBounds(size as real * f, lo, hi);
    hide Clamp;
    Substituted(size as real, f, b, a);
    if lo < n < hi {
      Between(size as real * f, b, size as real * a, n as real, (n + 1) as real);
    }
  }

  lemma Between(w: real, b: real, t: real, lo: real, hi: real)
    requires b > 0.0 && w * b == t && lo <= w < hi
    ensures lo * b <= t < hi * b
  {
    Times(w, hi, b);
    Times(w, lo, b);
  }

  function Within(n: nat, lo: nat, hi: nat): nat { if n < lo then lo else if n > hi then hi else n }

  lemma Doubles(n: nat, f: real, lo: nat, hi: nat)
    requires lo <= hi && f == 2.0
    ensures Clamp(n as real * f, lo as real, hi as real).Floor == Within(2 * n, lo, hi)
  {
    assert n as real * f == (2 * n) as real;
  }

  lemma Halves(n: nat, f: real, lo: nat, hi: nat)
    requires lo <= hi && f == 0.5
    ensures Clamp(n as real * f, lo as real, hi as real).Floor == Within(n / 2, lo, hi)
  {
    HalfOf(n, f);
    assert n == 2 * (n / 2) + n % 2;
  }

  lemma HalfOf(n: nat, f: real)
    requires f == 0.5
    ensures n as real * f == if n % 2 == 0 then (n / 2) as real else (n / 2) as real + 0.5
  {
    assert n as real == 2.0 * (n / 2) as real + (n % 2) as real;
  }

  lemma InBounds(w: real, lo: nat, hi: nat)
    requires lo <= hi
    ensures var n := Clamp(w, lo as real, hi as real).Floor;
      lo <= n <= hi && (lo < n < hi ==> n as real <= w < (n + 1) as real)
  {
  }

  lemma FactorMeans(elapsed: real, target: real)
    ensures elapsed <= 0.0 || 2.0 * elapsed <= target ==> Factor(elapsed, target) == 2.0
    ensures 0.0 < elapsed && elapsed >= 2.0 * target ==> Factor(elapsed, target) == 0.5
    ensures 0.0 < elapsed && target < 2.0 * elapsed && elapsed < 2.0 * target ==>
      Factor(elapsed, target) * elapsed == target
  {
    if 0.0 < elapsed {
      Quotient(target, elapsed);
      assert target / elapsed * elapsed == target;
    }
  }

  lemma Times(x: real, y: real, b: real)
    requires b > 0.0
    ensures x < y <==> x * b < y * b
  {
    var d := y - x;
    assert d * b == y * b - x * b;
    assert d > 0.0 <==> d * b > 0.0;
  }

  lemma Quotient(a: real, b: real)
    requires b > 0.0
    ensures (a / b < 0.5 <==> 2.0 * a < b) && (a / b > 2.0 <==> a > 2.0 * b)
    ensures 2.0 * a == b ==> a / b == 0.5
    ensures a == 2.0 * b ==> a / b == 2.0
  {
    var q := a / b;
    assert q * b == a;
    Times(q, 0.5, b);
    Times(0.5, q, b);
    Times(2.0, q, b);
    Times(q, 2.0, b);
  }

  lemma Substituted(x: real, q: real, b: real, a: real)
    requires q * b == a
    ensures x * q * b == x * a
  {
    var p := q * b;
    assert x * q * b == x * p;
  }

  // ----- the loop

  ghost function Ahead(universe: set<Key>, lo: Option<Key>, max: Key): set<Key> {
    set k | k in universe && InRange(k, lo, Some(max))
  }

  /** Nothing up to the boundary, and nothing beyond where the copy stops, is missing. */
  ghost predicate CopiedTo(t: Tables, lo: Option<Key>, max: Key) {
    forall k :: (lo.Some? && !Less(lo.value, k)) || Less(max, k) ==> !Missing(t.live, t.shadow, k)
  }

  ghost predicate NoNewStale(a: Tables, b: Tables) {
    forall k :: Stale(b.live, b.shadow, k) ==> Stale(a.live, a.shadow, k)
  }

  ghost predicate Boundaries(bs: seq<Key>, max: Key) {
    NonDecreasing(bs) && forall i :: 0 <= i < |bs| ==> !Less(max, bs[i])
  }

  lemma ChunkStep(a: Tables, t: Tables, lo: Option<Key>, hi: Key, max: Key)
    requires CopiedTo(a, lo, max) && t == Tables(a.live, Copied(a.live, a.shadow, lo, Some(hi)))
    ensures CopiedTo(t, Some(hi), max) && NoNewStale(a, t)
  {
    forall k
      ensures Stale(t.live, t.shadow, k) ==> Stale(a.live, a.shadow, k)
      ensures !Less(hi, k) || Less(max, k) ==> !Missing(t.live, t.shadow, k)
    {
      CopyFills(a.live, a.shadow, lo, Some(hi), k);
    }
  }

  lemma TrafficStep(a: Tables, ws: seq<Write>, lo: Option<Key>, max: Key)
    ensures CopiedTo(a, lo, max) ==> CopiedTo(Served(a, ws), lo, max)
    ensures NoNewStale(a, Served(a, ws))
  {
    ServedNoWorse(a, ws);
  }

  lemma BoundariesStep(bs: seq<Key>, hi: Key, max: Key)
    requires Boundaries(bs, max) && !Less(max, hi) && (bs != [] ==> !Less(hi, bs[|bs| - 1]))
    ensures Boundaries(bs + [hi], max)
  {
    var cs := bs + [hi];
    forall i, j | 0 <= i < j < |cs| ensures !Less(cs[j], cs[i]) {
      if j == |bs| && i < |bs| - 1 && Less(hi, bs[i]) {
        Total(bs[i], bs[|bs| - 1]);
        if Less(bs[i], bs[|bs| - 1]) { Transitive(hi, bs[i], bs[|bs| - 1]); }
      }
    }
  }

  class Copier {
    const db: Server
    const sizer: ChunkSizer
    var lo: Option<Key>
    var boundaries: seq<Key>

    constructor (db: Server, sizer: ChunkSizer)
      ensures this.db == db && this.sizer == sizer && lo == None && boundaries == []
    {
      this.db, this.sizer, this.lo, this.boundaries := db, sizer, None, [];
    }

    /** `_copy`. The traffic before the n-th statement is `traffic(n)`, its duration `took(n)`. The
        loop ends because the keys up to the largest are finite; then nothing is missing in the
        shadow, nothing stale is new, and the boundaries never go back, so with no stale row to
        begin with the two tables are equal. */
    method Copy(traffic: nat -> seq<Write>, took: nat -> real, ghost universe: set<Key>)
      requires sizer.Valid() && lo == None && boundaries == []
      requires db.live.Keys <= universe
      requires forall n: nat, i :: 0 <= i < |traffic(n)| ==> KeysOf(traffic(n)[i], universe)
      modifies this, db, sizer
      ensures forall k :: !Missing(db.live, db.shadow, k)
      ensures NoNewStale(old(db.View()), db.View())
      ensures (forall k :: !Stale(old(db.live), old(db.shadow), k)) ==> db.live == db.shadow
      ensures NonDecreasing(boundaries)
    {
      ghost var began := db.View();
      ServedWithin(db.View(), traffic(0), universe);
      ServedNoWorse(db.View(), traffic(0));
      db.Serve(traffic(0));
      var m := MaxKey(db.live);
      if m.None? {
        AgreeEverywhere(db.live, db.shadow);
        return;
      }
      var max := m.value;
      var n := 1;
      var last := false;
      while !last
        invariant Progress(began, universe, max) && (last ==> lo == Some(max))
        decreases |Ahead(universe, lo, max)| + if last then 0 else 1
      {
        last := CopyNext(traffic(n), traffic(n + 1), took(n), began, universe, max);
        n := n + 2;
      }
      forall k ensures !Missing(db.live, db.shadow, k) {
        Total(max, k);
      }
      Conclude(began, db.View());
    }

    ghost predicate Progress(began: Tables, universe: set<Key>, max: Key)
      reads this, db, sizer
    {
      sizer.Valid() && db.live.Keys <= universe && (boundaries != [] <==> lo.Some?) &&
      (lo.Some? ==> lo.value == boundaries[|boundaries| - 1]) &&
      Boundaries(boundaries, max) && NoNewStale(began, db.View()) && CopiedTo(db.View(), lo, max)
    }

    /** One round: wait, read the boundary, wait, copy the chunk, resize. */
    method CopyNext(before: seq<Write>, between: seq<Write>, took: real, ghost began: Tables,
                    ghost universe: set<Key>, max: Key)
      returns (last: bool)
      requires Progress(began, universe, max)
      requires forall i :: 0 <= i < |before| ==> KeysOf(before[i], universe)
      requires forall i :: 0 <= i < |between| ==> KeysOf(between[i], universe)
      modifies this, db, sizer
      ensures Progress(began, universe, max) && (last ==> lo == Some(max))
      ensures |Ahead(universe, lo, max)| + (if last then 0 else 1) < |Ahead(universe, old(lo), max)| + 1
    {
      var hi;
      hi, last := NextBoundary(before, began, universe, max);
      HighEnough(lo, boundaries, hi, max, last);
      AheadShrinks(universe, lo, max, hi, last);
      TakeChunk(hi, between, began, universe, max);
      sizer.Update(took, if last then 0 else sizer.size);
    }

    method NextBoundary(ws: seq<Write>, ghost began: Tables, ghost universe: set<Key>, max: Key)
      returns (hi: Key, last: bool)
      requires Progress(began, universe, max) && forall i :: 0 <= i < |ws| ==> KeysOf(ws[i], universe)
      modifies db
      ensures Progress(began, universe, max)
      ensures if last then hi == max else hi in universe && InRange(hi, lo, Some(max))
    {
      Wait(ws, universe, max);
      var b := Boundary(db.live, lo, max, sizer.size);
      last := b.None?;
      hi := if last then max else b.value;
    }

    method TakeChunk(hi: Key, ws: seq<Write>, ghost began: Tables, ghost universe: set<Key>, ghost max: Key)
      requires Progress(began, universe, max) && forall i :: 0 <= i < |ws| ==> KeysOf(ws[i], universe)
      requires !Less(max, hi) && (lo.Some? ==> !Less(hi, lo.value))
      modifies this, db
      ensures Progress(began, universe, max) && lo == Some(hi) && sizer.size == old(sizer.size)
    {
      Wait(ws, universe, max);
      ChunkStep(db.View(), Tables(db.live, Copied(db.live, db.shadow, lo, Some(hi))), lo, hi, max);
      db.CopyChunk(lo, hi);
      BoundariesStep(boundaries, hi, max);
      boundaries, lo := boundaries + [hi], Some(hi);
    }

    /** The application writes while the copy waits. */
    method Wait(ws: seq<Write>, ghost universe: set<Key>, ghost max: Key)
      requires db.live.Keys <= universe && forall i :: 0 <= i < |ws| ==> KeysOf(ws[i], universe)
      modifies db
      ensures db.live.Keys <= universe && NoNewStale(old(db.View()), db.View())
      ensures CopiedTo(old(db.View()), lo, max) ==> CopiedTo(db.View(), lo, max)
    {
      ServedWithin(db.View(), ws, universe);
      TrafficStep(db.View(), ws, lo, max);
      db.Serve(ws);
    }
  }

  lemma HighEnough(lo: Option<Key>, bs: seq<Key>, hi: Key, max: Key, last: bool)
    requires lo.Some? ==> bs != [] && lo.value == bs[|bs| - 1]
    requires Boundaries(bs, max) && (if last then hi == max else InRange(hi, lo, Some(max)))
    ensures !Less(max, hi) && (lo.Some? ==> !Less(hi, lo.value))
  {
    Total(max, max);
    if lo.Some? { Total(lo.value, hi); }
  }

  lemma AheadShrinks(universe: set<Key>, lo: Option<Key>, max: Key, hi: Key, last: bool)
    requires last ==> hi == max
    requires !last ==> hi in universe && InRange(hi, lo, Some(max))
    requires lo.Some? ==> !Less(hi, lo.value)
    ensures |Ahead(universe, Some(hi), max)| + (if last then 0 else 1) < |Ahead(universe, lo, max)| + 1
  {
    var a, b := Ahead(universe, Some(hi), max), Ahead(universe, lo, max);
    Total(hi, hi);
    forall k | k in a ensures k in b && k != hi {
      if lo.Some? {
        Total(lo.value, hi);
        if Less(lo.value, hi) { Transitive(lo.value, hi, k); }
      }
    }
    if last {
      assert a == {};
      assert |a| + 0 < |b| + 1;
    } else {
      SubsetSize(a, b - {hi});
    }
  }

  lemma Conclude(a: Tables, t: Tables)
    requires NoNewStale(a, t) && forall k :: !Missing(t.live, t.shadow, k)
    ensures (forall k :: !Stale(a.live, a.shadow, k)) ==> t.live == t.shadow
  {
    AgreeEverywhere(t.live, t.shadow);
    forall k ensures Agree(t.live, t.shadow, k) <==> !Stale(t.live, t.shadow, k) {
      OneOfThree(t.live, t.shadow, k);
    }
  }
}
