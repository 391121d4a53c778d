/** Primary-key bounds and chunk ranges of dbguard/osc/chunks.py. A key is the tuple of its column
    values; a column's values are modelled as integers, any total order being one. */
module Keys {
  import opened Intervals

  type Key = seq<int>

  /** Tuple order, a shorter tuple before its extensions. */
  predicate Less(a: Key, b: Key) {
    b != [] && (a == [] || a[0] < b[0] || (a[0] == b[0] && Less(a[1..], b[1..])))
  }

  lemma {:induction false} Total(a: Key, b: Key)
    ensures Less(a, b) || Less(b, a) || a == b
    ensures !(Less(a, b) && Less(b, a)) && !(Less(a, b) && a == b)
  {
    if a != [] && b != [] {
      Total(a[1..], b[1..]);
      if a[0] == b[0] && a[1..] == b[1..] {
        assert a == [a[0]] + a[1..] && b == [b[0]] + b[1..];
      }
    }
  }

  lemma {:induction false} Transitive(a: Key, b: Key, c: Key)
    requires Less(a, b) && Less(b, c)
    ensures Less(a, c)
  {
    if a != [] && a[0] == b[0] && b[0] == c[0] {
      Transitive(a[1..], b[1..], c[1..]);
    }
  }

  /** The first column where they differ decides. */
  lemma {:induction false} LessByColumn(a: Key, b: Key)
    requires |a| == |b|
    ensures Less(a, b) <==> exists i :: 0 <= i < |a| && a[..i] == b[..i] && a[i] < b[i]
  {
    if a != [] {
      LessByColumn(a[1..], b[1..]);
      if a[0] == b[0] && Less(a[1..], b[1..]) {
        var i :| 0 <= i < |a| - 1 && a[1..][..i] == b[1..][..i] && a[1..][i] < b[1..][i];
        SplitPrefix(a, b, i + 1);
        assert a[i + 1] < b[i + 1];
      }
      forall i | 0 <= i < |a| && a[..i] == b[..i] && a[i] < b[i] ensures Less(a, b) {
        if i > 0 {
          SplitPrefix(a, b, i);
          assert a[1..][i - 1] < b[1..][i - 1];
        }
      }
    }
  }

  lemma SplitPrefix(a: Key, b: Key, i: nat)
    requires 0 < i <= |a| && |a| == |b|
    ensures a[..i] == b[..i] <==> a[0] == b[0] && a[1..][..i - 1] == b[1..][..i - 1]
  {
    assert a[..i] == [a[0]] + a[1..][..i - 1];
    assert b[..i] == [b[0]] + b[1..][..i - 1];
  }

  // ----- the expanded predicate

  datatype Op = Gt | Ge | Lt | Le | Eq

  predicate Holds(x: int, op: Op, y: int) {
    match op
    case Gt => x > y
    case Ge => x >= y
    case Lt => x < y
    case Le => x <= y
    case Eq => x == y
  }

  /** One comparison of a column with the next placeholder. */
  datatype Compare = Compare(col: nat, op: Op)

  /** `(lead AND (term OR term OR ...))`, or the single comparison of a one-column key. */
  datatype Bound = Single(c: Compare) | Expanded(lead: Compare, terms: seq<seq<Compare>>)

  function Placeholders(terms: seq<seq<Compare>>): nat {
    if terms == [] then 0 else Placeholders(terms[..|terms| - 1]) + |terms[|terms| - 1]|
  }

  predicate TermHolds(t: seq<Compare>, args: seq<int>, key: Key)
    requires |args| == |t|
  {
    forall i :: 0 <= i < |t| ==> t[i].col < |key| && Holds(key[t[i].col], t[i].op, args[i])
  }

  /** The placeholders take the arguments in order. */
  predicate AnyHolds(terms: seq<seq<Compare>>, args: seq<int>, key: Key)
    requires |args| == Placeholders(terms)
  {
    terms != [] &&
    var n := |args| - |terms[|terms| - 1]|;
    (AnyHolds(terms[..|terms| - 1], args[..n], key) || TermHolds(terms[|terms| - 1], args[n..], key))
  }

  predicate WellFormed(b: Bound, args: seq<int>) {
    match b
    case Single(_) => |args| == 1
    case Expanded(_, terms) => |args| == 1 + Placeholders(terms)
  }

  predicate BoundHolds(b: Bound, args: seq<int>, key: Key)
    requires WellFormed(b, args)
  {
    match b
    case Single(c) => c.col < |key| && Holds(key[c.col], c.op, args[0])
    case Expanded(lead, terms) =>
      lead.col < |key| && Holds(key[lead.col], lead.op, args[0]) && AnyHolds(terms, args[1..], key)
  }

  // ----- what the loop builds

  function Term(i: nat, op: Op): seq<Compare> {
    seq(i, j requires 0 <= j < i => Compare(j, Eq)) + [Compare(i, op)]
  }

  function OpAt(i: nat, k: nat, lower: bool): Op {
    if lower then Gt else if i + 1 == k then Le else Lt
  }

  function Terms(n: nat, k: nat, lower: bool): seq<seq<Compare>> {
    if n == 0 then [] else Terms(n - 1, k, lower) + [Term(n - 1, OpAt(n - 1, k, lower))]
  }

  function Args(vals: Key, n: nat): seq<int>
    requires n <= |vals|
  {
    if n == 0 then [] else Args(vals, n - 1) + vals[..n]
  }

  lemma {:induction false} ArgCount(vals: Key, n: nat, k: nat, lower: bool)
    requires n <= |vals|
    ensures |Args(vals, n)| == Placeholders(Terms(n, k, lower)) == n * (n + 1) / 2
  {
    if n > 0 {
      ArgCount(vals, n - 1, k, lower);
      assert Terms(n, k, lower)[..|Terms(n, k, lower)| - 1] == Terms(n - 1, k, lower);
      Triangle(n);
    }
  }

  lemma Triangle(n: nat)
    requires n > 0
    ensures (n - 1) * (n - 1 + 1) / 2 + n == n * (n + 1) / 2
  {
    var a := (n - 1) * n;
    assert n * (n + 1) == a + 2 * n;
  }

  lemma TermMeans(i: nat, op: Op, vals: Key, key: Key)
    requires i < |vals| && |key| == |vals|
    ensures TermHolds(Term(i, op), vals[..i + 1], key) <==> key[..i] == vals[..i] && Holds(key[i], op, vals[i])
  {
    var t := Term(i, op);
    if TermHolds(t, vals[..i + 1], key) {
      forall j | 0 <= j < i ensures key[j] == vals[j] {
        assert t[j] == Compare(j, Eq);
      }
      assert t[i] == Compare(i, op);
    }
    if key[..i] == vals[..i] && Holds(key[i], op, vals[i]) {
      forall j | 0 <= j < |t| ensures t[j].col < |key| && Holds(key[t[j].col], t[j].op, vals[..i + 1][j]) {
        assert j < i ==> key[..i][j] == key[j] && vals[..i][j] == vals[j];
      }
    }
  }

  lemma AnyHoldsStep(terms: seq<seq<Compare>>, t: seq<Compare>, args: seq<int>, more: seq<int>, key: Key)
    requires |args| == Placeholders(terms) && |more| == |t|
    ensures Placeholders(terms + [t]) == |args + more|
    ensures AnyHolds(terms + [t], args + more, key) <==> AnyHolds(terms, args, key) || TermHolds(t, more, key)
  {
    var ts := terms + [t];
    var all := args + more;
    assert ts[..|ts| - 1] == terms && ts[|ts| - 1] == t;
    assert all[..|all| - |t|] == args && all[|all| - |t|..] == more;
  }

  /** Equal in every column before `i`, and column `i` compares as its term asks. */
  ghost predicate DecidedAt(i: int, vals: Key, key: Key, lower: bool)
    requires |key| == |vals|
  {
    0 <= i < |vals| && key[..i] == vals[..i] && Holds(key[i], OpAt(i, |vals|, lower), vals[i])
  }

  lemma {:induction false} TermsMean(n: nat, vals: Key, key: Key, lower: bool)
    requires n <= |vals| && |key| == |vals|
    ensures |Args(vals, n)| == Placeholders(Terms(n, |vals|, lower))
    ensures AnyHolds(Terms(n, |vals|, lower), Args(vals, n), key) <==>
      exists i :: i < n && DecidedAt(i, vals, key, lower)
  {
    ArgCount(vals, n, |vals|, lower);
    if n > 0 {
      TermsMean(n - 1, vals, key, lower);
      var op := OpAt(n - 1, |vals|, lower);
      TermMeans(n - 1, op, vals, key);
      AnyHoldsStep(Terms(n - 1, |vals|, lower), Term(n - 1, op), Args(vals, n - 1), vals[..n], key);
      OneMoreColumn(n, vals, key, lower);
    }
  }

  lemma OneMoreColumn(n: nat, vals: Key, key: Key, lower: bool)
    requires 0 < n <= |vals| && |key| == |vals|
    ensures (exists i :: i < n && DecidedAt(i, vals, key, lower)) <==>
      (exists i :: i < n - 1 && DecidedAt(i, vals, key, lower)) || DecidedAt(n - 1, vals, key, lower)
  {
    if i :| i < n && DecidedAt(i, vals, key, lower) {
      assert i == n - 1 || i < n - 1;
    }
  }

  function BoundArgCount(k: nat): nat {
    if k == 1 then 1 else 1 + k * (k + 1) / 2
  }

  datatype Result<T> = Ok(value: T) | ValueError

  datatype Built = Built(bound: Bound, args: seq<int>)

  /** What the bound means: for every key of the table's arity, pk > vals or pk <= vals. */
  ghost predicate Decides(r: Built, vals: Key, lower: bool) {
    WellFormed(r.bound, r.args) &&
    forall key: Key :: |key| == |vals| ==>
      (BoundHolds(r.bound, r.args, key) <==> if lower then Less(vals, key) else !Less(vals, key))
  }

  /** `_bound`, for a key of `k` columns: exactly the tuple comparison, with exactly
      `bound_arg_count(k)` arguments; a tuple of another length is refused. */
  method BoundFor(k: nat, vals: Key, lower: bool) returns (r: Result<Built>)
    requires k > 0
    ensures r.Ok? <==> |vals| == k
    ensures r.Ok? ==> Decides(r.value, vals, lower) && |r.value.args| == BoundArgCount(k)
  {
    if |vals| != k {
      return ValueError;
    }
    if k == 1 {
      r := Ok(Built(Single(Compare(0, if lower then Gt else Le)), [vals[0]]));
      SingleDecides(vals, lower);
      return;
    }
    var terms: seq<seq<Compare>> := [];
    var args: seq<int> := [];
    for i := 0 to k
      invariant terms == Terms(i, k, lower) && args == Args(vals, i)
    {
      terms := terms + [Term(i, OpAt(i, k, lower))];
      args := args + vals[..i + 1];
    }
    ArgCount(vals, k, k, lower);
    ExpandedDecides(vals, lower);
    assert ([vals[0]] + args)[1..] == args;
    r := Ok(Built(Expanded(Compare(0, if lower then Ge else Le), terms), [vals[0]] + args));
  }

  lemma SingleDecides(vals: Key, lower: bool)
    requires |vals| == 1
    ensures Decides(Built(Single(Compare(0, if lower then Gt else Le)), [vals[0]]), vals, lower)
  {
    forall key: Key | |key| == 1
      ensures Less(vals, key) <==> vals[0] < key[0]
    {
      assert vals[1..] == [] && key[1..] == [];
    }
  }

  lemma ExpandedDecides(vals: Key, lower: bool)
    requires |vals| >= 2
    ensures Decides(Built(Expanded(Compare(0, if lower then Ge else Le), Terms(|vals|, |vals|, lower)),
                          [vals[0]] + Args(vals, |vals|)), vals, lower)
  {
    var k := |vals|;
    var r := Built(Expanded(Compare(0, if lower then Ge else Le), Terms(k, k, lower)), [vals[0]] + Args(vals, k));
    ArgCount(vals, k, k, lower);
    assert r.args[1..] == Args(vals, k);
    forall key: Key | |key| == k
      ensures BoundHolds(r.bound, r.args, key) <==> if lower then Less(vals, key) else !Less(vals, key)
    {
      TermsMean(k, vals, key, lower);
      if lower { LowerMeans(vals, key); } else { UpperMeans(vals, key); }
    }
  }

  /** The terms of a lower bound say "greater", and the leading term costs nothing. */
  lemma LowerMeans(vals: Key, key: Key)
    requires |key| == |vals| > 0
    ensures (exists i :: i < |vals| && DecidedAt(i, vals, key, true)) <==> Less(vals, key)
    ensures Less(vals, key) ==> key[0] >= vals[0]
  {
    LessByColumn(vals, key);
    forall i | 0 <= i < |vals| && vals[..i] == key[..i] && vals[i] < key[i]
      ensures DecidedAt(i, vals, key, true)
    {
    }
  }

  /** The terms of an upper bound say "not greater". */
  lemma UpperMeans(vals: Key, key: Key)
    requires |key| == |vals| > 0
    ensures (exists i :: i < |vals| && DecidedAt(i, vals, key, false)) <==> !Less(vals, key)
    ensures !Less(vals, key) ==> key[0] <= vals[0]
  {
    LessByColumn(key, vals);
    Total(key, vals);
    var last := |vals| - 1;
    if key == vals {
      assert DecidedAt(last, vals, key, false);
    }
    forall i | DecidedAt(i, vals, key, false)
      ensures !Less(vals, key)
    {
      if key[i] == vals[i] {
        assert key == key[..i] + [key[i]] && vals == vals[..i] + [vals[i]];
      }
    }
    forall i | 0 <= i < |vals| && key[..i] == vals[..i] && key[i] < vals[i]
      ensures DecidedAt(i, vals, key, false)
    {
    }
  }

  // ----- ranges

  /** lo < key <= hi, an absent bound open. */
  predicate InRange(key: Key, lo: Option<Key>, hi: Option<Key>) {
    (lo.Some? ==> Less(lo.value, key)) && (hi.Some? ==> !Less(hi.value, key))
  }

  datatype ChunkRange = ChunkRange(lo: Option<Key>, hi: Option<Key>) {
    predicate Has(key: Key) { InRange(key, lo, hi) }
  }

  ghost predicate NonDecreasing(bs: seq<Key>) {
    forall i, j :: 0 <= i < j < |bs| ==> !Less(bs[j], bs[i])
  }

  function LastOf(bs: seq<Key>): Option<Key> {
    if bs == [] then None else Some(bs[|bs| - 1])
  }

  function RangesOf(bs: seq<Key>): seq<ChunkRange> {
    seq(|bs|, i requires 0 <= i < |bs| => ChunkRange(LastOf(bs[..i]), Some(bs[i]))) + [ChunkRange(LastOf(bs), None)]
  }

  /** `chunk_ranges`, a loop carrying the previous boundary. */
  method ChunkRanges(bs: seq<Key>) returns (ranges: seq<ChunkRange>)
    ensures ranges == RangesOf(bs)
  {
    ranges := [];
    var lo: Option<Key> := None;
    for i := 0 to |bs|
      invariant |ranges| == i && forall j :: 0 <= j < i ==> ranges[j] == ChunkRange(LastOf(bs[..j]), Some(bs[j]))
      invariant lo == LastOf(bs[..i])
    {
      ranges := ranges + [ChunkRange(lo, Some(bs[i]))];
      lo := Some(bs[i]);
    }
    ranges := ranges + [ChunkRange(lo, None)];
    assert bs[..|bs|] == bs;
  }

  /** The ranges of non-decreasing boundaries, repeated ones included, partition the keys. */
  lemma RangesPartition(bs: seq<Key>, key: Key)
    requires NonDecreasing(bs)
    ensures exists i :: 0 <= i <= |bs| && RangesOf(bs)[i].Has(key)
    ensures forall i, j :: 0 <= i < j <= |bs| && RangesOf(bs)[i].Has(key) ==> !RangesOf(bs)[j].Has(key)
  {
    var i := FirstRange(bs, key);
    assert RangesOf(bs)[i].Has(key);
    forall i, j | 0 <= i < j <= |bs| && RangesOf(bs)[i].Has(key) ensures !RangesOf(bs)[j].Has(key) {
      RangesDisjoint(bs, key, i, j);
    }
  }

  lemma FirstRange(bs: seq<Key>, key: Key) returns (i: nat)
    ensures i <= |bs| && RangesOf(bs)[i].Has(key)
  {
    i := 0;
    while i < |bs| && Less(bs[i], key)
      invariant i <= |bs|
      invariant i > 0 ==> Less(bs[i - 1], key)
    {
      i := i + 1;
    }
    assert i > 0 ==> bs[..i][i - 1] == bs[i - 1];
  }

  lemma RangesDisjoint(bs: seq<Key>, key: Key, i: nat, j: nat)
    requires NonDecreasing(bs) && i < j <= |bs| && RangesOf(bs)[i].Has(key)
    ensures !RangesOf(bs)[j].Has(key)
  {
    assert RangesOf(bs)[j].lo == Some(bs[j - 1]) by {
      assert j < |bs| ==> bs[..j][j - 1] == bs[j - 1];
    }
    assert !Less(bs[i], key);
    if Less(bs[j - 1], key) && i < j - 1 {
      Total(bs[i], bs[j - 1]);
      if Less(bs[i], bs[j - 1]) {
        Transitive(bs[i], bs[j - 1], key);
      }
    }
  }

  // ----- both bounds together

  function Width(b: Bound): nat {
    match b
    case Single(_) => 1
    case Expanded(_, terms) => 1 + Placeholders(terms)
  }

  predicate Fits(parts: seq<Bound>, args: seq<int>) {
    if parts == [] then args == []
    else Width(parts[0]) <= |args| && Fits(parts[1..], args[Width(parts[0])..])
  }

  /** The parts joined by AND, `1=1` when there are none. */
  predicate AllHold(parts: seq<Bound>, args: seq<int>, key: Key)
    requires Fits(parts, args)
  {
    parts != [] ==>
      BoundHolds(parts[0], args[..Width(parts[0])], key) && AllHold(parts[1..], args[Width(parts[0])..], key)
  }

  datatype Where = Where(parts: seq<Bound>, args: seq<int>)

  ghost predicate Selects(w: Where, k: nat, lo: Option<Key>, hi: Option<Key>) {
    Fits(w.parts, w.args) &&
    forall key: Key :: |key| == k ==> (AllHold(w.parts, w.args, key) <==> InRange(key, lo, hi))
  }

  function ArgsTaken(bound: Option<Key>, k: nat): nat {
    if bound.Some? then BoundArgCount(k) else 0
  }

  /** `range_predicate`: the rows of one chunk, with the arguments of both bounds in order. */
  method RangePredicate(k: nat, lo: Option<Key>, hi: Option<Key>) returns (r: Result<Where>)
    requires k > 0
    ensures r.Ok? <==> (lo.Some? ==> |lo.value| == k) && (hi.Some? ==> |hi.value| == k)
    ensures r.Ok? ==> Selects(r.value, k, lo, hi) && |r.value.args| == ArgsTaken(lo, k) + ArgsTaken(hi, k)
  {
    var low: Option<Built> := None;
    var high: Option<Built> := None;
    if lo.Some? {
      var built := BoundFor(k, lo.value, true);
      if built.ValueError? {
        return ValueError;
      }
      low := Some(built.value);
    }
    if hi.Some? {
      var built := BoundFor(k, hi.value, false);
      if built.ValueError? {
        return ValueError;
      }
      high := Some(built.value);
    }
    JoinedSelects(low, high, k, lo, hi);
    r := Ok(Joined(low, high));
  }

  function Joined(low: Option<Built>, high: Option<Built>): Where {
    Where((if low.Some? then [low.value.bound] else []) + (if high.Some? then [high.value.bound] else []),
          (if low.Some? then low.value.args else []) + (if high.Some? then high.value.args else []))
  }

  ghost predicate BuiltFor(built: Option<Built>, bound: Option<Key>, k: nat, lower: bool) {
    (built.Some? <==> bound.Some?) &&
    (built.Some? ==> |bound.value| == k && Decides(built.value, bound.value, lower))
  }

  lemma JoinedSelects(low: Option<Built>, high: Option<Built>, k: nat, lo: Option<Key>, hi: Option<Key>)
    requires BuiltFor(low, lo, k, true) && BuiltFor(high, hi, k, false)
    ensures Selects(Joined(low, high), k, lo, hi)
  {
    var w := Joined(low, high);
    if low.Some? && high.Some? {
      TwoParts(low.value, high.value);
      forall key: Key | |key| == k ensures AllHold(w.parts, w.args, key) <==> InRange(key, lo, hi) {
        TwoHold(low.value, high.value, key);
      }
    } else if low.Some? {
      assert w == Where([low.value.bound], low.value.args);
      OnePart(low.value);
    } else if high.Some? {
      assert w == Where([high.value.bound], high.value.args);
      OnePart(high.value);
    } else {
      assert w == Where([], []);
    }
  }

  lemma OnePart(b: Built)
    requires WellFormed(b.bound, b.args)
    ensures Fits([b.bound], b.args)
    ensures forall key :: AllHold([b.bound], b.args, key) <==> BoundHolds(b.bound, b.args, key)
  {
    assert b.args[..Width(b.bound)] == b.args && b.args[Width(b.bound)..] == [];
    assert Fits([b.bound][1..], []);
  }

  lemma TwoParts(a: Built, b: Built)
    requires WellFormed(a.bound, a.args) && WellFormed(b.bound, b.args)
    ensures Fits([a.bound] + [b.bound], a.args + b.args)
    ensures ([a.bound] + [b.bound])[1..] == [b.bound]
    ensures (a.args + b.args)[..Width(a.bound)] == a.args && (a.args + b.args)[Width(a.bound)..] == b.args
  {
    OnePart(b);
  }

  lemma TwoHold(a: Built, b: Built, key: Key)
    requires WellFormed(a.bound, a.args) && WellFormed(b.bound, b.args)
    ensures Fits([a.bound] + [b.bound], a.args + b.args)
    ensures AllHold([a.bound] + [b.bound], a.args + b.args, key) <==>
      BoundHolds(a.bound, a.args, key) && BoundHolds(b.bound, b.args, key)
  {
    TwoParts(a, b);
    OnePart(b);
  }
}
