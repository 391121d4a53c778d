/** `GtidSet` of dbguard/gtid.py: a map from (uuid, tag) to merged intervals. Every operation
    is specified by the finite set of transactions the map denotes. */
module GtidSets {
  import opened Intervals
  import Text

  /** (uuid, tag), both lower case, the tag "" when there is none. */
  datatype Key = Key(uuid: string, tag: string)

  datatype Gtid = Gtid(key: Key, n: int)

  type IntervalMap = map<Key, seq<Interval>>

  ghost function At(m: IntervalMap, k: Key): set<int> {
    if k in m then Points(m[k]) else {}
  }

  datatype GtidSet = GtidSet(m: IntervalMap) {
    /** What the constructor establishes: merged intervals and no empty entry. */
    ghost predicate Valid() {
      forall k :: k in m ==> m[k] != [] && Canonical(m[k])
    }
  }

  /** The transactions a map of intervals denotes. */
  ghost function Gtids(m: IntervalMap): set<Gtid> {
    set k, n | k in m && n in Points(m[k]) :: Gtid(k, n)
  }

  lemma GtidsMember(m: IntervalMap)
    ensures forall g :: g in Gtids(m) <==> g.n in At(m, g.key)
  {
    forall g: Gtid | g.n in At(m, g.key) ensures g in Gtids(m) {
      assert g == Gtid(g.key, g.n);
    }
  }

  lemma SameAt(a: IntervalMap, b: IntervalMap)
    requires forall k :: At(a, k) == At(b, k)
    ensures Gtids(a) == Gtids(b)
  {
    GtidsMember(a);
    GtidsMember(b);
  }

  lemma AtFromGtids(a: IntervalMap, b: IntervalMap, k: Key)
    requires Gtids(a) == Gtids(b)
    ensures At(a, k) == At(b, k)
  {
    GtidsMember(a);
    GtidsMember(b);
    forall n ensures n in At(a, k) <==> n in At(b, k) {
      assert Gtid(k, n) in Gtids(a) <==> Gtid(k, n) in Gtids(b);
    }
  }

  /** Equal sets of transactions have one representation, so `==` on maps is set equality. */
  lemma EqualIffSameGtids(a: GtidSet, b: GtidSet)
    requires a.Valid() && b.Valid()
    ensures a == b <==> Gtids(a.m) == Gtids(b.m)
  {
    if Gtids(a.m) == Gtids(b.m) {
      forall k ensures k in a.m <==> k in b.m
        ensures k in a.m && k in b.m ==> a.m[k] == b.m[k]
      {
        AtFromGtids(a.m, b.m, k);
        if k in a.m { NonEmptyHasPoints(a.m[k]); }
        if k in b.m { NonEmptyHasPoints(b.m[k]); }
        if k in a.m && k in b.m { CanonicalUnique(a.m[k], b.m[k]); }
      }
      assert a.m == b.m;
    }
  }

  lemma NonEmptyHasPoints(s: seq<Interval>)
    requires Canonical(s) && s != []
    ensures Points(s) != {}
  {
    CanonicalBounds(s);
  }

  // ----- construction

  /** `__init__`: normalise every entry and drop the empty ones. None is the parse error. */
  method Make(mapping: IntervalMap) returns (r: Option<GtidSet>)
    ensures r.Some? <==> forall k :: k in mapping ==> AllValid(mapping[k])
    ensures r.Some? ==> r.value.Valid() && Gtids(r.value.m) == Gtids(mapping)
  {
    var m: IntervalMap := map[];
    var todo := mapping.Keys;
    while todo != {}
      invariant todo <= mapping.Keys
      invariant m.Keys <= mapping.Keys - todo
      invariant GtidSet(m).Valid()
      invariant forall k :: k in mapping && k !in todo ==>
        AllValid(mapping[k]) && At(m, k) == Points(mapping[k])
      decreases todo
    {
      var k :| k in todo;
      var norm := Normalize(mapping[k]);
      if norm.None? {
        return None;
      }
      todo := todo - {k};
      if norm.value != [] {
        m := m[k := norm.value];
      }
    }
    assert forall k :: At(m, k) == At(mapping, k);
    SameAt(m, mapping);
    r := Some(GtidSet(m));
  }

  function Get(m: IntervalMap, k: Key): seq<Interval> {
    if k in m then m[k] else []
  }

  lemma {:induction false} ConcatValid(s: seq<Interval>, t: seq<Interval>)
    requires Canonical(s) && Canonical(t)
    ensures AllValid(s + t) && AllValid(s)
    ensures Points(s + t) == Points(s) + Points(t)
  {
    CanonicalIsDisjoint(s);
    CanonicalIsDisjoint(t);
    PointsConcat(s, t);
    forall i | 0 <= i < |s + t| ensures (s + t)[i].Valid() {
      assert (s + t)[i] == if i < |s| then s[i] else t[i - |s|];
    }
  }

  // ----- algebra

  /** `a | b`. */
  method Union(a: GtidSet, b: GtidSet) returns (r: GtidSet)
    requires a.Valid() && b.Valid()
    ensures r.Valid() && Gtids(r.m) == Gtids(a.m) + Gtids(b.m)
  {
    hide Gtids, Points, Canonical, AllValid;
    EmptyIsCanonical();
    var mapping := map k | k in a.m.Keys + b.m.Keys :: Get(a.m, k) + Get(b.m, k);
    forall k | k in mapping
      ensures AllValid(mapping[k]) && Points(mapping[k]) == At(a.m, k) + At(b.m, k)
    {
      ConcatValid(Get(a.m, k), Get(b.m, k));
    }
    var made := Make(mapping);
    r := made.value;
    GtidsMember(mapping);
    GtidsMember(a.m);
    GtidsMember(b.m);
  }

  /** `a - b`, GTID_SUBTRACT. */
  method Subtract(a: GtidSet, b: GtidSet) returns (r: GtidSet)
    requires a.Valid() && b.Valid()
    ensures r.Valid() && Gtids(r.m) == Gtids(a.m) - Gtids(b.m)
  {
    hide Gtids, Points, Canonical;
    EmptyIsCanonical();
    var out: IntervalMap := map[];
    var todo := a.m.Keys;
    while todo != {}
      invariant todo <= a.m.Keys && out.Keys == a.m.Keys - todo
      invariant forall k :: k in out ==>
        Canonical(out[k]) && Points(out[k]) == Points(a.m[k]) - At(b.m, k)
      decreases todo
    {
      var k :| k in todo;
      var left := a.m[k];
      if k in b.m && b.m[k] != [] {
        CanonicalIsDisjoint(b.m[k]);
        left := SubtractIv(a.m[k], b.m[k]);
      }
      out := out[k := left];
      todo := todo - {k};
    }
    r := MakeCanonical(out);
    GtidsMember(out);
    GtidsMember(a.m);
    GtidsMember(b.m);
  }

  /** `a & b`. */
  method Intersection(a: GtidSet, b: GtidSet) returns (r: GtidSet)
    requires a.Valid() && b.Valid()
    ensures r.Valid() && Gtids(r.m) == Gtids(a.m) * Gtids(b.m)
  {
    hide Gtids, Points, Canonical;
    var out: IntervalMap := map[];
    var todo := a.m.Keys * b.m.Keys;
    while todo != {}
      invariant todo <= a.m.Keys * b.m.Keys && out.Keys == a.m.Keys * b.m.Keys - todo
      invariant forall k :: k in out ==>
        Canonical(out[k]) && Points(out[k]) == Points(a.m[k]) * Points(b.m[k])
      decreases todo
    {
      var k :| k in todo;
      var both := IntersectIv(a.m[k], b.m[k]);
      out := out[k := both];
      todo := todo - {k};
    }
    r := MakeCanonical(out);
    GtidsMember(out);
    GtidsMember(a.m);
    GtidsMember(b.m);
  }

  method MakeCanonical(mapping: IntervalMap) returns (r: GtidSet)
    requires forall k :: k in mapping ==> Canonical(mapping[k])
    ensures r.Valid() && Gtids(r.m) == Gtids(mapping)
  {
    forall k | k in mapping ensures AllValid(mapping[k]) {
      CanonicalIsDisjoint(mapping[k]);
    }
    var made := Make(mapping);
    r := made.value;
  }

  /** `a <= b`, GTID_SUBSET: every failover decision asks this. */
  method IsSubset(a: GtidSet, b: GtidSet) returns (subset: bool)
    requires a.Valid() && b.Valid()
    ensures subset <==> Gtids(a.m) <= Gtids(b.m)
  {
    var d := Subtract(a, b);
    subset := d.m == map[];
    EmptyIffNoGtids(d);
    assert Gtids(a.m) <= Gtids(b.m) <==> Gtids(a.m) - Gtids(b.m) == {} by {
      assert forall g :: g in Gtids(a.m) - Gtids(b.m) <==> g in Gtids(a.m) && g !in Gtids(b.m);
    }
  }

  lemma EmptyIffNoGtids(s: GtidSet)
    requires s.Valid()
    ensures s.m == map[] <==> Gtids(s.m) == {}
  {
    if s.m != map[] {
      var k :| k in s.m;
      NonEmptyHasPoints(s.m[k]);
      var n :| n in Points(s.m[k]);
      assert Gtid(k, n) in Gtids(s.m);
    }
  }

  // ----- views

  /** `contains`: the walk stops early because the intervals are sorted. */
  method Contains(s: GtidSet, uuid: string, n: int, tag: string) returns (found: bool)
    requires s.Valid()
    ensures found <==> Gtid(Key(Text.Lower(uuid), Text.Lower(tag)), n) in Gtids(s.m)
  {
    hide Gtids, Points, Canonical;
    var k := Key(Text.Lower(uuid), Text.Lower(tag));
    GtidsMember(s.m);
    var ivs := Get(s.m, k);
    EmptyIsCanonical();
    PointsMember(ivs, n);
    CanonicalIsDisjoint(ivs);
    var i := 0;
    while i < |ivs|
      invariant 0 <= i <= |ivs|
      invariant forall q :: 0 <= q < i ==> !ivs[q].Has(n)
    {
      if ivs[i].lo <= n <= ivs[i].hi {
        assert ivs[i].Has(n);
        return true;
      }
      if ivs[i].lo > n {
        assert forall q :: i <= q < |ivs| ==> ivs[q].Valid() && ivs[i].lo <= ivs[q].lo;
        return false;
      }
      i := i + 1;
    }
    found := false;
  }

  ghost function Tagged(k: Key, points: set<int>): set<Gtid> {
    set n | n in points :: Gtid(k, n)
  }

  lemma Member<T>(s: set<T>) returns (x: T)
    requires s != {}
    ensures x in s
  {
    x :| x in s;
  }

  lemma {:induction false} TaggedSize(k: Key, points: set<int>)
    ensures |Tagged(k, points)| == |points|
  {
    if points != {} {
      var n := Member(points);
      TaggedSize(k, points - {n});
      assert Tagged(k, points) == Tagged(k, points - {n}) + {Gtid(k, n)};
    } else {
      assert points == {} && Tagged(k, points) == {};
    }
  }

  /** `count`: the sum of interval lengths is the number of transactions. */
  method CountGtids(s: GtidSet) returns (c: int)
    requires s.Valid()
    ensures c == |Gtids(s.m)|
  {
    c := 0;
    var todo := s.m.Keys;
    ghost var done: IntervalMap := map[];
    assert Gtids(done) == {};
    while todo != {}
      invariant todo <= s.m.Keys
      invariant done == map k | k in s.m && k !in todo :: s.m[k]
      invariant c == |Gtids(done)|
      decreases todo
    {
      var k :| k in todo;
      CountIsCardinality(s.m[k]);
      AddKeySize(done, k, s.m[k]);
      c := c + Count(s.m[k]);
      done := done[k := s.m[k]];
      todo := todo - {k};
    }
    assert done == s.m;
  }

  lemma AddKeySize(m: IntervalMap, k: Key, ivs: seq<Interval>)
    requires k !in m
    ensures |Gtids(m[k := ivs])| == |Gtids(m)| + |Points(ivs)|
  {
    hide Gtids, Tagged, Points;
    AddedKey(m, k, ivs);
    TaggedSize(k, Points(ivs));
  }

  lemma AddedKey(m: IntervalMap, k: Key, ivs: seq<Interval>)
    requires k !in m
    ensures Gtids(m[k := ivs]) == Gtids(m) + Tagged(k, Points(ivs)) && Gtids(m) !! Tagged(k, Points(ivs))
  {
    hide Gtids, Points;
    GtidsMember(m);
    GtidsMember(m[k := ivs]);
    forall g ensures g in Gtids(m[k := ivs]) <==> g in Gtids(m) + Tagged(k, Points(ivs)) {
      assert g.key == k ==> (g in Tagged(k, Points(ivs)) <==> g.n in Points(ivs));
    }
  }
}
