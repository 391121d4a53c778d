/** The text form of a GTID set: `GtidSet.parse`, `_norm_uuid` and `__str__` of
    dbguard/gtid.py, with the format of MySQL 8.4 Reference Manual section 19.1.3.1. A text
    means a list of facts "this interval belongs to this (uuid, tag)", or is refused. */
module GtidText {
  import opened Intervals
  import opened GtidSets
  import opened Text

  const MAX_GNO: int := 0x7fff_ffff_ffff_ffff

  datatype Fact = Fact(key: Key, iv: Interval)

  type Facts = Option<seq<Fact>>

  // ----- what one text means

  function EatHex(s: string, n: nat): Option<string> {
    if n == 0 then Some(s)
    else if s != "" && IsHex(s[0]) then EatHex(s[1..], n - 1)
    else None
  }

  function EatDash(s: string): string {
    if s != "" && s[0] == '-' then s[1..] else s
  }

  /** `[0-9a-f]{n}-?` and then the rest of the pattern. */
  function EatGroups(s: string, groups: seq<nat>): Option<string>
    decreases |groups|
  {
    if groups == [] then Some(s)
    else
      match EatHex(s, groups[0])
      case Some(rest) => EatGroups(if |groups| == 1 then rest else EatDash(rest), groups[1..])
      case None => None
  }

  const UUID_GROUPS: seq<nat> := [8, 4, 4, 4, 12]

  predicate IsUuid(s: string) {
    EatGroups(s, UUID_GROUPS) == Some("")
  }

  /** `_norm_uuid`, on text that holds no whitespace. */
  function NormUuid(text: string): Option<string> {
    var u := Lower(text);
    if !IsUuid(u) then None
    else if '-' in u then Some(u)
    else
      UuidShape(u);
      Some(u[..8] + "-" + u[8..12] + "-" + u[12..16] + "-" + u[16..20] + "-" + u[20..])
  }

  lemma {:induction false} EatHexSpec(s: string, n: nat)
    ensures EatHex(s, n).Some? <==> n <= |s| && forall i :: 0 <= i < n ==> IsHex(s[i])
    ensures EatHex(s, n).Some? ==> EatHex(s, n).value == s[n..]
  {
    if n > 0 && s != "" {
      EatHexSpec(s[1..], n - 1);
      assert forall i :: 1 <= i <= n && n <= |s| ==> i == n || s[1..][i - 1] == s[i];
    }
  }

  function Total(groups: seq<nat>): nat {
    if groups == [] then 0 else groups[0] + Total(groups[1..])
  }

  /** Text that matches the pattern holds hex digits and dashes only, and its hex digits
      number the sum of the groups. */
  lemma {:induction false} EatGroupsShape(s: string, groups: seq<nat>)
    requires EatGroups(s, groups) == Some("")
    ensures forall c :: c in s ==> IsHex(c) || c == '-'
    ensures '-' !in s ==> |s| == Total(groups)
    decreases |groups|
  {
    if groups != [] {
      EatHexSpec(s, groups[0]);
      var rest := s[groups[0]..];
      var next := if |groups| == 1 then rest else EatDash(rest);
      EatGroupsShape(next, groups[1..]);
      assert s == s[..groups[0]] + rest;
      assert forall c :: c in s[..groups[0]] ==> IsHex(c);
      assert forall c :: c in rest ==> c == '-' || c in next;
    }
  }

  lemma UuidShape(u: string)
    requires IsUuid(u)
    ensures forall c :: c in u ==> IsHex(c) || c == '-'
    ensures '-' !in u ==> |u| == 32
  {
    EatGroupsShape(u, UUID_GROUPS);
    assert Total([12]) == 12 && Total([4, 12]) == 16 && Total([4, 4, 12]) == 20;
    assert UUID_GROUPS[1..] == [4, 4, 4, 12] && [4, 4, 4, 12][1..] == [4, 4, 12];
  }

  predicate TagStart(c: char) { 'a' <= c <= 'z' || c == '_' }

  predicate IsTag(t: string) {
    1 <= |t| <= 32 && TagStart(t[0]) && forall i :: 0 <= i < |t| ==> TagStart(t[i]) || IsDigit(t[i])
  }

  /** `f.partition("-")`. */
  function BeforeDash(f: string): string {
    if f == "" || f[0] == '-' then "" else [f[0]] + BeforeDash(f[1..])
  }

  function AfterDash(f: string): string {
    if f == "" then "" else if f[0] == '-' then f[1..] else AfterDash(f[1..])
  }

  /** One numeric field, `n` or `n-m`. */
  function IntervalOf(f: string): Option<Interval> {
    var lo := Int(BeforeDash(f));
    var hi := if |BeforeDash(f)| < |f| then Int(AfterDash(f)) else lo;
    if lo.Some? && hi.Some? && 1 <= lo.value <= hi.value <= MAX_GNO
    then Some(Interval(lo.value, hi.value)) else None
  }

  function Then(head: seq<Fact>, rest: Facts): Facts {
    match rest case Some(facts) => Some(head + facts) case None => None
  }

  /** The fields after the uuid. A field that starts with no digit sets the tag. */
  function FieldFacts(uuid: string, tag: string, fields: seq<string>): Facts
    decreases |fields|
  {
    if fields == [] then Some([])
    else
      var f := fields[0];
      if f == "" then None
      else if IsDigit(f[0]) then
        match IntervalOf(f)
        case Some(iv) => Then([Fact(Key(uuid, tag), iv)], FieldFacts(uuid, tag, fields[1..]))
        case None => None
      else if IsTag(Lower(f)) then FieldFacts(uuid, Lower(f), fields[1..])
      else None
  }

  /** One comma-separated part without whitespace; a part that names no interval is refused. */
  function PartFacts(part: string): Facts {
    var fields := Split(part, ':');
    match NormUuid(fields[0])
    case None => None
    case Some(uuid) =>
      var facts := FieldFacts(uuid, "", fields[1..]);
      if facts == Some([]) then None else facts
  }

  function PartsFacts(parts: seq<string>): Facts {
    if parts == [] then Some([])
    else
      var part := DropSpace(parts[0]);
      if part == "" then PartsFacts(parts[1..])
      else
        match PartFacts(part)
        case Some(facts) => Then(facts, PartsFacts(parts[1..]))
        case None => None
  }

  /** Everything a text says, or None where `parse` raises. */
  function Meaning(text: string): Facts {
    PartsFacts(Split(text, ','))
  }

  ghost function FactGtids(facts: seq<Fact>): set<Gtid> {
    if facts == [] then {}
    else Tagged(facts[0].key, Range(facts[0].iv)) + FactGtids(facts[1..])
  }

  // ----- parse

  predicate GoodFacts(facts: seq<Fact>) {
    forall i :: 0 <= i < |facts| ==> facts[i].iv.lo <= facts[i].iv.hi
  }

  /** `acc.setdefault(key, []).append(iv)` over the facts. */
  function Collect(acc: IntervalMap, facts: seq<Fact>): IntervalMap
    decreases |facts|
  {
    if facts == [] then acc
    else Collect(acc[facts[0].key := Get(acc, facts[0].key) + [facts[0].iv]], facts[1..])
  }

  lemma {:induction false} CollectSpec(acc: IntervalMap, facts: seq<Fact>)
    requires GoodFacts(facts) && forall k :: k in acc ==> AllValid(acc[k])
    ensures forall k :: k in Collect(acc, facts) ==> AllValid(Collect(acc, facts)[k])
    ensures Gtids(Collect(acc, facts)) == Gtids(acc) + FactGtids(facts)
    decreases |facts|
  {
    if facts != [] {
      var f := facts[0];
      var next := acc[f.key := Get(acc, f.key) + [f.iv]];
      assert f.iv.Valid();
      AddInterval(acc, f.key, f.iv);
      CollectSpec(next, facts[1..]);
    }
  }

  lemma AddInterval(acc: IntervalMap, k: Key, iv: Interval)
    ensures Gtids(acc[k := Get(acc, k) + [iv]]) == Gtids(acc) + Tagged(k, Range(iv))
  {
    PointsAppend(Get(acc, k), iv);
    GtidsMember(acc);
    GtidsMember(acc[k := Get(acc, k) + [iv]]);
  }

  lemma {:induction false} CollectConcat(acc: IntervalMap, f: seq<Fact>, g: seq<Fact>)
    ensures Collect(acc, f + g) == Collect(Collect(acc, f), g)
    decreases |f|
  {
    if f == [] {
      assert f + g == g;
    } else {
      assert (f + g)[1..] == f[1..] + g;
      CollectConcat(acc[f[0].key := Get(acc, f[0].key) + [f[0].iv]], f[1..], g);
    }
  }

  lemma {:induction false} FieldFactsGood(uuid: string, tag: string, fields: seq<string>)
    ensures FieldFacts(uuid, tag, fields).Some? ==> GoodFacts(FieldFacts(uuid, tag, fields).value)
    decreases |fields|
  {
    if fields != [] && fields[0] != "" {
      FieldFactsGood(uuid, tag, fields[1..]);
      FieldFactsGood(uuid, Lower(fields[0]), fields[1..]);
    }
  }

  lemma {:induction false} PartsFactsGood(parts: seq<string>)
    ensures PartsFacts(parts).Some? ==> GoodFacts(PartsFacts(parts).value)
  {
    if parts != [] {
      PartsFactsGood(parts[1..]);
      var part := DropSpace(parts[0]);
      var fields := Split(part, ':');
      if NormUuid(fields[0]).Some? {
        FieldFactsGood(NormUuid(fields[0]).value, "", fields[1..]);
      }
    }
  }

  /** One more field: `f` is refused, adds an interval under the tag, or sets the tag. */
  lemma FieldStep(done: seq<Fact>, uuid: string, tag: string, fields: seq<string>, i: nat)
    requires i < |fields|
    ensures
      var f, before := fields[i], Then(done, FieldFacts(uuid, tag, fields[i..]));
      if f == "" then before.None?
      else if IsDigit(f[0]) then
        match IntervalOf(f)
        case Some(iv) =>
          before == Then(done + [Fact(Key(uuid, tag), iv)], FieldFacts(uuid, tag, fields[i + 1..]))
        case None => before.None?
      else if IsTag(Lower(f)) then before == Then(done, FieldFacts(uuid, Lower(f), fields[i + 1..]))
      else before.None?
  {
    hide IntervalOf, Lower, IsTag;
    assert fields[i..][1..] == fields[i + 1..];
    var f := fields[i];
    if f != "" && IsDigit(f[0]) && IntervalOf(f).Some? {
      ThenConcat(done, [Fact(Key(uuid, tag), IntervalOf(f).value)], FieldFacts(uuid, tag, fields[i + 1..]));
    }
  }

  lemma CollectOne(start: IntervalMap, done: seq<Fact>, fact: Fact)
    ensures var acc := Collect(start, done);
      Collect(start, done + [fact]) == acc[fact.key := Get(acc, fact.key) + [fact.iv]]
  {
    CollectConcat(start, done, [fact]);
    assert [fact][1..] == [];
  }

  /** The inner loop of `parse`: the fields of one part, collected into `acc`. */
  method ParseFields(uuid: string, fields: seq<string>, start: IntervalMap)
    returns (ok: bool, acc: IntervalMap, sawInterval: bool)
    ensures ok <==> FieldFacts(uuid, "", fields).Some?
    ensures ok ==> acc == Collect(start, FieldFacts(uuid, "", fields).value)
    ensures ok ==> (sawInterval <==> FieldFacts(uuid, "", fields).value != [])
  {
    acc, sawInterval := start, false;
    var tag := "";
    var i := 0;
    ghost var done: seq<Fact> := [];
    ThenNil(FieldFacts(uuid, "", fields));
    assert fields[0..] == fields;
    while i < |fields|
      invariant 0 <= i <= |fields|
      invariant FieldFacts(uuid, "", fields) == Then(done, FieldFacts(uuid, tag, fields[i..]))
      invariant acc == Collect(start, done)
      invariant sawInterval <==> done != []
    {
      hide FieldFacts, Collect, Then, IntervalOf, Lower, IsTag;
      var f := fields[i];
      FieldStep(done, uuid, tag, fields, i);
      if f == "" {
        return false, acc, sawInterval;
      }
      if IsDigit(f[0]) {
        var iv := IntervalOf(f);
        if iv.None? {
          return false, acc, sawInterval;
        }
        ghost var fact := Fact(Key(uuid, tag), iv.value);
        CollectOne(start, done, fact);
        acc := acc[Key(uuid, tag) := Get(acc, Key(uuid, tag)) + [iv.value]];
        done := done + [fact];
        sawInterval := true;
      } else {
        var t := Lower(f);
        if !IsTag(t) {
          return false, acc, sawInterval;
        }
        tag := t;
      }
      i := i + 1;
    }
    assert fields[i..] == [];
    assert done + [] == done;
    ok := true;
  }

  lemma ThenNil(rest: Facts)
    ensures Then([], rest) == rest
  {
    if rest.Some? {
      assert [] + rest.value == rest.value;
    }
  }

  lemma ThenConcat(f: seq<Fact>, g: seq<Fact>, rest: Facts)
    ensures Then(f + g, rest) == Then(f, Then(g, rest))
  {
    if rest.Some? {
      assert (f + g) + rest.value == f + (g + rest.value);
    }
  }

  /** `GtidSet.parse`: a refused text gives None, any other the merged set of its facts. */
  method Parse(text: string) returns (r: Option<GtidSet>)
    ensures r.Some? <==> Meaning(text).Some?
    ensures r.Some? ==> r.value.Valid() && Gtids(r.value.m) == FactGtids(Meaning(text).value)
  {
    var parts := Split(text, ',');
    var acc: IntervalMap := map[];
    ghost var done: seq<Fact> := [];
    var i := 0;
    ThenNil(Meaning(text));
    assert parts[0..] == parts;
    while i < |parts|
      invariant 0 <= i <= |parts|
      invariant Meaning(text) == Then(done, PartsFacts(parts[i..]))
      invariant acc == Collect(map[], done)
    {
      var part := DropSpace(parts[i]);
      assert parts[i..][1..] == parts[i + 1..];
      if part != "" {
        var fields := Split(part, ':');
        var uuid := NormUuid(fields[0]);
        if uuid.None? {
          return None;
        }
        var ok, next, saw := ParseFields(uuid.value, fields[1..], acc);
        if !ok || !saw {
          return None;
        }
        ghost var facts := FieldFacts(uuid.value, "", fields[1..]).value;
        CollectConcat(map[], done, facts);
        ThenConcat(done, facts, PartsFacts(parts[i + 1..]));
        done := done + facts;
        acc := next;
      }
      i := i + 1;
    }
    assert parts[i..] == [] && done + [] == done;
    PartsFactsGood(parts);
    CollectSpec(map[], done);
    assert Gtids(map[]) == {};
    r := Make(acc);
  }

  // ----- __str__

  function IvText(iv: Interval): string
    requires 0 <= iv.lo <= iv.hi
  {
    if iv.lo == iv.hi then Str(iv.lo) else Str(iv.lo) + "-" + Str(iv.hi)
  }

  predicate InBounds(ivs: seq<Interval>) {
    forall i :: 0 <= i < |ivs| ==> 1 <= ivs[i].lo <= ivs[i].hi <= MAX_GNO
  }

  function IvFields(ivs: seq<Interval>): (fields: seq<string>)
    requires InBounds(ivs)
    ensures |fields| == |ivs| && forall i :: 0 <= i < |ivs| ==> fields[i] == IvText(ivs[i])
  {
    if ivs == [] then [] else [IvText(ivs[0])] + IvFields(ivs[1..])
  }

  /** A set whose uuids, tags and bounds MySQL's text form can carry. */
  ghost predicate Printable(m: IntervalMap) {
    forall k :: k in m ==>
      m[k] != [] && InBounds(m[k]) && NormUuid(k.uuid) == Some(k.uuid) && (k.tag == "" || IsTag(k.tag))
  }

  ghost predicate HasKeys(m: IntervalMap, uuid: string, tags: seq<string>) {
    forall i :: 0 <= i < |tags| ==> Key(uuid, tags[i]) in m
  }

  /** The fields of one uuid: each non-empty tag, then its intervals. */
  ghost function TagFields(m: IntervalMap, uuid: string, tags: seq<string>): seq<string>
    requires Printable(m) && HasKeys(m, uuid, tags)
  {
    if tags == [] then []
    else
      (if tags[0] == "" then [] else [tags[0]]) + IvFields(m[Key(uuid, tags[0])])
      + TagFields(m, uuid, tags[1..])
  }

  ghost function Sorted(all: set<string>): seq<string> {
    if all == {} then []
    else
      var x :| x in all;
      InsertString(x, Sorted(all - {x}))
  }

  lemma {:induction false} SortedSpec(all: set<string>)
    ensures Increasing(Sorted(all)) && forall t :: t in Sorted(all) <==> t in all
  {
    if all != {} {
      var x :| x in all && Sorted(all) == InsertString(x, Sorted(all - {x}));
      SortedSpec(all - {x});
      InsertStringSpec(x, Sorted(all - {x}));
    }
  }

  ghost function Uuids(m: IntervalMap): set<string> {
    set k | k in m :: k.uuid
  }

  ghost function Tags(m: IntervalMap, uuid: string): set<string> {
    set k | k in m && k.uuid == uuid :: k.tag
  }

  lemma SortedTags(m: IntervalMap, uuid: string)
    ensures Increasing(Sorted(Tags(m, uuid))) && HasKeys(m, uuid, Sorted(Tags(m, uuid)))
    ensures forall t :: t in Sorted(Tags(m, uuid)) <==> Key(uuid, t) in m
  {
    SortedSpec(Tags(m, uuid));
    var tags := Sorted(Tags(m, uuid));
    forall t ensures t in tags <==> Key(uuid, t) in m {
      if t in Tags(m, uuid) {
        var k :| k in m && k.uuid == uuid && k.tag == t;
        assert k == Key(uuid, t);
      }
      if Key(uuid, t) in m {
        assert Key(uuid, t).tag in Tags(m, uuid);
      }
    }
    assert forall i :: 0 <= i < |tags| ==> tags[i] in tags;
  }

  ghost function PartText(m: IntervalMap, uuid: string): string
    requires Printable(m)
  {
    SortedTags(m, uuid);
    Join([uuid] + TagFields(m, uuid, Sorted(Tags(m, uuid))), ':')
  }

  ghost function PartTexts(m: IntervalMap, uuids: seq<string>): seq<string>
    requires Printable(m)
  {
    if uuids == [] then [] else [PartText(m, uuids[0])] + PartTexts(m, uuids[1..])
  }

  /** The canonical text: a function of the set alone, so equal sets print alike. */
  ghost function TextOf(m: IntervalMap): string
    requires Printable(m)
  {
    Join(PartTexts(m, Sorted(Uuids(m))), ',')
  }

  lemma Assoc<T>(a: seq<T>, b: seq<T>, c: seq<T>)
    ensures (a + b) + c == a + (b + c)
  {
  }

  /** `__str__`: uuids sorted, and under each uuid the untagged intervals before the tags. */
  method ToText(s: GtidSet) returns (text: string)
    requires Printable(s.m)
    ensures text == TextOf(s.m)
  {
    var uuids := SortStrings(set k | k in s.m :: k.uuid);
    SortedSpec(Uuids(s.m));
    IncreasingUnique(uuids, Sorted(Uuids(s.m)));
    var parts: seq<string> := [];
    var i := 0;
    assert uuids[0..] == uuids;
    while i < |uuids|
      invariant 0 <= i <= |uuids|
      invariant PartTexts(s.m, uuids) == parts + PartTexts(s.m, uuids[i..])
    {
      hide PartText, PartTexts, Sorted, Tags, Uuids, Printable;
      PartsStep(parts, s.m, uuids, i);
      var fields := UuidFields(s, uuids[i]);
      parts := parts + [Join(fields, ':')];
      i := i + 1;
    }
    assert uuids[i..] == [] && parts + [] == parts;
    text := Join(parts, ',');
  }

  lemma PartsStep(parts: seq<string>, m: IntervalMap, uuids: seq<string>, i: nat)
    requires Printable(m) && i < |uuids|
    ensures parts + PartTexts(m, uuids[i..]) == parts + [PartText(m, uuids[i])] + PartTexts(m, uuids[i + 1..])
  {
    hide PartText, Printable;
    assert uuids[i..][1..] == uuids[i + 1..];
    Assoc(parts, [PartText(m, uuids[i])], PartTexts(m, uuids[i + 1..]));
  }

  lemma FieldsStep(fields: seq<string>, m: IntervalMap, uuid: string, tags: seq<string>, j: nat)
    requires Printable(m) && HasKeys(m, uuid, tags) && j < |tags|
    ensures
      var ivs := IvFields(m[Key(uuid, tags[j])]);
      var next := if tags[j] == "" then fields + ivs else fields + [tags[j]] + ivs;
      fields + TagFields(m, uuid, tags[j..]) == next + TagFields(m, uuid, tags[j + 1..])
  {
    assert tags[j..][1..] == tags[j + 1..];
    TagFieldsHead(m, uuid, tags[j..]);
    var ivs := IvFields(m[Key(uuid, tags[j])]);
    var rest := TagFields(m, uuid, tags[j + 1..]);
    Assoc(fields, ivs, rest);
    Assoc(fields + [tags[j]], ivs, rest);
    Assoc(fields, [tags[j]], ivs + rest);
  }

  lemma TagFieldsHead(m: IntervalMap, uuid: string, tags: seq<string>)
    requires Printable(m) && HasKeys(m, uuid, tags) && tags != []
    ensures var after := IvFields(m[Key(uuid, tags[0])]) + TagFields(m, uuid, tags[1..]);
      TagFields(m, uuid, tags) == if tags[0] == "" then after else [tags[0]] + after
  {
    Assoc([tags[0]], IvFields(m[Key(uuid, tags[0])]), TagFields(m, uuid, tags[1..]));
    assert [] + IvFields(m[Key(uuid, tags[0])]) == IvFields(m[Key(uuid, tags[0])]);
  }

  method UuidFields(s: GtidSet, uuid: string) returns (fields: seq<string>)
    requires Printable(s.m)
    ensures Join(fields, ':') == PartText(s.m, uuid)
  {
    var tags := SortStrings(set k | k in s.m && k.uuid == uuid :: k.tag);
    SortedTags(s.m, uuid);
    SortedSpec(Tags(s.m, uuid));
    IncreasingUnique(tags, Sorted(Tags(s.m, uuid)));
    fields := AppendFields(s, uuid, tags);
  }

  method AppendFields(s: GtidSet, uuid: string, tags: seq<string>) returns (fields: seq<string>)
    requires Printable(s.m) && HasKeys(s.m, uuid, tags)
    ensures fields == [uuid] + TagFields(s.m, uuid, tags)
  {
    fields := [uuid];
    var j := 0;
    assert tags[0..] == tags;
    while j < |tags|
      invariant 0 <= j <= |tags|
      invariant [uuid] + TagFields(s.m, uuid, tags) == fields + TagFields(s.m, uuid, tags[j..])
    {
      FieldsStep(fields, s.m, uuid, tags, j);
      if tags[j] != "" {
        fields := fields + [tags[j]];
      }
      fields := fields + IvFields(s.m[Key(uuid, tags[j])]);
      j := j + 1;
    }
    assert tags[j..] == [] && fields + [] == fields;
  }

  // ----- the round trip

  function IvFacts(key: Key, ivs: seq<Interval>): seq<Fact> {
    if ivs == [] then [] else [Fact(key, ivs[0])] + IvFacts(key, ivs[1..])
  }

  ghost function TagFacts(m: IntervalMap, uuid: string, tags: seq<string>): seq<Fact>
    requires HasKeys(m, uuid, tags)
  {
    if tags == [] then []
    else IvFacts(Key(uuid, tags[0]), m[Key(uuid, tags[0])]) + TagFacts(m, uuid, tags[1..])
  }

  lemma {:induction false} BeforeDashStops(a: string, rest: string)
    requires '-' !in a && (rest == "" || rest[0] == '-')
    ensures BeforeDash(a + rest) == a
  {
    if a == "" {
      assert a + rest == rest;
    } else {
      assert (a + rest)[1..] == a[1..] + rest;
      BeforeDashStops(a[1..], rest);
      assert a == [a[0]] + a[1..];
    }
  }

  lemma {:induction false} AfterDashIs(a: string, rest: string)
    requires '-' !in a
    ensures AfterDash(a + "-" + rest) == rest
  {
    var u := a + "-" + rest;
    if a == "" {
      assert u[1..] == rest;
    } else {
      assert u[1..] == a[1..] + "-" + rest;
      AfterDashIs(a[1..], rest);
    }
  }

  lemma OneNumber(n: nat)
    ensures BeforeDash(Str(n)) == Str(n)
  {
    BeforeDashStops(Str(n), "");
    assert Str(n) + "" == Str(n);
  }

  lemma TwoNumbers(a: nat, b: nat)
    ensures BeforeDash(Str(a) + "-" + Str(b)) == Str(a)
    ensures AfterDash(Str(a) + "-" + Str(b)) == Str(b)
  {
    AfterDashIs(Str(a), Str(b));
    BeforeDashStops(Str(a), "-" + Str(b));
    Assoc(Str(a), "-", Str(b));
  }

  lemma IntervalOfText(iv: Interval)
    requires 1 <= iv.lo <= iv.hi <= MAX_GNO
    ensures IntervalOf(IvText(iv)) == Some(iv)
  {
    IntOfStr(iv.lo);
    IntOfStr(iv.hi);
    if iv.lo == iv.hi {
      OneNumber(iv.lo);
    } else {
      TwoNumbers(iv.lo, iv.hi);
    }
  }

  /** Characters that survive the splits on ',' and ':' and the dropping of whitespace. */
  predicate PlainText(f: string) {
    forall c :: c in f ==> c != ':' && c != ',' && !IsSpace(c)
  }

  lemma IntervalTextPlain(iv: Interval)
    requires 1 <= iv.lo <= iv.hi
    ensures IvText(iv) != "" && IsDigit(IvText(iv)[0]) && PlainText(IvText(iv))
  {
    assert Str(iv.lo)[0] in Str(iv.lo);
  }

  lemma {:induction false} IvFieldsFacts(uuid: string, tag: string, ivs: seq<Interval>, rest: seq<string>)
    requires InBounds(ivs)
    ensures FieldFacts(uuid, tag, IvFields(ivs) + rest)
         == Then(IvFacts(Key(uuid, tag), ivs), FieldFacts(uuid, tag, rest))
    decreases |ivs|
  {
    if ivs == [] {
      assert IvFields(ivs) + rest == rest;
      ThenNil(FieldFacts(uuid, tag, rest));
    } else {
      IntervalOfText(ivs[0]);
      IntervalTextPlain(ivs[0]);
      var all := IvFields(ivs) + rest;
      assert all[1..] == IvFields(ivs[1..]) + rest;
      IvFieldsFacts(uuid, tag, ivs[1..], rest);
      ThenConcat([Fact(Key(uuid, tag), ivs[0])], IvFacts(Key(uuid, tag), ivs[1..]),
                 FieldFacts(uuid, tag, rest));
    }
  }

  lemma TagIsField(uuid: string, prev: string, t: string, after: seq<string>)
    requires IsTag(t)
    ensures FieldFacts(uuid, prev, [t] + after) == FieldFacts(uuid, t, after)
    ensures PlainText(t)
  {
    LowerIsLower(t);
    assert ([t] + after)[1..] == after;
  }

  lemma {:induction false} TagFieldsFacts(m: IntervalMap, uuid: string, prev: string, tags: seq<string>)
    requires Printable(m) && HasKeys(m, uuid, tags) && Increasing(tags)
    requires tags != [] && tags[0] == "" ==> prev == ""
    ensures FieldFacts(uuid, prev, TagFields(m, uuid, tags)) == Some(TagFacts(m, uuid, tags))
    decreases |tags|
  {
    if tags != [] {
      var t := tags[0];
      var ivs := m[Key(uuid, t)];
      var rest := TagFields(m, uuid, tags[1..]);
      assert |tags| > 1 ==> tags[1] in tags[1..] && Less(t, tags[1]);
      TagFieldsFacts(m, uuid, t, tags[1..]);
      IvFieldsFacts(uuid, t, ivs, rest);
      TagFieldsHead(m, uuid, tags);
      if t != "" {
        TagIsField(uuid, prev, t, IvFields(ivs) + rest);
      }
    }
  }

  ghost predicate Plain(fields: seq<string>) {
    forall i :: 0 <= i < |fields| ==> PlainText(fields[i])
  }

  lemma PlainConcat(f: seq<string>, g: seq<string>)
    requires Plain(f) && Plain(g)
    ensures Plain(f + g)
  {
  }

  lemma IvFieldsPlain(ivs: seq<Interval>)
    requires InBounds(ivs)
    ensures Plain(IvFields(ivs))
  {
    forall i | 0 <= i < |ivs| ensures PlainText(IvFields(ivs)[i]) {
      IntervalTextPlain(ivs[i]);
    }
  }

  lemma {:induction false} TagFieldsPlain(m: IntervalMap, uuid: string, tags: seq<string>)
    requires Printable(m) && HasKeys(m, uuid, tags)
    ensures Plain(TagFields(m, uuid, tags))
    decreases |tags|
  {
    if tags != [] {
      var ivs := m[Key(uuid, tags[0])];
      IvFieldsPlain(ivs);
      TagFieldsPlain(m, uuid, tags[1..]);
      PlainConcat(IvFields(ivs), TagFields(m, uuid, tags[1..]));
      TagFieldsHead(m, uuid, tags);
      if tags[0] != "" {
        TagIsField(uuid, "", tags[0], []);
        PlainConcat([tags[0]], IvFields(ivs) + TagFields(m, uuid, tags[1..]));
      }
    }
  }

  lemma JoinPlain(fields: seq<string>)
    requires fields != [] && Plain(fields) && fields[0] != ""
    ensures var part := Join(fields, ':');
      ',' !in part && DropSpace(part) == part && part != "" && Split(part, ':') == fields
  {
    var part := Join(fields, ':');
    SplitJoin(fields, ':');
    forall c | c in part ensures c != ',' && !IsSpace(c) {
      JoinChars(fields, ':', c);
    }
    DropSpaceSame(part);
  }

  /** One part of the printed text parses to that uuid's facts, and survives the splits. */
  lemma PartRoundTrip(m: IntervalMap, uuid: string)
    requires Printable(m) && uuid in Uuids(m)
    ensures HasKeys(m, uuid, Sorted(Tags(m, uuid)))
    ensures var part := PartText(m, uuid); ',' !in part && DropSpace(part) == part && part != ""
    ensures PartFacts(PartText(m, uuid)) == Some(TagFacts(m, uuid, Sorted(Tags(m, uuid))))
  {
    SortedTags(m, uuid);
    var tags := Sorted(Tags(m, uuid));
    var k :| k in m && k.uuid == uuid;
    assert k == Key(uuid, k.tag) && k.tag in tags;
    UuidPlain(uuid);
    TagFieldsPlain(m, uuid, tags);
    TagFieldsFacts(m, uuid, "", tags);
    TagFactsSome(m, uuid, tags);
    var fields := [uuid] + TagFields(m, uuid, tags);
    PlainConcat([uuid], TagFields(m, uuid, tags));
    JoinPlain(fields);
    PartOfFields(uuid, fields);
  }

  lemma TagFactsSome(m: IntervalMap, uuid: string, tags: seq<string>)
    requires Printable(m) && HasKeys(m, uuid, tags) && tags != []
    ensures TagFacts(m, uuid, tags) != []
  {
    assert m[Key(uuid, tags[0])] != [];
  }

  lemma PartOfFields(uuid: string, fields: seq<string>)
    requires fields != [] && fields[0] == uuid && NormUuid(uuid) == Some(uuid)
    requires Split(Join(fields, ':'), ':') == fields
    ensures var facts := FieldFacts(uuid, "", fields[1..]);
      PartFacts(Join(fields, ':')) == if facts == Some([]) then None else facts
  {
    hide NormUuid, FieldFacts, Join, Split;
  }

  lemma NormUuidHasDash(text: string)
    requires NormUuid(text).Some?
    ensures '-' in NormUuid(text).value
  {
    var u := Lower(text);
    if '-' !in u {
      UuidShape(u);
      assert NormUuid(text).value[8] == '-';
    }
  }

  lemma UuidPlain(u: string)
    requires NormUuid(u) == Some(u)
    ensures u != "" && PlainText(u)
  {
    NormUuidHasDash(u);
    var i :| 0 <= i < |u| && u[i] == '-';
    assert Lower(u)[i] == '-';
    UuidShape(Lower(u));
  }

  ghost function UuidFacts(m: IntervalMap, uuids: seq<string>): seq<Fact> {
    if uuids == [] then []
    else
      SortedTags(m, uuids[0]);
      TagFacts(m, uuids[0], Sorted(Tags(m, uuids[0]))) + UuidFacts(m, uuids[1..])
  }

  lemma {:induction false} PartsRoundTrip(m: IntervalMap, uuids: seq<string>)
    requires Printable(m) && forall u :: u in uuids ==> u in Uuids(m)
    ensures PartsFacts(PartTexts(m, uuids)) == Some(UuidFacts(m, uuids))
    ensures forall p :: p in PartTexts(m, uuids) ==> ',' !in p
    decreases |uuids|
  {
    if uuids != [] {
      PartRoundTrip(m, uuids[0]);
      PartsRoundTrip(m, uuids[1..]);
      assert PartTexts(m, uuids)[1..] == PartTexts(m, uuids[1..]);
    }
  }

  lemma {:induction false} FactGtidsConcat(f: seq<Fact>, g: seq<Fact>)
    ensures FactGtids(f + g) == FactGtids(f) + FactGtids(g)
  {
    if f == [] {
      assert f + g == g;
    } else {
      assert (f + g)[1..] == f[1..] + g;
      FactGtidsConcat(f[1..], g);
    }
  }

  lemma {:induction false} IvFactsGtids(key: Key, ivs: seq<Interval>)
    ensures FactGtids(IvFacts(key, ivs)) == Tagged(key, Points(ivs))
  {
    if ivs != [] {
      IvFactsGtids(key, ivs[1..]);
      assert ivs == [ivs[0]] + ivs[1..];
      PointsConcat([ivs[0]], ivs[1..]);
      assert [ivs[0]][..0] == [];
      assert IvFacts(key, ivs)[1..] == IvFacts(key, ivs[1..]);
    }
  }

  lemma {:induction false} TagFactsGtids(m: IntervalMap, uuid: string, tags: seq<string>)
    requires HasKeys(m, uuid, tags)
    ensures forall g :: g in FactGtids(TagFacts(m, uuid, tags)) <==>
      g.key.uuid == uuid && g.key.tag in tags && g.n in At(m, g.key)
    decreases |tags|
  {
    if tags != [] {
      var k := Key(uuid, tags[0]);
      TagFactsGtids(m, uuid, tags[1..]);
      IvFactsGtids(k, m[k]);
      FactGtidsConcat(IvFacts(k, m[k]), TagFacts(m, uuid, tags[1..]));
    }
  }

  lemma {:induction false} UuidFactsGtids(m: IntervalMap, uuids: seq<string>)
    ensures forall g :: g in FactGtids(UuidFacts(m, uuids)) <==> g.key.uuid in uuids && g.n in At(m, g.key)
    decreases |uuids|
  {
    if uuids != [] {
      SortedTags(m, uuids[0]);
      var tags := Sorted(Tags(m, uuids[0]));
      UuidFactsGtids(m, uuids[1..]);
      TagFactsGtids(m, uuids[0], tags);
      FactGtidsConcat(TagFacts(m, uuids[0], tags), UuidFacts(m, uuids[1..]));
    }
  }

  /** The printed text means exactly the set it was printed from. */
  lemma TextRoundTrip(m: IntervalMap)
    requires Printable(m)
    ensures Meaning(TextOf(m)).Some?
    ensures FactGtids(Meaning(TextOf(m)).value) == Gtids(m)
  {
    SortedSpec(Uuids(m));
    var uuids := Sorted(Uuids(m));
    var parts := PartTexts(m, uuids);
    PartsRoundTrip(m, uuids);
    UuidFactsGtids(m, uuids);
    GtidsMember(m);
    if uuids == [] {
      assert TextOf(m) == "" && Split("", ',') == [""] && DropSpace("") == "";
    } else {
      SplitJoin(parts, ',');
    }
    forall g | g in Gtids(m) ensures g.key.uuid in uuids {
      assert g.key in m;
    }
  }

  /** `parse(str(s)) == s`, through the two methods. */
  method ParsePrinted(s: GtidSet) returns (text: string, r: Option<GtidSet>)
    requires s.Valid() && Printable(s.m)
    ensures text == TextOf(s.m)
    ensures r == Some(s)
  {
    text := ToText(s);
    TextRoundTrip(s.m);
    r := Parse(text);
    EqualIffSameGtids(r.value, s);
  }
}
