/** Which texts mean the same GTID set: case, the order and repetition of the comma-separated parts
    and of the intervals under each tag, and cutting one part in two never change what `parse` of
    dbguard/gtid.py returns, and whatever `parse` returns can be printed and parsed back. */
module GtidTextForms {
  import opened Intervals
  import opened GtidSets
  import opened Text
  import opened GtidText

  // ----- letter case

  lemma {:induction false} BeforeDashLower(f: string)
    ensures BeforeDash(Lower(f)) == Lower(BeforeDash(f)) && |BeforeDash(f)| <= |f|
  {
    if f != "" && f[0] != '-' {
      LowerTail(f);
      BeforeDashLower(f[1..]);
      LowerCons(f[0], BeforeDash(f[1..]));
      DashStays(f[0]);
    } else if f != "" {
      LowerTail(f);
      assert Lower("") == "";
    }
  }

  lemma DashStays(c: char)
    ensures LowerChar(c) == '-' <==> c == '-'
  {
  }

  lemma {:induction false} AfterDashLower(f: string)
    ensures AfterDash(Lower(f)) == Lower(AfterDash(f))
  {
    if f != "" {
      LowerTail(f);
      AfterDashLower(f[1..]);
    }
  }

  lemma IntervalOfLower(f: string)
    ensures IntervalOf(Lower(f)) == IntervalOf(f)
  {
    BeforeDashLower(f);
    AfterDashLower(f);
    IntLower(BeforeDash(f));
    IntLower(AfterDash(f));
  }

  lemma LowerTwice(s: string)
    ensures Lower(Lower(s)) == Lower(s)
  {
  }

  ghost predicate LowerOf(a: seq<string>, b: seq<string>) {
    |a| == |b| && forall i :: 0 <= i < |a| ==> a[i] == Lower(b[i])
  }

  lemma {:induction false} FieldFactsLower(uuid: string, tag: string, a: seq<string>, b: seq<string>)
    requires LowerOf(a, b)
    ensures FieldFacts(uuid, tag, a) == FieldFacts(uuid, tag, b)
    decreases |a|
  {
    if a != [] && b[0] != "" {
      LowerTail(b[0]);
      IntervalOfLower(b[0]);
      LowerTwice(b[0]);
      FieldFactsLower(uuid, tag, a[1..], b[1..]);
      FieldFactsLower(uuid, Lower(b[0]), a[1..], b[1..]);
    }
  }

  lemma PartFactsLower(part: string)
    ensures PartFacts(Lower(part)) == PartFacts(part)
  {
    var a, b := Split(Lower(part), ':'), Split(part, ':');
    SplitLower(part, ':');
    LowerTwice(b[0]);
    assert a[0] == Lower(b[0]);
    if NormUuid(b[0]).Some? {
      FieldFactsLower(NormUuid(b[0]).value, "", a[1..], b[1..]);
    }
  }

  lemma {:induction false} PartsFactsLower(a: seq<string>, b: seq<string>)
    requires LowerOf(a, b)
    ensures PartsFacts(a) == PartsFacts(b)
    decreases |a|
  {
    if a != [] {
      DropSpaceLower(b[0]);
      PartFactsLower(DropSpace(b[0]));
      PartsFactsLower(a[1..], b[1..]);
    }
  }

  /** Upper and lower case mean the same. */
  lemma MeaningIgnoresCase(text: string)
    ensures Meaning(Lower(text)) == Meaning(text)
  {
    SplitLower(text, ',');
    PartsFactsLower(Split(Lower(text), ','), Split(text, ','));
  }

  // ----- order, repetition and splitting of parts

  /** What one part contributes: no facts at all when it is blank. */
  function OnePart(part: string): Facts {
    if DropSpace(part) == "" then Some([]) else PartFacts(DropSpace(part))
  }

  lemma {:induction false} PartsUnion(parts: seq<string>)
    ensures PartsFacts(parts).Some? <==> forall p :: p in parts ==> OnePart(p).Some?
    ensures PartsFacts(parts).Some? ==>
      forall g :: g in FactGtids(PartsFacts(parts).value) <==>
        exists p :: p in parts && g in FactGtids(OnePart(p).value)
  {
    if parts != [] {
      PartsUnion(parts[1..]);
      assert forall p :: p in parts <==> p == parts[0] || p in parts[1..];
      if OnePart(parts[0]).Some? && PartsFacts(parts[1..]).Some? {
        var head, rest := OnePart(parts[0]).value, PartsFacts(parts[1..]).value;
        ThenNil(PartsFacts(parts[1..]));
        assert PartsFacts(parts) == Then(head, PartsFacts(parts[1..]));
        FactGtidsConcat(head, rest);
      }
    }
  }

  /** The parts may come in any order and any number of times. */
  lemma MeaningIgnoresPartOrder(s: string, t: string)
    requires forall p :: p in Split(s, ',') <==> p in Split(t, ',')
    ensures Meaning(s).Some? <==> Meaning(t).Some?
    ensures Meaning(s).Some? ==> FactGtids(Meaning(s).value) == FactGtids(Meaning(t).value)
  {
    PartsUnion(Split(s, ','));
    PartsUnion(Split(t, ','));
  }

  /** A comma is union. */
  lemma MeaningOfComma(s: string, t: string)
    ensures Meaning(s + "," + t).Some? <==> Meaning(s).Some? && Meaning(t).Some?
    ensures Meaning(s + "," + t).Some? ==>
      FactGtids(Meaning(s + "," + t).value) ==
      FactGtids(Meaning(s).value) + FactGtids(Meaning(t).value)
  {
    SplitConcat(s, t, ',');
    PartsUnion(Split(s, ','));
    PartsUnion(Split(t, ','));
    PartsUnion(Split(s + "," + t, ','));
  }

  // ----- order, repetition and splitting of the intervals of a part

  /** Refused alike, or the same set. */
  ghost predicate SameMeaning(a: Facts, b: Facts) {
    (a.Some? <==> b.Some?) && (a.Some? ==> FactGtids(a.value) == FactGtids(b.value))
  }

  function Fields(part: string): seq<string> { Split(DropSpace(part), ':') }

  lemma OnePartFields(part: string)
    ensures OnePart(part) ==
      if Fields(part) == [""] then Some([])
      else match NormUuid(Fields(part)[0])
        case None => None
        case Some(uuid) =>
          if FieldFacts(uuid, "", Fields(part)[1..]) == Some([]) then None else FieldFacts(uuid, "", Fields(part)[1..])
  {
    SplitBlank(DropSpace(part));
  }

  lemma SplitBlank(s: string)
    ensures Split(s, ':') == [""] <==> s == ""
  {
    if s != "" && s[0] == ':' {
      assert |Split(s, ':')| > 1;
    }
  }

  predicate IsNumber(field: string) { field != "" && IsDigit(field[0]) }

  /** Fields that are intervals, so that none of them sets the tag. */
  ghost predicate Numeric(fields: seq<string>) {
    forall i :: 0 <= i < |fields| ==> IsNumber(fields[i])
  }

  ghost predicate NamesInterval(fields: seq<string>) {
    exists i :: 0 <= i < |fields| && IsNumber(fields[i])
  }

  /** The tag in force behind the fields. */
  function TagAfter(tag: string, fields: seq<string>): string
    decreases |fields|
  {
    if fields == [] then tag
    else if fields[0] == "" || IsDigit(fields[0][0]) then TagAfter(tag, fields[1..])
    else TagAfter(Lower(fields[0]), fields[1..])
  }

  lemma {:induction false} FieldsConcat(uuid: string, tag: string, f: seq<string>, g: seq<string>)
    ensures FieldFacts(uuid, tag, f + g) ==
      match FieldFacts(uuid, tag, f)
      case Some(facts) => Then(facts, FieldFacts(uuid, TagAfter(tag, f), g))
      case None => None
    decreases |f|
  {
    if f == [] {
      assert f + g == g;
      ThenNil(FieldFacts(uuid, tag, g));
    } else {
      assert (f + g)[1..] == f[1..] + g;
      if IsNumber(f[0]) {
        FieldsConcat(uuid, tag, f[1..], g);
        if IntervalOf(f[0]).Some? && FieldFacts(uuid, tag, f[1..]).Some? {
          ThenConcat([Fact(Key(uuid, tag), IntervalOf(f[0]).value)],
                     FieldFacts(uuid, tag, f[1..]).value, FieldFacts(uuid, TagAfter(tag, f), g));
        }
      } else if f[0] != "" {
        FieldsConcat(uuid, Lower(f[0]), f[1..], g);
      }
    }
  }

  lemma {:induction false} NumericKeepsTag(tag: string, f: seq<string>)
    requires Numeric(f)
    ensures TagAfter(tag, f) == tag
    decreases |f|
  {
    if f != [] {
      assert IsNumber(f[0]);
      NumericKeepsTag(tag, f[1..]);
    }
  }

  /** Accepted fields yield a fact exactly when one of them is an interval. */
  lemma {:induction false} NamedFacts(uuid: string, tag: string, f: seq<string>)
    ensures FieldFacts(uuid, tag, f).Some? ==> (FieldFacts(uuid, tag, f) == Some([]) <==> !NamesInterval(f))
    decreases |f|
  {
    if f != [] && f[0] != "" {
      assert NamesInterval(f) <==> IsNumber(f[0]) || NamesInterval(f[1..]) by {
        if i :| 0 <= i < |f| && IsNumber(f[i]) {
          assert i > 0 ==> f[1..][i - 1] == f[i];
        }
      }
      NamedFacts(uuid, Lower(f[0]), f[1..]);
    }
  }

  ghost predicate FieldHas(uuid: string, tag: string, field: string, g: Gtid) {
    IntervalOf(field).Some? && g in Tagged(Key(uuid, tag), Range(IntervalOf(field).value))
  }

  lemma {:induction false} NumericFacts(uuid: string, tag: string, f: seq<string>)
    requires Numeric(f)
    ensures FieldFacts(uuid, tag, f).Some? <==> forall x :: x in f ==> IntervalOf(x).Some?
    ensures FieldFacts(uuid, tag, f).Some? ==>
      forall g :: g in FactGtids(FieldFacts(uuid, tag, f).value) <==> exists x :: x in f && FieldHas(uuid, tag, x, g)
    decreases |f|
  {
    if f != [] {
      assert IsNumber(f[0]);
      NumericFacts(uuid, tag, f[1..]);
      assert forall x :: x in f <==> x == f[0] || x in f[1..];
      if FieldFacts(uuid, tag, f).Some? {
        FirstFact(uuid, tag, f);
        forall g
          ensures g in FactGtids(FieldFacts(uuid, tag, f).value) <==> exists x :: x in f && FieldHas(uuid, tag, x, g)
        {
          assert g in FactGtids(FieldFacts(uuid, tag, f).value)
            <==> FieldHas(uuid, tag, f[0], g) || g in FactGtids(FieldFacts(uuid, tag, f[1..]).value);
        }
      }
    }
  }

  lemma FirstFact(uuid: string, tag: string, f: seq<string>)
    requires f != [] && IsNumber(f[0]) && FieldFacts(uuid, tag, f).Some?
    ensures FieldFacts(uuid, tag, f[1..]).Some?
    ensures forall g ::
      (g in FactGtids(FieldFacts(uuid, tag, f).value) <==>
       FieldHas(uuid, tag, f[0], g) || g in FactGtids(FieldFacts(uuid, tag, f[1..]).value))
  {
    var head := Fact(Key(uuid, tag), IntervalOf(f[0]).value);
    var rest := FieldFacts(uuid, tag, f[1..]).value;
    assert ([head] + rest)[0] == head && ([head] + rest)[1..] == rest;
  }

  ghost predicate SameElements(f: seq<string>, g: seq<string>) {
    forall x :: x in f <==> x in g
  }

  /** Any permutation has the same elements, and so has a list with repetitions. */
  lemma PermutationSameElements(f: seq<string>, g: seq<string>)
    requires multiset(f) == multiset(g)
    ensures SameElements(f, g)
  {
    forall x ensures x in f <==> x in g {
      assert x in f <==> x in multiset(f);
      assert x in g <==> x in multiset(g);
    }
  }

  /** Under any tag the intervals may come in any order and any number of times. */
  lemma BlockIgnoresOrder(uuid: string, tag: string, f: seq<string>, g: seq<string>)
    requires Numeric(f) && Numeric(g) && SameElements(f, g)
    ensures SameMeaning(FieldFacts(uuid, tag, f), FieldFacts(uuid, tag, g))
  {
    NumericFacts(uuid, tag, f);
    NumericFacts(uuid, tag, g);
    if FieldFacts(uuid, tag, f).Some? {
      forall x
        ensures x in FactGtids(FieldFacts(uuid, tag, f).value) <==> x in FactGtids(FieldFacts(uuid, tag, g).value)
      {
      }
    }
  }

  /** In particular a permutation of a block means what the block means. */
  lemma BlockIgnoresPermutation(uuid: string, tag: string, f: seq<string>, g: seq<string>)
    requires Numeric(f) && multiset(f) == multiset(g)
    ensures SameMeaning(FieldFacts(uuid, tag, f), FieldFacts(uuid, tag, g))
  {
    PermutationSameElements(f, g);
    forall i | 0 <= i < |g| ensures IsNumber(g[i]) {
      assert g[i] in f;
    }
    BlockIgnoresOrder(uuid, tag, f, g);
  }

  lemma ConcatSame(a: Facts, b: Facts, c: Facts, d: Facts)
    requires SameMeaning(a, c) && SameMeaning(b, d)
    ensures SameMeaning(if a.Some? then Then(a.value, b) else None, if c.Some? then Then(c.value, d) else None)
  {
    if a.Some? && b.Some? {
      FactGtidsConcat(a.value, b.value);
      FactGtidsConcat(c.value, d.value);
    }
  }

  /** The same of a block anywhere between other fields, tags included. */
  lemma FieldsIgnoreOrder(uuid: string, tag: string, p: seq<string>, f: seq<string>, g: seq<string>, q: seq<string>)
    requires Numeric(f) && Numeric(g) && SameElements(f, g)
    ensures SameMeaning(FieldFacts(uuid, tag, p + (f + q)), FieldFacts(uuid, tag, p + (g + q)))
  {
    var t := TagAfter(tag, p);
    FieldsConcat(uuid, tag, p, f + q);
    FieldsConcat(uuid, tag, p, g + q);
    FieldsConcat(uuid, t, f, q);
    FieldsConcat(uuid, t, g, q);
    NumericKeepsTag(t, f);
    NumericKeepsTag(t, g);
    BlockIgnoresOrder(uuid, t, f, g);
    ConcatSame(FieldFacts(uuid, t, f), FieldFacts(uuid, t, q), FieldFacts(uuid, t, g), FieldFacts(uuid, t, q));
    ConcatSame(FieldFacts(uuid, tag, p), FieldFacts(uuid, t, f + q),
               FieldFacts(uuid, tag, p), FieldFacts(uuid, t, g + q));
  }

  lemma NamesAcross(p: seq<string>, f: seq<string>)
    ensures NamesInterval(p + f) <==> NamesInterval(p) || NamesInterval(f)
  {
    var all := p + f;
    if i :| 0 <= i < |p| && IsNumber(p[i]) {
      assert all[i] == p[i];
    }
    if i :| 0 <= i < |f| && IsNumber(f[i]) {
      assert all[|p| + i] == f[i];
    }
    if i :| 0 <= i < |all| && IsNumber(all[i]) {
      assert i < |p| ==> all[i] == p[i];
      assert i >= |p| ==> all[i] == f[i - |p|];
    }
  }

  lemma BlockNames(f: seq<string>, g: seq<string>)
    requires Numeric(f) && SameElements(f, g)
    ensures NamesInterval(f) ==> NamesInterval(g)
  {
    if NamesInterval(f) {
      assert IsNumber(f[0]) && f[0] in g;
    }
  }

  /** Reordering or repeating the intervals of one tag block of a part, with whatever whitespace,
      changes nothing: the part is refused alike or means the same set. */
  lemma MeaningIgnoresIntervalOrder(s: string, t: string, u: string, p: seq<string>, f: seq<string>, g: seq<string>,
                                    q: seq<string>)
    requires ',' !in s && ',' !in t
    requires Fields(s) == [u] + (p + (f + q)) && Fields(t) == [u] + (p + (g + q))
    requires Numeric(f) && Numeric(g) && SameElements(f, g)
    ensures SameMeaning(Meaning(s), Meaning(t))
  {
    PartMeaning(s);
    PartMeaning(t);
    OnePartFields(s);
    OnePartFields(t);
    assert Fields(s)[1..] == p + (f + q) && Fields(t)[1..] == p + (g + q);
    SameLength(f, g);
    if NormUuid(u).Some? {
      var uuid := NormUuid(u).value;
      FieldsIgnoreOrder(uuid, "", p, f, g, q);
      NamedFacts(uuid, "", p + (f + q));
      NamedFacts(uuid, "", p + (g + q));
      NamesAcross(p, f + q);
      NamesAcross(p, g + q);
      NamesAcross(f, q);
      NamesAcross(g, q);
      BlockNames(f, g);
      BlockNames(g, f);
    }
  }

  lemma SameLength(f: seq<string>, g: seq<string>)
    requires SameElements(f, g)
    ensures f == [] <==> g == []
  {
    assert f != [] ==> f[0] in g;
    assert g != [] ==> g[0] in f;
  }

  /** A text without a comma is one part. */
  lemma PartMeaning(s: string)
    requires ',' !in s
    ensures Meaning(s) == OnePart(s)
  {
    SplitPlain(s, ',');
    assert [s][1..] == [];
    assert PartsFacts([s][1..]) == Some([]);
    if DropSpace(s) != "" && PartFacts(DropSpace(s)).Some? {
      assert PartFacts(DropSpace(s)).value + [] == PartFacts(DropSpace(s)).value;
    }
  }

  /** The field that repeats a tag, in either case; none for the empty tag. */
  ghost predicate Repeats(again: seq<string>, tag: string) {
    if tag == "" then again == [] else |again| == 1 && Lower(again[0]) == tag
  }

  lemma {:induction false} TagAfterGood(uuid: string, tag: string, f: seq<string>)
    requires FieldFacts(uuid, tag, f).Some? && (tag == "" || IsTag(tag))
    ensures TagAfter(tag, f) == "" || IsTag(TagAfter(tag, f))
    decreases |f|
  {
    if f != [] {
      TagAfterGood(uuid, if IsNumber(f[0]) then tag else Lower(f[0]), f[1..]);
    }
  }

  lemma RepeatedTag(uuid: string, again: seq<string>, tag: string, r: seq<string>)
    requires Repeats(again, tag) && (tag == "" || IsTag(tag))
    ensures FieldFacts(uuid, "", again + r) == FieldFacts(uuid, tag, r)
    ensures NamesInterval(r) ==> NamesInterval(again + r)
  {
    NamesAcross(again, r);
    if tag == "" {
      assert again + r == r;
    } else {
      var field := again[0];
      assert (again + r)[0] == field && (again + r)[1..] == r;
      assert LowerChar(field[0]) == tag[0];
    }
  }

  /** Cutting one part in two, anywhere between two of its intervals, with the uuid and the tag in
      force repeated: the one part is accepted exactly when both are, and then means their union,
      which is what a comma between them means. */
  lemma MeaningIgnoresPartSplit(one: string, first: string, second: string, u: string, v: string,
                                p: seq<string>, again: seq<string>, r: seq<string>)
    requires ',' !in one && ',' !in first && ',' !in second
    requires Fields(one) == [u] + (p + r) && Fields(first) == [u] + p && Fields(second) == [v] + (again + r)
    requires NormUuid(v) == NormUuid(u) && Repeats(again, TagAfter("", p))
    requires NamesInterval(p) && NamesInterval(r)
    ensures SameMeaning(Meaning(one), Meaning(first + "," + second))
  {
    PartMeaning(one);
    PartMeaning(first);
    PartMeaning(second);
    MeaningOfComma(first, second);
    OnePartFields(one);
    OnePartFields(first);
    OnePartFields(second);
    assert Fields(one)[1..] == p + r && Fields(first)[1..] == p && Fields(second)[1..] == again + r;
    if NormUuid(u).Some? {
      SplitFields(NormUuid(u).value, p, again, r);
    }
  }

  lemma SplitFields(uuid: string, p: seq<string>, again: seq<string>, r: seq<string>)
    requires Repeats(again, TagAfter("", p)) && NamesInterval(p) && NamesInterval(r)
    ensures var one, x, y := FieldFacts(uuid, "", p + r), FieldFacts(uuid, "", p), FieldFacts(uuid, "", again + r);
      one != Some([]) && x != Some([]) && (x.Some? ==> y != Some([])) && (one.Some? <==> x.Some? && y.Some?) &&
      (one.Some? ==> FactGtids(one.value) == FactGtids(x.value) + FactGtids(y.value))
  {
    var tag := TagAfter("", p);
    FieldsConcat(uuid, "", p, r);
    NamedFacts(uuid, "", p);
    NamesAcross(p, r);
    NamedFacts(uuid, "", p + r);
    var x := FieldFacts(uuid, "", p);
    if x.Some? {
      TagAfterGood(uuid, "", p);
      RepeatedTag(uuid, again, tag, r);
      NamedFacts(uuid, "", again + r);
      if FieldFacts(uuid, tag, r).Some? {
        FactGtidsConcat(x.value, FieldFacts(uuid, tag, r).value);
      }
    }
  }

  // ----- whatever parse returns can be printed

  ghost predicate HexText(s: string) {
    forall i :: 0 <= i < |s| ==> IsHex(s[i])
  }

  lemma HexGroup(s: string, rest: string)
    requires HexText(s)
    ensures EatHex(s + rest, |s|) == Some(rest)
  {
    EatHexSpec(s + rest, |s|);
    assert (s + rest)[|s|..] == rest;
  }

  lemma DashedGroup(s: string, rest: string, groups: seq<nat>)
    requires HexText(s) && |groups| > 1 && groups[0] == |s|
    ensures EatGroups(s + ("-" + rest), groups) == EatGroups(rest, groups[1..])
  {
    HexGroup(s, "-" + rest);
    assert ("-" + rest)[1..] == rest;
  }

  lemma LastGroup(s: string)
    requires HexText(s)
    ensures EatGroups(s, [|s|]) == Some("")
  {
    HexGroup(s, "");
    assert s + "" == s && [|s|][1..] == [];
  }

  lemma DashedGroups(a: string, b: string, c: string, e: string, f: string)
    requires |a| == 8 && |b| == 4 && |c| == 4 && |e| == 4 && |f| == 12
    requires HexText(a) && HexText(b) && HexText(c) && HexText(e) && HexText(f)
    ensures IsUuid(a + ("-" + (b + ("-" + (c + ("-" + (e + ("-" + f))))))))
  {
    DashedGroup(a, b + ("-" + (c + ("-" + (e + ("-" + f))))), UUID_GROUPS);
    assert UUID_GROUPS[1..] == [4, 4, 4, 12];
    DashedGroup(b, c + ("-" + (e + ("-" + f))), [4, 4, 4, 12]);
    assert [4, 4, 4, 12][1..] == [4, 4, 12];
    DashedGroup(c, e + ("-" + f), [4, 4, 12]);
    assert [4, 4, 12][1..] == [4, 12];
    DashedGroup(e, f, [4, 12]);
    assert [4, 12][1..] == [12];
    LastGroup(f);
  }

  lemma Reassociate(a: string, b: string, c: string, e: string, f: string)
    ensures a + "-" + b + "-" + c + "-" + e + "-" + f
         == a + ("-" + (b + ("-" + (c + ("-" + (e + ("-" + f)))))))
  {
    Assoc(e, "-", f);
    Assoc(a + "-" + b + "-" + c + "-", e, "-" + f);
    Assoc(a + "-" + b + "-" + c, "-", e + ("-" + f));
    var r := e + ("-" + f);
    Assoc(a + "-" + b + "-", c, "-" + r);
    Assoc(a + "-" + b, "-", c + ("-" + r));
    var q := c + ("-" + r);
    Assoc(a + "-", b, "-" + q);
    Assoc(a, "-", b + ("-" + q));
    Assoc(a + "-" + b + "-" + c + "-" + e, "-", f);
  }

  function Dashed(u: string): string
    requires |u| == 32
  {
    u[..8] + "-" + u[8..12] + "-" + u[12..16] + "-" + u[16..20] + "-" + u[20..]
  }

  lemma DashedIsUuid(u: string)
    requires |u| == 32 && HexText(u)
    ensures IsUuid(Dashed(u))
  {
    DashedGroups(u[..8], u[8..12], u[12..16], u[16..20], u[20..]);
    Reassociate(u[..8], u[8..12], u[12..16], u[16..20], u[20..]);
  }

  lemma DashedIsLower(u: string)
    requires |u| == 32 && HexText(u)
    ensures Lower(Dashed(u)) == Dashed(u) && '-' in Dashed(u)
  {
    assert Dashed(u)[8] == '-';
    LowerIsLower(Dashed(u));
  }

  /** Normalising a uuid twice changes nothing. */
  lemma NormUuidIdempotent(text: string)
    requires NormUuid(text).Some?
    ensures NormUuid(NormUuid(text).value) == NormUuid(text)
  {
    var u := Lower(text);
    LowerTwice(text);
    if '-' !in u {
      UuidShape(u);
      assert forall i :: 0 <= i < 32 ==> u[i] in u;
      DashedIsUuid(u);
      DashedIsLower(u);
    }
  }

  predicate FactPrintable(f: Fact) {
    NormUuid(f.key.uuid) == Some(f.key.uuid) && (f.key.tag == "" || IsTag(f.key.tag))
    && 1 <= f.iv.lo <= f.iv.hi <= MAX_GNO
  }

  lemma {:induction false} FieldFactsPrintable(uuid: string, tag: string, fields: seq<string>)
    requires NormUuid(uuid) == Some(uuid) && (tag == "" || IsTag(tag))
    ensures FieldFacts(uuid, tag, fields).Some? ==>
      forall i :: 0 <= i < |FieldFacts(uuid, tag, fields).value| ==>
        FactPrintable(FieldFacts(uuid, tag, fields).value[i])
    decreases |fields|
  {
    hide NormUuid, Lower, IsTag;
    if fields != [] && fields[0] != "" {
      if IsDigit(fields[0][0]) {
        FieldFactsPrintable(uuid, tag, fields[1..]);
      } else if IsTag(Lower(fields[0])) {
        FieldFactsPrintable(uuid, Lower(fields[0]), fields[1..]);
      }
    }
  }

  lemma {:induction false} PartsFactsPrintable(parts: seq<string>)
    ensures PartsFacts(parts).Some? ==>
      forall i :: 0 <= i < |PartsFacts(parts).value| ==> FactPrintable(PartsFacts(parts).value[i])
  {
    if parts != [] {
      PartsFactsPrintable(parts[1..]);
      var part := DropSpace(parts[0]);
      if part != "" {
        var fields := Split(part, ':');
        if NormUuid(fields[0]).Some? {
          NormUuidIdempotent(fields[0]);
          FieldFactsPrintable(NormUuid(fields[0]).value, "", fields[1..]);
        }
      }
    }
  }

  ghost predicate GtidPrintable(g: Gtid) {
    NormUuid(g.key.uuid) == Some(g.key.uuid) && (g.key.tag == "" || IsTag(g.key.tag))
    && 1 <= g.n <= MAX_GNO
  }

  lemma {:induction false} FactGtidsPrintable(facts: seq<Fact>)
    requires forall i :: 0 <= i < |facts| ==> FactPrintable(facts[i])
    ensures forall g :: g in FactGtids(facts) ==> GtidPrintable(g)
  {
    if facts != [] {
      FactGtidsPrintable(facts[1..]);
      assert FactPrintable(facts[0]);
    }
  }

  lemma BoundsFromGtids(s: GtidSet, k: Key)
    requires s.Valid() && k in s.m && forall g :: g in Gtids(s.m) ==> GtidPrintable(g)
    ensures InBounds(s.m[k]) && forall i :: 0 <= i < |s.m[k]| ==> Gtid(k, s.m[k][i].lo) in Gtids(s.m)
  {
    hide NormUuid, IsTag;
    GtidsMember(s.m);
    var ivs := s.m[k];
    CanonicalIsDisjoint(ivs);
    forall i | 0 <= i < |ivs|
      ensures 1 <= ivs[i].lo <= ivs[i].hi <= MAX_GNO && Gtid(k, ivs[i].lo) in Gtids(s.m)
    {
      PointsMembers(ivs);
      assert ivs[i].Valid() && ivs[i].Has(ivs[i].lo) && ivs[i].Has(ivs[i].hi);
      assert Gtid(k, ivs[i].lo) in Gtids(s.m) && Gtid(k, ivs[i].hi) in Gtids(s.m);
    }
  }

  lemma PrintableFromGtids(s: GtidSet)
    requires s.Valid() && forall g :: g in Gtids(s.m) ==> GtidPrintable(g)
    ensures Printable(s.m)
  {
    hide NormUuid, IsTag, Gtids, InBounds;
    forall k | k in s.m
      ensures s.m[k] != [] && InBounds(s.m[k]) && NormUuid(k.uuid) == Some(k.uuid) && (k.tag == "" || IsTag(k.tag))
    {
      BoundsFromGtids(s, k);
      assert GtidPrintable(Gtid(k, s.m[k][0].lo));
    }
  }

  /** For any text `parse` accepts, printing the result and parsing it again gives it back. */
  method Reparse(text: string) returns (r: Option<GtidSet>, printed: string, again: Option<GtidSet>)
    ensures r.Some? <==> Meaning(text).Some?
    ensures r.Some? ==> r.value.Valid() && Printable(r.value.m)
    ensures r.Some? ==> printed == TextOf(r.value.m) && again == r
  {
    r := Parse(text);
    printed, again := "", None;
    if r.Some? {
      PartsFactsPrintable(Split(text, ','));
      FactGtidsPrintable(Meaning(text).value);
      PrintableFromGtids(r.value);
      printed, again := ParsePrinted(r.value);
    }
  }
}
