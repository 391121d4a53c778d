/** What a text may be written with, the characters and the numbers written out: whitespace of any
    kind between and inside the parts (a server prints its set over several lines), the forms of a
    uuid, of a tag and of an interval, and nothing else. */
module GtidGrammar {
  import opened Intervals
  import opened GtidSets
  import opened Text
  import opened GtidText
  import opened GtidTextForms

  // ----- whitespace

  /** The ASCII characters `str.split` drops. */
  predicate White(c: char) {
    c == ' ' || c == '\t' || c == '\n' || c == '\r' || c as int == 11 || c as int == 12 || 28 <= c as int <= 31
  }

  lemma {:induction false} DropSpaceConcat(s: string, t: string)
    ensures DropSpace(s + t) == DropSpace(s) + DropSpace(t)
  {
    if s == "" {
      assert s + t == t;
    } else {
      assert (s + t)[1..] == s[1..] + t;
      DropSpaceConcat(s[1..], t);
    }
  }

  lemma DropSpaceInsert(a: string, c: char, b: string)
    requires White(c)
    ensures DropSpace(a + [c] + b) == DropSpace(a + b)
  {
    assert [c][1..] == "" && DropSpace([c]) == "";
    DropSpaceConcat(a + [c], b);
    DropSpaceConcat(a, [c]);
    DropSpaceConcat(a, b);
  }

  ghost predicate SameDropped(s: seq<string>, t: seq<string>) {
    |s| == |t| && forall i :: 0 <= i < |s| ==> DropSpace(s[i]) == DropSpace(t[i])
  }

  lemma {:induction false} SplitInsert(a: string, c: char, b: string)
    requires White(c)
    ensures SameDropped(Split(a + [c] + b, ','), Split(a + b, ','))
  {
    var s, t := a + [c] + b, a + b;
    hide Split, DropSpace, SameDropped;
    if a == "" {
      assert s == [c] + b && t == b;
      SplitCons(c, b);
      FirstDropped(c, Split(b, ','));
    } else {
      SplitInsert(a[1..], c, b);
      assert s == [a[0]] + (a[1..] + [c] + b) && t == [a[0]] + (a[1..] + b);
      SplitCons(a[0], a[1..] + [c] + b);
      SplitCons(a[0], a[1..] + b);
      PrependDropped(a[0], Split(a[1..] + [c] + b, ','), Split(a[1..] + b, ','));
    }
  }

  lemma SplitCons(c: char, s: string)
    ensures var rest := Split(s, ',');
      Split([c] + s, ',') == if c == ',' then [""] + rest else [[c] + rest[0]] + rest[1..]
  {
    assert ([c] + s)[1..] == s;
  }

  lemma FirstDropped(c: char, parts: seq<string>)
    requires White(c) && parts != []
    ensures SameDropped([[c] + parts[0]] + parts[1..], parts)
  {
    DropSpaceInsert("", c, parts[0]);
    assert "" + [c] + parts[0] == [c] + parts[0] && "" + parts[0] == parts[0];
  }

  lemma PrependDropped(c: char, s: seq<string>, t: seq<string>)
    requires SameDropped(s, t) && s != []
    ensures SameDropped([""] + s, [""] + t) && SameDropped([[c] + s[0]] + s[1..], [[c] + t[0]] + t[1..])
  {
    hide DropSpace;
    DropSpaceConcat([c], s[0]);
    DropSpaceConcat([c], t[0]);
  }

  lemma {:induction false} DroppedFacts(s: seq<string>, t: seq<string>)
    requires SameDropped(s, t)
    ensures PartsFacts(s) == PartsFacts(t)
  {
    if s != [] {
      assert DropSpace(s[0]) == DropSpace(t[0]);
      assert forall i :: 0 <= i < |s| - 1 ==> s[1..][i] == s[i + 1] && t[1..][i] == t[i + 1];
      DroppedFacts(s[1..], t[1..]);
    }
  }

  /** Whitespace anywhere changes nothing. */
  lemma MeaningIgnoresWhitespace(a: string, c: char, b: string)
    requires c == ' ' || c == '\t' || c == '\n' || c == '\r' || c as int == 11 || c as int == 12 || 28 <= c as int <= 31
    ensures Meaning(a + [c] + b) == Meaning(a + b)
  {
    SplitInsert(a, c, b);
    DroppedFacts(Split(a + [c] + b, ','), Split(a + b, ','));
  }

  /** A set over two lines, as a server prints it. */
  lemma MeaningOfTwoLines(a: string, b: string)
    ensures Meaning(a + ",\n" + b) == Meaning(a + "," + b)
  {
    MeaningIgnoresWhitespace(a + ",", '\n', b);
    assert a + ",\n" + b == (a + ",") + ['\n'] + b;
  }

  // ----- nothing else

  predicate Letter(c: char) { 'a' <= c <= 'z' || 'A' <= c <= 'Z' }

  /** What an accepted text is written with. */
  predicate Writing(c: char) {
    Letter(c) || '0' <= c <= '9' || c == '_' || c == '+' || c == '-' || c == ':' || c == ','
  }

  ghost predicate Written(s: string) { forall c :: c in s ==> Writing(c) }

  lemma {:induction false} DigitsWritten(s: string)
    requires Digits(s).Some?
    ensures Written(s)
  {
    if |s| > 1 {
      var n := if s[|s| - 2] == '_' then |s| - 2 else |s| - 1;
      assert Digits(s[..n]).Some?;
      hide Digits;
      DigitsWritten(s[..n]);
      assert s == s[..n] + s[n..];
      assert forall c :: c in s[n..] ==> c == '_' || IsDigit(c);
    }
  }

  lemma IntWritten(s: string)
    requires Int(s).Some?
    ensures Written(s)
  {
    DigitsWritten(Unsigned(s));
    assert s == Unsigned(s) || s == [s[0]] + Unsigned(s);
  }

  lemma {:induction false} AroundDash(f: string)
    ensures |BeforeDash(f)| <= |f|
    ensures f == if |BeforeDash(f)| < |f| then BeforeDash(f) + "-" + AfterDash(f) else BeforeDash(f)
  {
    if f != "" {
      assert f == [f[0]] + f[1..];
      if f[0] != '-' {
        AroundDash(f[1..]);
      }
    }
  }

  lemma IntervalWritten(f: string)
    requires IntervalOf(f).Some?
    ensures Written(f)
  {
    AroundDash(f);
    IntWritten(BeforeDash(f));
    if |BeforeDash(f)| < |f| {
      IntWritten(AfterDash(f));
    }
  }

  lemma LowerWritten(s: string)
    requires forall c :: c in Lower(s) ==> 'a' <= c <= 'z' || '0' <= c <= '9' || c == '_' || c == '-'
    ensures Written(s)
  {
    forall c | c in s ensures Writing(c) {
      var i :| 0 <= i < |s| && s[i] == c;
      assert Lower(s)[i] in Lower(s);
    }
  }

  lemma TagWritten(f: string)
    requires IsTag(Lower(f))
    ensures Written(f)
  {
    forall c | c in Lower(f) ensures 'a' <= c <= 'z' || '0' <= c <= '9' || c == '_' {
      var i :| 0 <= i < |Lower(f)| && Lower(f)[i] == c;
    }
    LowerWritten(f);
  }

  lemma {:induction false} FieldsWritten(uuid: string, tag: string, fields: seq<string>)
    requires FieldFacts(uuid, tag, fields).Some?
    ensures forall f :: f in fields ==> Written(f)
    decreases |fields|
  {
    hide IntervalOf, IsTag, Lower, Written;
    if fields != [] {
      var f := fields[0];
      if IsDigit(f[0]) {
        IntervalWritten(f);
        FieldsWritten(uuid, tag, fields[1..]);
      } else {
        TagWritten(f);
        FieldsWritten(uuid, Lower(f), fields[1..]);
      }
      assert forall g :: g in fields <==> g == f || g in fields[1..];
    }
  }

  ghost predicate InSome(c: char, parts: seq<string>) { exists i :: 0 <= i < |parts| && c in parts[i] }

  lemma {:induction false} SplitChars(s: string, sep: char, c: char)
    requires c in s && c != sep
    ensures InSome(c, Split(s, sep))
  {
    hide InSome;
    var rest := Split(s[1..], sep);
    if c in s[1..] {
      SplitChars(s[1..], sep, c);
    }
    if s[0] == sep {
      InLater(c, "", rest);
    } else {
      InFirst(c, s[0], rest);
    }
  }

  lemma InLater(c: char, p: string, rest: seq<string>)
    requires InSome(c, rest)
    ensures InSome(c, [p] + rest)
  {
    var i :| 0 <= i < |rest| && c in rest[i];
    assert ([p] + rest)[i + 1] == rest[i];
  }

  lemma InFirst(c: char, d: char, rest: seq<string>)
    requires rest != [] && (c == d || InSome(c, rest))
    ensures InSome(c, [[d] + rest[0]] + rest[1..])
  {
    var parts := [[d] + rest[0]] + rest[1..];
    if c == d {
      assert parts[0][0] == d && c in parts[0];
    } else {
      var i :| 0 <= i < |rest| && c in rest[i];
      assert parts[i] == if i == 0 then [d] + rest[0] else rest[i];
    }
  }

  lemma PartWritten(part: string)
    requires PartFacts(part).Some?
    ensures Written(part)
  {
    var fields := Split(part, ':');
    UuidShape(Lower(fields[0]));
    LowerWritten(fields[0]);
    FieldsWritten(NormUuid(fields[0]).value, "", fields[1..]);
    forall c | c in part ensures Writing(c) {
      if c != ':' {
        SplitChars(part, ':', c);
        var i :| 0 <= i < |fields| && c in fields[i];
        assert i > 0 ==> fields[i] == fields[1..][i - 1] && fields[i] in fields[1..];
      }
    }
  }

  lemma {:induction false} DropSpaceKeeps(s: string, c: char)
    requires c in s && !White(c)
    ensures c in DropSpace(s)
  {
    if s[0] != c {
      DropSpaceKeeps(s[1..], c);
    }
  }

  /** Of every character that is no whitespace the accepted ones are letters, digits and `_+-:,`. */
  lemma AcceptedCharacters(text: string, c: char)
    requires Meaning(text).Some? && c in text
    ensures 'a' <= c <= 'z' || 'A' <= c <= 'Z' || '0' <= c <= '9' || c in "_+-:,"
            || c == ' ' || c == '\t' || c == '\n' || c == '\r' || c as int == 11 || c as int == 12
            || 28 <= c as int <= 31
  {
    if !White(c) && c != ',' {
      SplitChars(text, ',', c);
      WrittenParts(Split(text, ','), c);
    }
  }

  lemma WrittenParts(parts: seq<string>, c: char)
    requires PartsFacts(parts).Some? && InSome(c, parts) && !White(c)
    ensures Writing(c)
  {
    hide PartsFacts, PartFacts, DropSpace, FactGtids, White;
    var i :| 0 <= i < |parts| && c in parts[i];
    PartsUnion(parts);
    assert parts[i] in parts && OnePart(parts[i]).Some?;
    DropSpaceKeeps(parts[i], c);
    PartWritten(DropSpace(parts[i]));
  }

  // ----- intervals

  /** `a-b` is an interval exactly for 1 <= a <= b <= 2^63 - 1, and `a` is the interval of one. */
  lemma IntervalForms(a: nat, b: nat)
    ensures IntervalOf(Str(a) + "-" + Str(b)) ==
      if 1 <= a <= b <= 9223372036854775807 then Some(Interval(a, b)) else None
    ensures IntervalOf(Str(a)) == if 1 <= a <= 9223372036854775807 then Some(Interval(a, a)) else None
  {
    IntOfStr(a);
    IntOfStr(b);
    TwoNumbers(a, b);
    OneNumber(a);
  }

  lemma DigitsLast(s: string)
    requires s != ""
    ensures Digits(s) ==
      if !IsDigit(s[|s| - 1]) then None
      else if |s| == 1 then Some(DigitValue(s[0]))
      else Grown(Digits(if s[|s| - 2] == '_' then s[..|s| - 2] else s[..|s| - 1]), s[|s| - 1])
  {
  }

  /** One more digit. */
  function Grown(v: Option<int>, c: char): Option<int> {
    if v.Some? then Some(10 * v.value + (c as int - 48)) else None
  }

  lemma DigitsEnd(x: string, c: char)
    requires x != ""
    ensures Digits(x + [c]) ==
      if '0' <= c <= '9' then Grown(Digits(if x[|x| - 1] == '_' then x[..|x| - 1] else x), c) else None
  {
    DigitsLast(x + [c]);
    hide Digits, Grown;
    var s := x + [c];
    assert s[|s| - 1] == c && s[|s| - 2] == x[|x| - 1] && s[..|s| - 1] == x && s[..|s| - 2] == x[..|x| - 1];
  }

  lemma Underscored(x: string, c: char)
    ensures Digits(x + "_") == None
    ensures Digits(x + "_" + [c]) == if '0' <= c <= '9' then Grown(Digits(x), c) else None
  {
    DigitsLast(x + "_");
    DigitsEnd(x + "_", c);
    hide Digits, Grown;
    assert (x + "_")[..|x|] == x;
  }

  lemma OneDigit(c: char)
    ensures Digits("") == None
    ensures '0' <= c <= '9' ==> Digits([c]) == Some(c as int - 48)
  {
    DigitsLast([c]);
  }

  /** A number is digits with single underscores between them: one more digit multiplies by ten. */
  lemma NumberForms(x: string, c: char)
    requires '0' <= c <= '9'
    ensures Digits([c]) == Some(c as int - 48) && Digits("") == None
    ensures Digits(x).Some? ==>
      Digits(x + [c]) == Digits(x + "_" + [c]) == Some(10 * Digits(x).value + (c as int - 48))
    ensures Digits("_" + [c]) == None && Digits(x + "_") == None && Digits(x + "_" + "_" + [c]) == None
  {
    hide Digits;
    OneDigit(c);
    if Digits(x).Some? {
      DigitsBegin(x);
      DigitsEnd(x, c);
    }
    Underscored("", c);
    assert "" + "_" == "_";
    Underscored(x, c);
    Underscored(x + "_", c);
  }

  lemma {:induction false} DigitsBegin(x: string)
    requires Digits(x).Some?
    ensures x != "" && IsDigit(x[0]) && IsDigit(x[|x| - 1])
    decreases |x|
  {
    if |x| > 1 {
      var rest := if x[|x| - 2] == '_' then x[..|x| - 2] else x[..|x| - 1];
      assert Digits(rest).Some?;
      hide Digits;
      DigitsBegin(rest);
    }
  }

  /** At most one sign stands in front. */
  lemma SignForms(x: string)
    requires Digits(x).Some?
    ensures Int(x) == Digits(x) && Int("+" + x) == Digits(x) && Int("-" + x) == Some(-Digits(x).value)
  {
    hide Digits;
    DigitsBegin(x);
    assert ("+" + x)[1..] == x && ("-" + x)[1..] == x;
  }

  /** A sign in front of the upper bound: a plus changes nothing, and no interval ends below zero. */
  lemma SignedBounds(a: nat, b: nat)
    ensures IntervalOf(Str(a) + "-" + ("+" + Str(b))) == IntervalOf(Str(a) + "-" + Str(b))
    ensures IntervalOf(Str(a) + "-" + ("-" + Str(b))) == None
  {
    IntOfStr(a);
    IntOfStr(b);
    SignForms(Str(b));
    TwoNumbers(a, b);
    SignedBound(a, "+" + Str(b));
    SignedBound(a, "-" + Str(b));
    hide Digits, Int, Str, BeforeDash, AfterDash;
  }

  lemma SignedBound(a: nat, hi: string)
    ensures BeforeDash(Str(a) + "-" + hi) == Str(a) && AfterDash(Str(a) + "-" + hi) == hi
  {
    AfterDashIs(Str(a), hi);
    BeforeDashStops(Str(a), "-" + hi);
    Assoc(Str(a), "-", hi);
  }

  // ----- tags

  /** A field that starts with no digit sets the tag, in lower case, exactly when it is a word of at
      most 32 letters, digits and underscores that starts with a letter or an underscore. */
  lemma TagForms(uuid: string, prev: string, f: string, rest: seq<string>)
    requires f != "" && !('0' <= f[0] <= '9')
    ensures FieldFacts(uuid, prev, [f] + rest) ==
      if |f| <= 32 && (forall i :: 0 <= i < |f| ==> Letter(f[i]) || f[i] == '_' || '0' <= f[i] <= '9')
      then FieldFacts(uuid, Lower(f), rest) else None
  {
    assert ([f] + rest)[1..] == rest;
    var t := Lower(f);
    forall i | 0 <= i < |f|
      ensures TagStart(t[i]) || IsDigit(t[i]) <==> Letter(f[i]) || f[i] == '_' || '0' <= f[i] <= '9'
      ensures !IsDigit(f[i]) ==> (TagStart(t[i]) <==> Letter(f[i]) || f[i] == '_')
    {
      LowerOne(f[i]);
    }
  }

  lemma LowerOne(c: char)
    ensures TagStart(LowerChar(c)) <==> Letter(c) || c == '_'
  {
  }

  // ----- uuids

  ghost predicate HexWord(s: string, n: nat) {
    |s| == n && forall i :: 0 <= i < n ==> '0' <= s[i] <= '9' || 'a' <= s[i] <= 'f'
  }

  predicate DashOrNot(d: string) { d == "" || d == "-" }

  /** A uuid cut into its groups and what stands after each but the last. */
  datatype Groups = Groups(a: string, x: string, b: string, y: string, c: string, z: string, d: string, w: string,
                           e: string)

  /** 8, 4, 4, 4 and 12 hex digits, with or without a dash in between. */
  ghost predicate Regular(g: Groups) {
    HexWord(g.a, 8) && HexWord(g.b, 4) && HexWord(g.c, 4) && HexWord(g.d, 4) && HexWord(g.e, 12) &&
    DashOrNot(g.x) && DashOrNot(g.y) && DashOrNot(g.z) && DashOrNot(g.w)
  }

  function Tail3(g: Groups): string { g.d + (g.w + g.e) }

  function Tail2(g: Groups): string { g.c + (g.z + Tail3(g)) }

  function Tail1(g: Groups): string { g.b + (g.y + Tail2(g)) }

  function Whole(g: Groups): string { g.a + (g.x + Tail1(g)) }

  lemma OneGroup(s: string, d: string, rest: string, groups: seq<nat>)
    requires HexWord(s, |s|) && |groups| > 1 && groups[0] == |s| && DashOrNot(d) && rest != "" && rest[0] != '-'
    ensures EatGroups(s + (d + rest), groups) == EatGroups(rest, groups[1..])
  {
    HexGroup(s, d + rest);
    assert d == "-" ==> (d + rest)[1..] == rest;
    assert d == "" ==> d + rest == rest;
  }

  lemma RegularIsUuid(g: Groups)
    requires Regular(g)
    ensures IsUuid(Whole(g))
  {
    hide EatGroups;
    OneGroup(g.a, g.x, Tail1(g), UUID_GROUPS);
    assert UUID_GROUPS[1..] == [4, 4, 4, 12];
    OneGroup(g.b, g.y, Tail2(g), [4, 4, 4, 12]);
    assert [4, 4, 4, 12][1..] == [4, 4, 12];
    OneGroup(g.c, g.z, Tail3(g), [4, 4, 12]);
    assert [4, 4, 12][1..] == [4, 12];
    OneGroup(g.d, g.w, g.e, [4, 12]);
    assert [4, 12][1..] == [12];
    LastGroup(g.e);
  }

  lemma FirstGroup(s: string, groups: seq<nat>) returns (h: string, d: string, rest: string)
    requires |groups| > 1 && EatGroups(s, groups) == Some("")
    ensures HexWord(h, groups[0]) && DashOrNot(d) && s == h + (d + rest) && EatGroups(rest, groups[1..]) == Some("")
  {
    EatHexSpec(s, groups[0]);
    h := s[..groups[0]];
    var after := s[groups[0]..];
    rest := EatDash(after);
    d := if |rest| < |after| then "-" else "";
    assert after == d + rest && s == h + after;
  }

  lemma UuidIsRegular(u: string) returns (g: Groups)
    requires IsUuid(u)
    ensures Regular(g) && Whole(g) == u
  {
    hide EatGroups;
    var a, x, t1 := FirstGroup(u, UUID_GROUPS);
    assert UUID_GROUPS[1..] == [4, 4, 4, 12];
    var b, y, t2 := FirstGroup(t1, [4, 4, 4, 12]);
    assert [4, 4, 4, 12][1..] == [4, 4, 12];
    var c, z, t3 := FirstGroup(t2, [4, 4, 12]);
    assert [4, 4, 12][1..] == [4, 12];
    var d, w, e := FirstGroup(t3, [4, 12]);
    assert [4, 12][1..] == [12];
    LastWord(e);
    g := Groups(a, x, b, y, c, z, d, w, e);
  }

  lemma LastWord(s: string)
    requires EatGroups(s, [12]) == Some("")
    ensures HexWord(s, 12)
  {
    EatHexSpec(s, 12);
    assert [12][1..] == [];
  }

  /** A uuid is accepted exactly in these forms, in either case; without any dash it gets its four. */
  lemma UuidForms(text: string)
    ensures NormUuid(text).Some? <==> exists g :: Regular(g) && Whole(g) == Lower(text)
    ensures forall g :: Regular(g) && Whole(g) == Lower(text) ==>
      NormUuid(text).value ==
        if g.x == g.y == g.z == g.w == "" then g.a + "-" + g.b + "-" + g.c + "-" + g.d + "-" + g.e else Lower(text)
  {
    if NormUuid(text).Some? {
      var g := UuidIsRegular(Lower(text));
    }
    forall g | Regular(g) && Whole(g) == Lower(text)
      ensures NormUuid(text) == Some(if g.x == g.y == g.z == g.w == ""
        then g.a + "-" + g.b + "-" + g.c + "-" + g.d + "-" + g.e else Lower(text))
    {
      RegularIsUuid(g);
      RegularForm(g);
    }
  }

  lemma RegularForm(g: Groups)
    requires Regular(g)
    ensures var u := Whole(g);
      if g.x == g.y == g.z == g.w == ""
      then '-' !in u && |u| == 32 && u[..8] == g.a && u[8..12] == g.b && u[12..16] == g.c && u[16..20] == g.d &&
           u[20..] == g.e
      else '-' in u
  {
    if g.x == g.y == g.z == g.w == "" {
      Undashed(g);
    } else {
      WithDash(g);
    }
  }

  lemma WithDash(g: Groups)
    requires Regular(g) && !(g.x == g.y == g.z == g.w == "")
    ensures '-' in Whole(g)
  {
    hide HexWord;
    assert "-"[0] == '-';
    assert g.w == "-" ==> '-' in g.w + g.e && '-' in Tail3(g);
    assert g.z == "-" || '-' in Tail3(g) ==> '-' in g.z + Tail3(g) && '-' in Tail2(g);
    assert g.y == "-" || '-' in Tail2(g) ==> '-' in g.y + Tail2(g) && '-' in Tail1(g);
    assert g.x == "-" || '-' in Tail1(g) ==> '-' in g.x + Tail1(g) && '-' in Whole(g);
  }

  lemma Undashed(g: Groups)
    requires Regular(g) && g.x == g.y == g.z == g.w == ""
    ensures var u := Whole(g);
      '-' !in u && |u| == 32 && u[..8] == g.a && u[8..12] == g.b && u[12..16] == g.c && u[16..20] == g.d &&
      u[20..] == g.e
  {
    NoDash(g.a, 8);
    NoDash(g.b, 4);
    NoDash(g.c, 4);
    NoDash(g.d, 4);
    NoDash(g.e, 12);
    hide HexWord;
    NothingBetween(Tail1(g));
    NothingBetween(Tail2(g));
    NothingBetween(Tail3(g));
    NothingBetween(g.e);
    InFront(Whole(g), 0, g.a, Tail1(g));
    InFront(Whole(g), 8, g.b, Tail2(g));
    InFront(Whole(g), 12, g.c, Tail3(g));
    InFront(Whole(g), 16, g.d, g.e);
  }

  lemma NothingBetween(t: string)
    ensures "" + t == t
  {
  }

  lemma InFront(u: string, i: nat, h: string, t: string)
    requires i <= |u| && u[i..] == h + t
    ensures |u| == i + |h| + |t| && u[i..i + |h|] == h && u[i + |h|..] == t
    ensures '-' in u[i..] <==> '-' in h || '-' in t
  {
    assert u[i..][..|h|] == h && u[i..][|h|..] == t;
  }

  lemma NoDash(s: string, n: nat)
    requires HexWord(s, n)
    ensures |s| == n && '-' !in s
  {
  }
}
