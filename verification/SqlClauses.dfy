/** What an ALTER text is made of, and how it is therefore split: characters, quoted strings with doubled
    quotes and backslash escapes, and parenthesised groups, nested to any depth. The commas that cut
    are those between the items of the outermost list. */
module SqlClauses {
  import opened Intervals
  import opened Text
  import opened SqlSplit

  /** A step inside a quoted string. */
  datatype Bit = Plain(c: char) | Twice | Escaped(c: char)

  datatype Item = Ch(c: char) | Str(q: char, bits: seq<Bit>) | Group(items: seq<Item>)

  function Bits(q: char, bits: seq<Bit>): string {
    if bits == [] then ""
    else
      (match bits[0]
       case Plain(c) => [c]
       case Twice => [q, q]
       case Escaped(c) => ['\\', c]) + Bits(q, bits[1..])
  }

  /** The text of the items. */
  function Written(items: seq<Item>): string {
    if items == [] then ""
    else
      (match items[0]
       case Ch(c) => [c]
       case Str(q, bits) => [q] + (Bits(q, bits) + [q])
       case Group(inner) => "(" + (Written(inner) + ")")) + Written(items[1..])
  }

  /** Inside quotes a plain character is neither the quote nor, but for backticks, a backslash, and a
      backslash escapes anything, but for backticks. */
  predicate BitOk(q: char, b: Bit) {
    match b
    case Plain(c) => c != q && (c != '\\' || q == '`')
    case Twice => true
    case Escaped(_) => q != '`'
  }

  /** A string is not followed by one in the same quotes, which would read as a doubled quote. */
  predicate Apart(a: Item, b: Item) { !(a.Str? && b.Str? && a.q == b.q) }

  ghost predicate Proper(items: seq<Item>) {
    items == [] ||
    ((match items[0]
      case Ch(c) => c != '\'' && c != '"' && c != '`' && c != '(' && c != ')'
      case Str(q, bits) => (q == '\'' || q == '"' || q == '`') && forall i :: 0 <= i < |bits| ==> BitOk(q, bits[i])
      case Group(inner) => Proper(inner)) &&
     (|items| > 1 ==> Apart(items[0], items[1])) && Proper(items[1..]))
  }

  /** The items between the commas of this list; commas inside a group or a string are no items of it. */
  function Clauses(items: seq<Item>): (cs: seq<seq<Item>>)
    ensures cs != []
  {
    if items == [] then [[]]
    else if items[0] == Ch(',') then [[]] + Clauses(items[1..])
    else
      var rest := Clauses(items[1..]);
      [[items[0]] + rest[0]] + rest[1..]
  }

  function Texts(cs: seq<seq<Item>>): seq<string> {
    if cs == [] then [] else [Written(cs[0])] + Texts(cs[1..])
  }

  // ----- the scan over one list

  /** What comes after does not continue a string that ends the list. */
  predicate Follows(items: seq<Item>, rest: string) {
    items != [] && items[|items| - 1].Str? && rest != "" ==> rest[0] != items[|items| - 1].q
  }

  /** The scan gets from the start of `t`, in mode `m`, to `rest`, in mode `m'`, without a cut. */
  ghost predicate Passes(t: string, m: Mode, rest: string, m': Mode) {
    |rest| <= |t| && t[|t| - |rest|..] == rest &&
    FirstCut(t, m) == |t| - |rest| + FirstCut(rest, m') && End(t, m) == End(rest, m')
  }

  lemma PassesOne(t: string, m: Mode, rest: string)
    requires t != "" && !Cuts(t, m) && rest == t[Width(t, m)..]
    ensures Passes(t, m, rest, Next(t, m))
  {
    CutStepOver(t, m);
    EndStep(t, m);
  }

  lemma PassesOn(t: string, m: Mode, u: string, m1: Mode, v: string, m2: Mode)
    requires Passes(t, m, u, m1) && Passes(u, m1, v, m2)
    ensures Passes(t, m, v, m2)
  {
    hide FirstCut, End;
    assert t[|t| - |u|..][|u| - |v|..] == t[|t| - |v|..];
  }

  lemma PassesNothing(t: string, m: Mode)
    ensures Passes(t, m, t, m)
  {
    assert t[0..] == t;
  }

  lemma {:induction false} ThroughBits(q: char, bits: seq<Bit>, rest: string, depth: int)
    requires (q == '\'' || q == '"' || q == '`') && forall i :: 0 <= i < |bits| ==> BitOk(q, bits[i])
    requires rest != "" ==> rest[0] != q
    ensures Passes(Bits(q, bits) + ([q] + rest), Mode(depth, Some(q)), rest, Mode(depth, None))
    decreases |bits|
  {
    hide FirstCut, End, Passes;
    var m := Mode(depth, Some(q));
    var t := Bits(q, bits) + ([q] + rest);
    if bits == [] {
      assert t == [q] + rest && t[0] == q && t[1..] == rest;
      PassesOne(t, m, rest);
    } else {
      ThroughBits(q, bits[1..], rest, depth);
      var u := Bits(q, bits[1..]) + ([q] + rest);
      OneBit(q, bits[0], u, depth);
      BitFirst(q, bits, [q] + rest);
      PassesOn(t, m, u, m, rest, Mode(depth, None));
    }
  }

  function BitText(q: char, b: Bit): string {
    match b
    case Plain(c) => [c]
    case Twice => [q, q]
    case Escaped(c) => ['\\', c]
  }

  lemma BitFirst(q: char, bits: seq<Bit>, after: string)
    requires bits != []
    ensures Bits(q, bits) + after == BitText(q, bits[0]) + (Bits(q, bits[1..]) + after)
  {
    Reassociate(BitText(q, bits[0]), Bits(q, bits[1..]), after);
  }

  lemma OneBit(q: char, b: Bit, u: string, depth: int)
    requires (q == '\'' || q == '"' || q == '`') && BitOk(q, b) && u != ""
    ensures Passes(BitText(q, b) + u, Mode(depth, Some(q)), u, Mode(depth, Some(q)))
  {
    hide FirstCut, End, Passes;
    var m := Mode(depth, Some(q));
    var t := BitText(q, b) + u;
    assert t[|BitText(q, b)|..] == u;
    assert t[0] == BitText(q, b)[0];
    assert Width(t, m) == |BitText(q, b)| && Next(t, m) == m;
    PassesOne(t, m, u);
  }

  /** The scan passes a proper list: at depth 0 if it has no comma of its own, deeper always. */
  lemma {:induction false} Through(items: seq<Item>, rest: string, depth: nat)
    requires Proper(items) && Follows(items, rest) && (depth == 0 ==> Ch(',') !in items)
    ensures Passes(Written(items) + rest, Mode(depth, None), rest, Mode(depth, None))
    decreases items
  {
    hide FirstCut, End, Passes;
    var m := Mode(depth, None);
    if items == [] {
      assert Written(items) + rest == rest;
      PassesNothing(rest, m);
    } else {
      var more := Written(items[1..]) + rest;
      FollowsRest(items, rest);
      Through(items[1..], rest, depth);
      match items[0] {
        case Ch(c) => PlainThrough(c, more, depth);
        case Str(q, bits) => StrThrough(q, bits, more, depth);
        case Group(inner) =>
          Through(inner, ")" + more, depth + 1);
          GroupThrough(inner, more, depth);
      }
      Reassociate(ItemText(items[0]), Written(items[1..]), rest);
      PassesOn(Written(items) + rest, m, more, m, rest, m);
    }
  }

  function ItemText(it: Item): string {
    match it
    case Ch(c) => [c]
    case Str(q, bits) => [q] + (Bits(q, bits) + [q])
    case Group(inner) => "(" + (Written(inner) + ")")
  }

  lemma FollowsRest(items: seq<Item>, rest: string)
    requires items != [] && Proper(items) && Follows(items, rest)
    ensures Follows(items[1..], rest) && Follows([items[0]], Written(items[1..]) + rest)
    ensures items[0].Group? ==> Follows(items[0].items, ")" + (Written(items[1..]) + rest))
  {
    if items[0].Str? && |items| > 1 {
      StartsWith(items[1..]);
    } else if |items| == 1 {
      assert Written(items[1..]) + rest == rest;
    }
    if items[0].Group? {
      ProperLast(items[0].items);
    }
  }

  lemma {:induction false} ProperLast(items: seq<Item>)
    requires Proper(items)
    ensures items != [] && items[|items| - 1].Str? ==> items[|items| - 1].q != ')'
  {
    if |items| > 1 {
      ProperLast(items[1..]);
    }
  }

  lemma StartsWith(items: seq<Item>)
    requires Proper(items) && items != []
    ensures Written(items) != ""
    ensures match items[0]
      case Ch(c) => Written(items)[0] == c
      case Str(q, _) => Written(items)[0] == q
      case Group(_) => Written(items)[0] == '('
  {
  }

  lemma PlainThrough(c: char, more: string, depth: nat)
    requires c != '\'' && c != '"' && c != '`' && c != '(' && c != ')' && (depth == 0 ==> c != ',')
    ensures Passes([c] + more, Mode(depth, None), more, Mode(depth, None))
  {
    var t := [c] + more;
    assert t[0] == c && t[1..] == more;
    PassesOne(t, Mode(depth, None), more);
  }

  lemma StrThrough(q: char, bits: seq<Bit>, more: string, depth: nat)
    requires (q == '\'' || q == '"' || q == '`') && forall i :: 0 <= i < |bits| ==> BitOk(q, bits[i])
    requires more != "" ==> more[0] != q
    ensures Passes([q] + (Bits(q, bits) + [q]) + more, Mode(depth, None), more, Mode(depth, None))
  {
    hide FirstCut, End, Passes;
    var t := [q] + (Bits(q, bits) + [q]) + more;
    var u := Bits(q, bits) + ([q] + more);
    assert t[0] == q && t[1..] == u;
    PassesOne(t, Mode(depth, None), u);
    ThroughBits(q, bits, more, depth);
    PassesOn(t, Mode(depth, None), u, Mode(depth, Some(q)), more, Mode(depth, None));
  }

  lemma GroupThrough(inner: seq<Item>, more: string, depth: nat)
    requires Passes(Written(inner) + (")" + more), Mode(depth + 1, None), ")" + more, Mode(depth + 1, None))
    ensures Passes("(" + (Written(inner) + ")") + more, Mode(depth, None), more, Mode(depth, None))
  {
    hide FirstCut, End, Passes, Written;
    var t := "(" + (Written(inner) + ")") + more;
    var u, v := Written(inner) + (")" + more), ")" + more;
    assert t[0] == '(' && t[1..] == u && v[0] == ')' && v[1..] == more;
    PassesOne(t, Mode(depth, None), u);
    PassesOne(v, Mode(depth + 1, None), more);
    PassesOn(t, Mode(depth, None), u, Mode(depth + 1, None), v, Mode(depth + 1, None));
    PassesOn(t, Mode(depth, None), v, Mode(depth + 1, None), more, Mode(depth, None));
  }

  // ----- the split

  /** A list without a comma of its own is one balanced piece. */
  lemma OnePiece(items: seq<Item>)
    requires Proper(items) && Ch(',') !in items
    ensures Whole(Written(items)) && Balanced(Written(items))
  {
    Through(items, "", 0);
    assert Written(items) + "" == Written(items);
  }

  /** The first clause ends at the first comma of the list, and the others come from behind it. */
  lemma {:induction false} FirstClause(items: seq<Item>)
    ensures var n := |Clauses(items)[0]|;
      n <= |items| && Clauses(items)[0] == items[..n] && Ch(',') !in items[..n] &&
      Clauses(items) == if n == |items| then [items[..n]] else [items[..n]] + Clauses(items[n + 1..])
    ensures var n := |Clauses(items)[0]|; n < |items| ==> items[n] == Ch(',')
    decreases |items|
  {
    if items == [] {
      assert items[..0] == [];
    } else if items[0] == Ch(',') {
      assert items[..0] == [] && items[0 + 1..] == items[1..];
    } else {
      var tail := items[1..];
      FirstClause(tail);
      hide Clauses;
      ClausesStep(items);
      OneFurther(items, |Clauses(tail)[0]|);
    }
  }

  lemma OneFurther(items: seq<Item>, k: nat)
    requires items != [] && items[0] != Ch(',') && k < |items| && Ch(',') !in items[1..][..k]
    ensures items[..k + 1] == [items[0]] + items[1..][..k] && Ch(',') !in items[..k + 1]
    ensures k + 1 < |items| ==> items[k + 2..] == items[1..][k + 1..] && items[1..][k] == items[k + 1]
  {
  }

  lemma ClausesStep(items: seq<Item>)
    requires items != [] && items[0] != Ch(',')
    ensures var rest := Clauses(items[1..]); Clauses(items) == [[items[0]] + rest[0]] + rest[1..]
  {
  }

  lemma {:induction false} ProperParts(items: seq<Item>, n: nat)
    requires Proper(items) && n <= |items|
    ensures Proper(items[..n]) && Proper(items[n..])
    decreases |items|
  {
    if n > 0 {
      var tail := items[1..];
      ProperParts(tail, n - 1);
      assert items[..n][1..] == tail[..n - 1] && items[n..] == tail[n - 1..];
      assert items[..n][0] == items[0] && (n > 1 ==> items[..n][1] == items[1]);
    }
  }

  lemma {:induction false} WrittenConcat(a: seq<Item>, b: seq<Item>)
    ensures Written(a + b) == Written(a) + Written(b)
    decreases |a|
  {
    if a == [] {
      assert a + b == b;
    } else {
      assert (a + b)[0] == a[0] && (a + b)[1..] == a[1..] + b;
      WrittenConcat(a[1..], b);
      Reassociate(ItemText(a[0]), Written(a[1..]), Written(b));
    }
  }

  /** The text of a proper list is cut exactly at the list's own commas. */
  lemma {:induction false} SplitsAtOwnCommas(items: seq<Item>)
    requires Proper(items)
    ensures Pieces(Written(items), TOP) == Texts(Clauses(items))
    decreases |items|
  {
    hide Pieces, Clauses, Proper, Written, Texts;
    FirstClause(items);
    var c := Clauses(items)[0];
    var n := |c|;
    ProperParts(items, n);
    OnePiece(c);
    if n == |items| {
      assert c == items;
      WholeWhenNoCut(Written(items), TOP);
      OneText(items);
    } else {
      ProperParts(items, n + 1);
      SplitsAtOwnCommas(items[n + 1..]);
      WrittenAround(items, n);
      CutAfter(Written(c), Written(items[n + 1..]));
      ConsTexts(c, Clauses(items[n + 1..]));
    }
  }

  lemma WrittenAround(items: seq<Item>, n: nat)
    requires n < |items| && items[n] == Ch(',')
    ensures Written(items) == Written(items[..n]) + [','] + Written(items[n + 1..])
  {
    var rest := [Ch(',')] + items[n + 1..];
    assert items == items[..n] + rest;
    WrittenConcat(items[..n], rest);
    CommaFirst(items[n + 1..]);
    Reassociate(Written(items[..n]), ",", Written(items[n + 1..]));
  }

  /** A comma outside of all these cuts, whatever follows it. */
  lemma OwnCommaCuts(items: seq<Item>, rest: string)
    requires Proper(items) && Ch(',') !in items
    ensures Pieces(Written(items) + [','] + rest, TOP) == [Written(items)] + Pieces(rest, TOP)
  {
    OnePiece(items);
    CutAfter(Written(items), rest);
  }

  lemma OneText(items: seq<Item>)
    ensures Texts([items]) == [Written(items)]
  {
    assert [items][1..] == [];
  }

  lemma ConsTexts(c: seq<Item>, cs: seq<seq<Item>>)
    ensures Texts([c] + cs) == [Written(c)] + Texts(cs)
  {
    assert ([c] + cs)[1..] == cs;
  }

  lemma CommaFirst(items: seq<Item>)
    ensures Written([Ch(',')] + items) == "," + Written(items)
  {
    assert ([Ch(',')] + items)[1..] == items;
  }

  /** `split_top_level` of it: the clauses, stripped and without the empty ones. */
  method SplitItems(items: seq<Item>) returns (parts: seq<string>)
    requires Proper(items)
    ensures parts == Cleaned(Texts(Clauses(items)))
  {
    parts := SplitTopLevel(Written(items));
    SplitsAtOwnCommas(items);
  }

  // ----- in particular

  function Chars(s: string): seq<Item> { seq(|s|, i requires 0 <= i < |s| => Ch(s[i])) }

  /** No quote and no parenthesis. */
  predicate Bare(s: string) {
    forall i :: 0 <= i < |s| ==> s[i] != '\'' && s[i] != '"' && s[i] != '`' && s[i] != '(' && s[i] != ')'
  }

  lemma {:induction false} BareItems(s: string, rest: seq<Item>)
    requires Bare(s) && Proper(rest)
    ensures Proper(Chars(s) + rest) && Written(Chars(s) + rest) == s + Written(rest)
    decreases |s|
  {
    if s == "" {
      assert Chars(s) + rest == rest;
    } else {
      BareItems(s[1..], rest);
      var more := Chars(s[1..]) + rest;
      assert Chars(s) + rest == [Ch(s[0])] + more;
      assert s == [s[0]] + s[1..];
      hide Chars;
      ChFirst(s[0], more);
      Reassociate([s[0]], s[1..], Written(rest));
    }
  }

  lemma ChFirst(c: char, more: seq<Item>)
    requires c != '\'' && c != '"' && c != '`' && c != '(' && c != ')' && Proper(more)
    ensures Proper([Ch(c)] + more) && Written([Ch(c)] + more) == [c] + Written(more)
  {
    assert ([Ch(c)] + more)[1..] == more;
  }

  lemma NoComma(s: string)
    requires ',' !in s
    ensures Ch(',') !in Chars(s)
  {
    forall i | 0 <= i < |s| ensures Chars(s)[i] != Ch(',') {
      assert s[i] in s;
    }
  }

  /** One item between texts without commas, whatever is inside it, stays one balanced piece. */
  lemma ItemBetween(head: string, it: Item, tail: string)
    requires Bare(head) && Bare(tail) && ',' !in head && ',' !in tail && it != Ch(',') && Proper([it])
    ensures Whole(head + (ItemText(it) + tail)) && Balanced(head + (ItemText(it) + tail))
  {
    var none: seq<Item> := [];
    BareItems(tail, none);
    assert Chars(tail) + none == Chars(tail) && tail + "" == tail;
    var after := [it] + Chars(tail);
    assert after[1..] == Chars(tail) && (|after| > 1 ==> after[1].Ch?);
    assert Proper(after) && Written(after) == ItemText(it) + tail;
    BareItems(head, after);
    NoComma(head);
    NoComma(tail);
    OnePiece(Chars(head) + after);
  }

  /** Commas between parentheses do not cut, as in DECIMAL(10,2). */
  lemma ParenthesesKeep(head: string, inner: string, tail: string)
    requires Bare(head) && Bare(inner) && Bare(tail) && ',' !in head && ',' !in tail
    ensures Whole(head + ("(" + inner + ")" + tail)) && Balanced(head + ("(" + inner + ")" + tail))
  {
    var none: seq<Item> := [];
    BareItems(inner, none);
    assert Chars(inner) + none == Chars(inner) && inner + "" == inner;
    var it := Group(Chars(inner));
    assert [it][1..] == none && Proper(none);
    ItemBetween(head, it, tail);
    assert ItemText(it) + tail == "(" + inner + ")" + tail;
  }

  /** Nor do commas, parentheses or the other quotes between quotes, where a doubled quote and, but for
      backticks, an escaped one do not close. */
  lemma QuotesKeep(head: string, q: char, bits: seq<Bit>, tail: string)
    requires Bare(head) && Bare(tail) && ',' !in head && ',' !in tail && (q == '\'' || q == '"' || q == '`')
    requires forall i :: 0 <= i < |bits| ==> BitOk(q, bits[i])
    ensures Whole(head + ([q] + (Bits(q, bits) + [q]) + tail)) && Balanced(head + ([q] + (Bits(q, bits) + [q]) + tail))
  {
    var it := Str(q, bits);
    assert [it][1..] == [] && Proper([it][1..]);
    ItemBetween(head, it, tail);
  }

  // ----- texts that are not balanced

  function Opens(s: string): nat {
    if s == "" then 0 else Opens(s[..|s| - 1]) + if s[|s| - 1] == '(' then 1 else 0
  }

  function Closes(s: string): nat {
    if s == "" then 0 else Closes(s[..|s| - 1]) + if s[|s| - 1] == ')' then 1 else 0
  }

  predicate Unquoted(s: string) { forall i :: 0 <= i < |s| ==> s[i] != '\'' && s[i] != '"' && s[i] != '`' }

  /** Of a text without quotes, balanced or not: the first cut is the first comma before which as many
      parentheses were closed as opened. */
  lemma {:induction false} CutsAtDepthZero(t: string, n: nat)
    requires Unquoted(t) && n < |t|
    ensures FirstCut(t, TOP) == n <==>
      t[n] == ',' && Opens(t[..n]) == Closes(t[..n]) &&
      forall k :: 0 <= k < n && t[k] == ',' ==> Opens(t[..k]) != Closes(t[..k])
  {
    assert t[0..] == t && t[..0] == "" && Opens("") == 0 && Closes("") == 0;
    hide FirstCut, Opens, Closes, Unquoted;
    CutFrom(t, 0, n);
  }

  lemma {:induction false} CutFrom(t: string, i: nat, n: nat)
    requires Unquoted(t) && i <= |t| && n < |t|
    ensures var m := Mode(Opens(t[..i]) - Closes(t[..i]), None);
      i + FirstCut(t[i..], m) == n <==>
        i <= n && t[n] == ',' && Opens(t[..n]) == Closes(t[..n]) &&
        forall k :: i <= k < n && t[k] == ',' ==> Opens(t[..k]) != Closes(t[..k])
    decreases |t| - i
  {
    hide FirstCut;
    var m := Mode(Opens(t[..i]) - Closes(t[..i]), None);
    var u := t[i..];
    CutStepOver(u, m);
    if i < |t| {
      assert u[0] == t[i];
      if !Cuts(u, m) {
        CutFrom(t, i + 1, n);
        assert u[1..] == t[i + 1..] && t[..i + 1][..i] == t[..i];
        assert Next(u, m) == Mode(Opens(t[..i + 1]) - Closes(t[..i + 1]), None);
      }
    }
  }
}
