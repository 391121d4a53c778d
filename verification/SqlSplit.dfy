/** `split_top_level`, `q` and `_ident` of dbguard/osc/sqlutil.py: splitting an ALTER text at the
    commas outside parentheses and quotes, through doubled quotes and backslash escapes. */
module SqlSplit {
  import opened Intervals
  import opened Text

  /** Where the scan stands: parenthesis depth and the open quote, if any. */
  datatype Mode = Mode(depth: int, quote: Option<char>)

  const TOP := Mode(0, None)

  predicate IsQuote(c: char) { c == '\'' || c == '"' || c == '`' }

  /** How many characters the scan takes at once: an escape and a doubled quote are two. */
  function Width(t: string, m: Mode): (k: nat)
    requires t != ""
    ensures 1 <= k <= 2 && k <= |t|
  {
    if m.quote.None? || |t| < 2 then 1
    else if (t[0] == '\\' && m.quote.value != '`') || (t[0] == m.quote.value && t[1] == m.quote.value) then 2
    else 1
  }

  function Next(t: string, m: Mode): Mode
    requires t != ""
  {
    if m.quote.Some? then
      if Width(t, m) == 1 && t[0] == m.quote.value && !(t[0] == '\\' && m.quote.value != '`' && |t| >= 2)
      then m.(quote := None) else m
    else if IsQuote(t[0]) then m.(quote := Some(t[0]))
    else if t[0] == '(' then m.(depth := m.depth + 1)
    else if t[0] == ')' then m.(depth := m.depth - 1)
    else m
  }

  predicate Cuts(t: string, m: Mode)
    requires t != ""
  {
    t[0] == ',' && m == TOP
  }

  /** Index of the first top-level comma, or the length. */
  function FirstCut(t: string, m: Mode): (n: nat)
    ensures n <= |t| && (n < |t| ==> t[n] == ',')
  {
    if t == "" || Cuts(t, m) then 0
    else
      var k := Width(t, m);
      k + FirstCut(t[k..], Next(t, m))
  }

  /** The mode after scanning all of `t`. */
  function End(t: string, m: Mode): Mode {
    if t == "" then m else End(t[Width(t, m)..], Next(t, m))
  }

  /** The text between top-level commas. */
  function Pieces(t: string, m: Mode): (ps: seq<string>)
    ensures ps != []
    decreases |t|
  {
    var n := FirstCut(t, m);
    if n == |t| then [t] else [t[..n]] + Pieces(t[n + 1..], TOP)
  }

  function Strip(s: string): (r: string)
    ensures |r| <= |s|
  {
    if s == "" then ""
    else if IsSpace(s[0]) then Strip(s[1..])
    else if IsSpace(s[|s| - 1]) then Strip(s[..|s| - 1])
    else s
  }

  /** The pieces stripped, empty ones dropped. */
  function Cleaned(ps: seq<string>): seq<string> {
    if ps == [] then []
    else
      var p := Strip(ps[0]);
      (if p == "" then [] else [p]) + Cleaned(ps[1..])
  }

  // ----- what the pieces are

  lemma {:induction false} PiecesJoin(t: string, m: Mode)
    ensures Join(Pieces(t, m), ',') == t
    decreases |t|
  {
    hide Pieces, Join, FirstCut;
    var n := FirstCut(t, m);
    if n < |t| {
      PiecesJoin(t[n + 1..], TOP);
      FirstPiece(t, m);
      JoinCons(t[..n], Pieces(t[n + 1..], TOP));
      assert t == t[..n] + [','] + t[n + 1..];
    } else {
      WholeWhenNoCut(t, m);
      JoinOne(t);
    }
  }

  lemma JoinOne(p: string)
    ensures Join([p], ',') == p
  {
  }

  lemma JoinCons(p: string, rest: seq<string>)
    requires rest != []
    ensures Join([p] + rest, ',') == p + [','] + Join(rest, ',')
  {
    assert ([p] + rest)[1..] == rest;
  }

  /** No top-level comma inside. */
  predicate Whole(p: string) { FirstCut(p, TOP) == |p| }

  /** Quotes and parentheses closed at the end. */
  predicate Balanced(p: string) { End(p, TOP) == TOP }

  /** The text before the first cut has no cut and ends at the top level. */
  lemma {:induction false} PrefixWhole(t: string, m: Mode)
    requires FirstCut(t, m) < |t|
    ensures FirstCut(t[..FirstCut(t, m)], m) == FirstCut(t, m)
    ensures End(t[..FirstCut(t, m)], m) == TOP
  {
    var n := FirstCut(t, m);
    if n > 0 {
      var k := Width(t, m);
      PrefixWhole(t[k..], Next(t, m));
      var p := t[..n];
      SameStart(t, n, m);
      assert p[k..] == t[k..][..n - k];
    }
  }

  lemma SameStart(t: string, n: nat, m: Mode)
    requires t != "" && Width(t, m) <= n <= |t|
    ensures n > 0 && Width(t[..n], m) == Width(t, m) && Next(t[..n], m) == Next(t, m)
    ensures Cuts(t[..n], m) == Cuts(t, m)
  {
    var p := t[..n];
    assert p[0] == t[0] && (n >= 2 ==> p[1] == t[1]);
  }

  lemma {:induction false} WholeWhenNoCut(t: string, m: Mode)
    requires FirstCut(t, m) == |t|
    ensures Pieces(t, m) == [t]
  {
  }

  predicate AllWhole(ps: seq<string>) {
    forall i :: 0 <= i < |ps| ==> Whole(ps[i]) && (i < |ps| - 1 ==> Balanced(ps[i]))
  }

  lemma ConsWhole(p: string, rest: seq<string>)
    requires Whole(p) && Balanced(p) && AllWhole(rest)
    ensures AllWhole([p] + rest)
  {
    var ps := [p] + rest;
    forall i | 0 <= i < |ps| ensures Whole(ps[i]) && (i < |ps| - 1 ==> Balanced(ps[i])) {
      if i > 0 {
        var j := i - 1;
        assert ps[i] == rest[j];
      }
    }
  }

  /** On any text: the pieces are whole, and all but the last are balanced. */
  lemma {:induction false} PiecesWhole(t: string)
    ensures AllWhole(Pieces(t, TOP))
    decreases |t|
  {
    var n := FirstCut(t, TOP);
    if n < |t| {
      PrefixWhole(t, TOP);
      PiecesWhole(t[n + 1..]);
      ConsWhole(t[..n], Pieces(t[n + 1..], TOP));
    }
  }

  // ----- splitting undoes joining

  /** Scanning through a balanced whole piece reaches what follows at the top level. */
  lemma {:induction false} ScanThrough(p: string, rest: string, m: Mode)
    requires FirstCut(p, m) == |p| && End(p, m) == TOP
    requires rest == "" || rest[0] == ','
    requires m.quote.Some? ==> IsQuote(m.quote.value)
    ensures FirstCut(p + rest, m) == |p|
    decreases |p|
  {
    hide FirstCut, End;
    var t := p + rest;
    if p == "" {
      assert t == rest;
      EndStep(p, m);
      CutStepOver(t, m);
    } else {
      var k := Width(p, m);
      assert t[0] == p[0];
      SameStep(p, rest, m);
      CutStepOver(p, m);
      EndStep(p, m);
      ScanThrough(p[k..], rest, Next(p, m));
      assert t[k..] == p[k..] + rest;
      CutStepOver(t, m);
    }
  }

  lemma CutStepOver(t: string, m: Mode)
    ensures t == "" || Cuts(t, m) ==> FirstCut(t, m) == 0
    ensures t != "" && !Cuts(t, m) ==> FirstCut(t, m) == Width(t, m) + FirstCut(t[Width(t, m)..], Next(t, m))
  {
  }

  lemma EndStep(t: string, m: Mode)
    ensures End(t, m) == if t == "" then m else End(t[Width(t, m)..], Next(t, m))
  {
  }

  lemma SameStep(p: string, rest: string, m: Mode)
    requires p != "" && End(p, m) == TOP && (rest == "" || rest[0] == ',')
    requires m.quote.Some? ==> IsQuote(m.quote.value)
    ensures Width(p + rest, m) == Width(p, m) && Next(p + rest, m) == Next(p, m)
  {
    var t := p + rest;
    assert t[0] == p[0];
    if |p| >= 2 {
      assert t[1] == p[1];
    } else {
      assert p[1..] == "";
      assert End(p[1..], Next(p, m)) == Next(p, m);
    }
  }

  /** The pieces are the only way to cut a text into whole pieces, all but the last balanced. */
  lemma {:induction false} PiecesUnique(ps: seq<string>)
    requires ps != [] && AllWhole(ps)
    ensures Pieces(Join(ps, ','), TOP) == ps
    decreases |ps|
  {
    assert Whole(ps[0]);
    if |ps| > 1 {
      TailWhole(ps);
      PiecesUnique(ps[1..]);
      assert ps == [ps[0]] + ps[1..];
      JoinCons(ps[0], ps[1..]);
      CutAfter(ps[0], Join(ps[1..], ','));
    } else {
      assert ps == [ps[0]];
      WholeWhenNoCut(ps[0], TOP);
    }
  }

  lemma TailWhole(ps: seq<string>)
    requires |ps| > 1 && AllWhole(ps)
    ensures Balanced(ps[0]) && AllWhole(ps[1..])
  {
    var tail := ps[1..];
    forall i | 0 <= i < |tail| ensures Whole(tail[i]) && (i < |tail| - 1 ==> Balanced(tail[i])) {
      assert tail[i] == ps[i + 1];
    }
  }

  /** A balanced whole piece is the first piece of what it begins. */
  lemma CutAfter(p: string, rest: string)
    requires Whole(p) && Balanced(p)
    ensures Pieces(p + [','] + rest, TOP) == [p] + Pieces(rest, TOP)
  {
    var t := p + [','] + rest;
    ScanThrough(p, [','] + rest, TOP);
    assert t == p + ([','] + rest);
    FirstPiece(t, TOP);
    assert t[..|p|] == p && t[|p| + 1..] == rest;
  }

  /** A stripped, non-empty clause, balanced and without a top-level comma. */
  predicate IsClause(c: string) {
    c != "" && !IsSpace(c[0]) && !IsSpace(c[|c| - 1]) && Whole(c) && Balanced(c)
  }

  predicate Blank(s: string) { forall i :: 0 <= i < |s| ==> IsSpace(s[i]) }

  lemma {:induction false} PadKeeps(pad: string, c: string)
    requires Blank(pad) && IsClause(c)
    ensures Whole(pad + c) && Balanced(pad + c) && Strip(pad + c) == c
  {
    var t := pad + c;
    if pad == "" {
      assert t == c;
    } else {
      PadKeeps(pad[1..], c);
      assert t[0] == pad[0] && t[1..] == pad[1..] + c;
      assert Width(t, TOP) == 1 && Next(t, TOP) == TOP;
    }
  }

  function Padded(clauses: seq<string>, pad: string): seq<string> {
    if clauses == [] then [] else [pad + clauses[0]] + Padded(clauses[1..], pad)
  }

  lemma {:induction false} PaddedClean(clauses: seq<string>, pad: string)
    requires Blank(pad) && forall i :: 0 <= i < |clauses| ==> IsClause(clauses[i])
    ensures var ps := Padded(clauses, pad);
      |ps| == |clauses| && (forall i :: 0 <= i < |ps| ==> Whole(ps[i]) && Balanced(ps[i])) && Cleaned(ps) == clauses
  {
    if clauses != [] {
      PadKeeps(pad, clauses[0]);
      PaddedClean(clauses[1..], pad);
      assert clauses == [clauses[0]] + clauses[1..];
      assert Padded(clauses, pad)[1..] == Padded(clauses[1..], pad);
    }
  }

  /** Splitting undoes joining: for any clauses, joined by commas with any blank padding. */
  lemma SplitUndoesJoin(clauses: seq<string>, pad: string)
    requires Blank(pad) && forall i :: 0 <= i < |clauses| ==> IsClause(clauses[i])
    ensures Cleaned(Pieces(Join(Padded(clauses, pad), ','), TOP)) == clauses
  {
    PaddedClean(clauses, pad);
    if clauses != [] {
      PiecesUnique(Padded(clauses, pad));
    } else {
      assert Pieces("", TOP) == [""];
    }
  }

  // ----- the loop

  /** The pieces of `t` scanned from `m` with `buf` already read. */
  function Rest(buf: string, t: string, m: Mode): seq<string> {
    var ps := Pieces(t, m);
    [buf + ps[0]] + ps[1..]
  }

  lemma RestCut(buf: string, t: string, m: Mode)
    requires t != "" && Cuts(t, m)
    ensures Rest(buf, t, m) == [buf] + Rest("", t[1..], TOP)
  {
    var ps := Pieces(t[1..], TOP);
    assert t[..0] == "";
    assert Pieces(t, m) == [""] + ps;
    assert buf + "" == buf;
    RestEmpty(t[1..], TOP);
  }

  lemma RestEmpty(t: string, m: Mode)
    ensures Rest("", t, m) == Pieces(t, m)
  {
    var ps := Pieces(t, m);
    assert "" + ps[0] == ps[0] && [ps[0]] + ps[1..] == ps;
  }

  lemma RestStep(buf: string, t: string, m: Mode)
    requires t != "" && !Cuts(t, m)
    ensures var k := Width(t, m); Rest(buf, t, m) == Rest(buf + t[..k], t[k..], Next(t, m))
  {
    var k := Width(t, m);
    var u := t[k..];
    PiecesStep(t, m);
    var ps := Pieces(u, Next(t, m));
    Reassociate(buf, t[..k], ps[0]);
    assert ([t[..k] + ps[0]] + ps[1..])[1..] == ps[1..];
  }

  lemma Reassociate(a: string, b: string, c: string)
    ensures a + (b + c) == (a + b) + c
  {
  }

  lemma PiecesStep(t: string, m: Mode)
    requires t != "" && !Cuts(t, m)
    ensures var k := Width(t, m); var ps := Pieces(t[k..], Next(t, m));
      Pieces(t, m) == [t[..k] + ps[0]] + ps[1..]
  {
    var k := Width(t, m);
    var u := t[k..];
    var n := FirstCut(u, Next(t, m));
    assert FirstCut(t, m) == k + n;
    if n < |u| {
      TakeDrop(t, k, n);
      FirstPiece(t, m);
      FirstPiece(u, Next(t, m));
      PrependToFirst(t[..k], u[..n], Pieces(u[n + 1..], TOP));
    } else {
      WholeWhenNoCut(t, m);
      WholeWhenNoCut(u, Next(t, m));
      assert t == t[..k] + u;
    }
  }

  lemma FirstPiece(t: string, m: Mode)
    requires FirstCut(t, m) < |t|
    ensures Pieces(t, m) == [t[..FirstCut(t, m)]] + Pieces(t[FirstCut(t, m) + 1..], TOP)
  {
  }

  lemma PrependToFirst(a: string, b: string, rest: seq<string>)
    ensures var ps := [b] + rest; [a + b] + rest == [a + ps[0]] + ps[1..]
  {
    assert ([b] + rest)[1..] == rest;
  }

  lemma TakeDrop(t: string, k: nat, n: nat)
    requires k + n < |t|
    ensures t[..k + n] == t[..k] + t[k..][..n] && t[k + n + 1..] == t[k..][n + 1..]
  {
  }

  /** `split_top_level`: the pieces of the text stripped, without the empty ones. */
  method SplitTopLevel(text: string) returns (parts: seq<string>)
    ensures parts == Cleaned(Pieces(text, TOP))
  {
    hide Carried, Cleaned, Pieces, Emitted;
    parts := [];
    var buf, depth, i := "", 0, 0;
    var quote: Option<char> := None;
    CarryStart(text);
    while i < |text|
      invariant 0 <= i <= |text| && Carried(text, parts, buf, i, Mode(depth, quote))
      decreases |text| - i
    {
      ghost var m := Mode(depth, quote);
      var cut, k;
      cut, k, depth, quote := ScanChar(text, i, depth, quote);
      CarryStep(text, parts, buf, i, m);
      if cut {
        assert k == 1 && Mode(depth, quote) == TOP;
        parts, buf, i := Emitted(parts, buf), "", i + 1;
        assert Carried(text, parts, buf, i, TOP);
      } else {
        buf, i := buf + text[i..i + k], i + k;
        assert Carried(text, parts, buf, i, Next(text[i - k..], m));
      }
    }
    CarryEnd(text, parts, buf, Mode(depth, quote));
    parts := Emitted(parts, buf);
  }

  /** The parts emitted so far and what is still to be scanned give the whole answer. */
  ghost predicate Carried(text: string, parts: seq<string>, buf: string, i: int, m: Mode) {
    0 <= i <= |text| && Cleaned(Pieces(text, TOP)) == parts + Cleaned(Rest(buf, text[i..], m))
  }

  lemma CarryStart(text: string)
    ensures Carried(text, [], "", 0, TOP)
  {
    assert text[0..] == text;
    RestEmpty(text, TOP);
  }

  lemma CarryStep(text: string, parts: seq<string>, buf: string, i: int, m: Mode)
    requires Carried(text, parts, buf, i, m) && i < |text|
    ensures Cuts(text[i..], m) ==>
      Width(text[i..], m) == 1 && Carried(text, Emitted(parts, buf), "", i + 1, TOP)
    ensures !Cuts(text[i..], m) ==>
      var k := Width(text[i..], m);
      i + k <= |text| && Carried(text, parts, buf + text[i..i + k], i + k, Next(text[i..], m))
  {
    var t := text[i..];
    if Cuts(t, m) {
      CutStep(parts, buf, t, m);
      assert t[1..] == text[i + 1..];
    } else {
      var k := Width(t, m);
      RestStep(buf, t, m);
      assert t[k..] == text[i + k..] && t[..k] == text[i..i + k];
    }
  }

  lemma CarryEnd(text: string, parts: seq<string>, buf: string, m: Mode)
    requires Carried(text, parts, buf, |text|, m)
    ensures Cleaned(Pieces(text, TOP)) == Emitted(parts, buf)
  {
    assert text[|text|..] == "";
    LastPiece(parts, buf, m);
  }

  /** Append a piece stripped, unless nothing is left of it. */
  function Emitted(parts: seq<string>, piece: string): seq<string> {
    if Strip(piece) == "" then parts else parts + [Strip(piece)]
  }

  /** The branches of the loop on one character: whether it separates, and how many it takes. */
  method ScanChar(text: string, i: nat, depth: int, quote: Option<char>)
    returns (cut: bool, k: nat, depth': int, quote': Option<char>)
    requires i < |text|
    ensures cut == Cuts(text[i..], Mode(depth, quote)) && k == Width(text[i..], Mode(depth, quote))
    ensures Mode(depth', quote') == if cut then TOP else Next(text[i..], Mode(depth, quote))
  {
    var ch := text[i];
    cut, k, depth', quote' := false, 1, depth, quote;
    ghost var t := text[i..];
    assert t[0] == ch && (|t| >= 2 ==> t[1] == text[i + 1]);
    if quote.Some? {
      if ch == '\\' && quote.value != '`' && i + 1 < |text| {
        k := 2;
        return;
      }
      if ch == quote.value {
        if i + 1 < |text| && text[i + 1] == quote.value {
          k := 2;
          return;
        }
        quote' := None;
      }
    } else if IsQuote(ch) {
      quote' := Some(ch);
    } else if ch == '(' {
      depth' := depth + 1;
    } else if ch == ')' {
      depth' := depth - 1;
    } else if ch == ',' && depth == 0 {
      cut := true;
    }
  }

  lemma CutStep(parts: seq<string>, buf: string, t: string, m: Mode)
    requires t != "" && Cuts(t, m)
    ensures parts + Cleaned(Rest(buf, t, m)) == Emitted(parts, buf) + Cleaned(Rest("", t[1..], TOP))
  {
    RestCut(buf, t, m);
    CleanedCons(parts, buf, Rest("", t[1..], TOP));
  }

  lemma CleanedCons(parts: seq<string>, p: string, rest: seq<string>)
    ensures parts + Cleaned([p] + rest) == Emitted(parts, p) + Cleaned(rest)
  {
    assert ([p] + rest)[1..] == rest;
  }

  lemma LastPiece(parts: seq<string>, buf: string, m: Mode)
    ensures parts + Cleaned(Rest(buf, "", m)) == Emitted(parts, buf)
  {
    assert Pieces("", m) == [""] && buf + "" == buf;
    assert Rest(buf, "", m) == [buf] + [];
    CleanedCons(parts, buf, []);
  }

  // ----- quoted identifiers

  /** `name.replace("`", "``")`. */
  function Doubled(name: string): string {
    if name == "" then ""
    else (if name[0] == '`' then "``" else [name[0]]) + Doubled(name[1..])
  }

  /** `tok.replace("``", "`")`. */
  function Undoubled(tok: string): string {
    if tok == "" then ""
    else if |tok| >= 2 && tok[0] == '`' && tok[1] == '`' then "`" + Undoubled(tok[2..])
    else [tok[0]] + Undoubled(tok[1..])
  }

  /** `q`. */
  function Quoted(name: string): string { "`" + Doubled(name) + "`" }

  /** `_ident`. */
  function Ident(tok: string): string {
    var t := Strip(tok);
    if t != "" && t[0] == '`' && t[|t| - 1] == '`' then (if |t| >= 2 then Undoubled(t[1..|t| - 1]) else "") else t
  }

  lemma {:induction false} UndoubledDoubled(name: string)
    ensures Undoubled(Doubled(name)) == name
  {
    if name != "" {
      UndoubledDoubled(name[1..]);
      assert name == [name[0]] + name[1..];
      var d := Doubled(name);
      if name[0] == '`' {
        assert d[2..] == Doubled(name[1..]);
      } else {
        assert d[1..] == Doubled(name[1..]);
      }
    }
  }

  /** Reading a quoted name back gives the name, whatever it contains. */
  lemma IdentQuoted(name: string)
    ensures Ident(Quoted(name)) == name
  {
    UndoubledDoubled(name);
    var t := Quoted(name);
    assert Strip(t) == t && t[1..|t| - 1] == Doubled(name);
  }

  lemma {:induction false} InsideQuotes(name: string)
    ensures var t := Doubled(name) + "`"; var m := Mode(0, Some('`'));
      FirstCut(t, m) == |t| && End(t, m) == TOP
  {
    var t := Doubled(name) + "`";
    var m := Mode(0, Some('`'));
    hide FirstCut, End;
    CutStepOver(t, m);
    EndStep(t, m);
    if name == "" {
      assert t == "`" && t[1..] == "";
      CutStepOver(t[1..], TOP);
      EndStep(t[1..], TOP);
    } else {
      InsideQuotes(name[1..]);
      var rest := Doubled(name[1..]) + "`";
      if name[0] == '`' {
        assert t[2..] == rest && t[0] == '`' && t[1] == '`';
        assert Width(t, m) == 2 && Next(t, m) == m;
      } else {
        assert t[1..] == rest && t[0] == name[0];
        assert Width(t, m) == 1 && Next(t, m) == m;
      }
    }
  }

  /** A quoted name is never cut, whatever commas, parentheses or quotes it contains. */
  lemma QuotedIsClause(name: string)
    ensures IsClause(Quoted(name))
  {
    InsideQuotes(name);
    var t := Quoted(name);
    assert t[1..] == Doubled(name) + "`";
    assert Width(t, TOP) == 1 && Next(t, TOP) == Mode(0, Some('`'));
  }
}
