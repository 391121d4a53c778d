/** Strings as Python uses them in dbguard/gtid.py: `split`, `join`, `lower`, whitespace,
    decimal integers and string order. Characters are ASCII. */
module Text {
  import opened Intervals

  predicate IsSpace(c: char) {
    c == ' ' || c == '\t' || c == '\n' || c == '\r' || c == 11 as char || c == 12 as char
    || 28 as char <= c <= 31 as char
  }

  predicate IsDigit(c: char) { '0' <= c <= '9' }

  predicate IsHex(c: char) { IsDigit(c) || 'a' <= c <= 'f' }

  function LowerChar(c: char): (r: char)
    ensures IsDigit(r) <==> IsDigit(c)
    ensures IsSpace(r) <==> IsSpace(c)
    ensures !('A' <= r <= 'Z')
    ensures !('A' <= c <= 'Z') ==> r == c
    ensures 'A' <= c <= 'Z' ==> 'a' <= r <= 'z'
  {
    if 'A' <= c <= 'Z' then (c as int - 'A' as int + 'a' as int) as char else c
  }

  /** `s.lower()`. */
  function Lower(s: string): (r: string)
    ensures |r| == |s| && forall i :: 0 <= i < |s| ==> r[i] == LowerChar(s[i])
  {
    seq(|s|, i requires 0 <= i < |s| => LowerChar(s[i]))
  }

  lemma LowerTake(s: string, n: nat)
    requires n <= |s|
    ensures Lower(s)[..n] == Lower(s[..n])
  {
  }

  lemma LowerTail(s: string)
    requires s != ""
    ensures Lower(s)[1..] == Lower(s[1..]) && Lower(s)[0] == LowerChar(s[0])
  {
  }

  lemma LowerCons(c: char, s: string)
    ensures Lower([c] + s) == [LowerChar(c)] + Lower(s)
  {
  }

  lemma LowerIsLower(s: string)
    requires forall c :: c in s ==> !('A' <= c <= 'Z')
    ensures Lower(s) == s
  {
    var r := Lower(s);
    forall i | 0 <= i < |s| ensures r[i] == s[i] {
      assert s[i] in s;
    }
  }

  /** `"".join(s.split())`: every whitespace character dropped. */
  function DropSpace(s: string): string {
    if s == "" then ""
    else if IsSpace(s[0]) then DropSpace(s[1..])
    else [s[0]] + DropSpace(s[1..])
  }

  lemma {:induction false} DropSpaceSame(s: string)
    requires forall c :: c in s ==> !IsSpace(c)
    ensures DropSpace(s) == s
  {
    if s != "" {
      DropSpaceSame(s[1..]);
      assert s == [s[0]] + s[1..];
    }
  }

  lemma {:induction false} DropSpaceLower(s: string)
    ensures DropSpace(Lower(s)) == Lower(DropSpace(s))
  {
    if s != "" {
      DropSpaceLower(s[1..]);
      assert Lower(s)[1..] == Lower(s[1..]);
      if !IsSpace(s[0]) {
        assert ([s[0]] + DropSpace(s[1..]))[1..] == DropSpace(s[1..]);
      }
    }
  }

  // ----- split and join

  /** `s.split(sep)`. */
  function Split(s: string, sep: char): (parts: seq<string>)
    ensures |parts| > 0
  {
    if s == "" then [""]
    else if s[0] == sep then [""] + Split(s[1..], sep)
    else
      var rest := Split(s[1..], sep);
      [[s[0]] + rest[0]] + rest[1..]
  }

  /** `sep.join(parts)`. */
  function Join(parts: seq<string>, sep: char): string {
    if parts == [] then ""
    else if |parts| == 1 then parts[0]
    else parts[0] + [sep] + Join(parts[1..], sep)
  }

  lemma {:induction false} SplitPlain(s: string, sep: char)
    requires sep !in s
    ensures Split(s, sep) == [s]
  {
    if s != "" {
      SplitPlain(s[1..], sep);
      assert s == [s[0]] + s[1..];
    }
  }

  lemma {:induction false} SplitHead(s: string, t: string, sep: char)
    requires sep !in s
    ensures Split(s + [sep] + t, sep) == [s] + Split(t, sep)
  {
    var u := s + [sep] + t;
    if s == "" {
      assert u[1..] == t;
    } else {
      SplitHead(s[1..], t, sep);
      assert u[1..] == s[1..] + [sep] + t;
      assert s == [s[0]] + s[1..];
    }
  }

  /** Splitting undoes joining when no part holds the separator. */
  lemma {:induction false} SplitJoin(parts: seq<string>, sep: char)
    requires parts != [] && forall p :: p in parts ==> sep !in p
    ensures Split(Join(parts, sep), sep) == parts
  {
    if |parts| == 1 {
      SplitPlain(parts[0], sep);
    } else {
      SplitJoin(parts[1..], sep);
      SplitHead(parts[0], Join(parts[1..], sep), sep);
      assert parts == [parts[0]] + parts[1..];
    }
  }

  lemma {:induction false} SplitConcat(s: string, t: string, sep: char)
    ensures Split(s + [sep] + t, sep) == Split(s, sep) + Split(t, sep)
  {
    var u := s + [sep] + t;
    if s == "" {
      assert u[1..] == t;
    } else {
      SplitConcat(s[1..], t, sep);
      assert u[1..] == s[1..] + [sep] + t && u[0] == s[0];
      PrependHead([s[0]], Split(s[1..], sep), Split(t, sep));
    }
  }

  lemma PrependHead(head: string, a: seq<string>, b: seq<string>)
    requires a != []
    ensures [head + (a + b)[0]] + (a + b)[1..] == ([head + a[0]] + a[1..]) + b
    ensures [""] + (a + b) == ([""] + a) + b
  {
  }

  lemma {:induction false} JoinChars(parts: seq<string>, sep: char, c: char)
    requires c in Join(parts, sep)
    ensures c == sep || exists i :: 0 <= i < |parts| && c in parts[i]
  {
    if |parts| > 1 && c != sep && c !in parts[0] {
      JoinChars(parts[1..], sep, c);
      var i :| 0 <= i < |parts[1..]| && c in parts[1..][i];
      assert c in parts[i + 1];
    }
  }

  /** Splitting on a character that is no letter commutes with lower case. */
  lemma {:induction false} SplitLower(s: string, sep: char)
    requires !('A' <= sep <= 'Z') && !('a' <= sep <= 'z')
    ensures |Split(Lower(s), sep)| == |Split(s, sep)|
    ensures forall i :: 0 <= i < |Split(s, sep)| ==> Split(Lower(s), sep)[i] == Lower(Split(s, sep)[i])
  {
    hide Lower;
    if s == "" {
      assert Lower("") == "";
    } else {
      SplitLower(s[1..], sep);
      LowerTail(s);
      LowerCons(s[0], Split(s[1..], sep)[0]);
      assert LowerChar(s[0]) == sep <==> s[0] == sep;
    }
  }

  // ----- int() and str()

  /** `int(s)` on a string without whitespace: an optional sign, then digits with single
      underscores between them. None is the ValueError. */
  function Int(s: string): Option<int> {
    Signed(Digits(Unsigned(s)), s != "" && s[0] == '-')
  }

  function Signed(v: Option<int>, negative: bool): Option<int> {
    if v.Some? && negative then Some(-v.value) else v
  }

  function Unsigned(s: string): string {
    if s != "" && (s[0] == '-' || s[0] == '+') then s[1..] else s
  }

  function DigitValue(c: char): (v: int)
    requires IsDigit(c)
    ensures 0 <= v <= 9
  {
    c as int - '0' as int
  }

  function Digits(s: string): Option<int> {
    if s == "" || !IsDigit(s[|s| - 1]) then None
    else if |s| == 1 then Some(DigitValue(s[0]))
    else
      var rest := if s[|s| - 2] == '_' then s[..|s| - 2] else s[..|s| - 1];
      match Digits(rest)
      case Some(v) => Some(10 * v + DigitValue(s[|s| - 1]))
      case None => None
  }

  /** `str(n)`. */
  function Str(n: nat): (s: string)
    ensures s != "" && forall c :: c in s ==> IsDigit(c)
  {
    if n < 10 then ['0' + n as char] else Str(n / 10) + ['0' + (n % 10) as char]
  }

  lemma {:induction false} IntOfStr(n: nat)
    ensures Int(Str(n)) == Some(n) && Digits(Str(n)) == Some(n)
  {
    assert Str(n)[0] in Str(n);
    if n >= 10 {
      IntOfStr(n / 10);
      var t := Str(n / 10);
      assert Str(n)[..|Str(n)| - 1] == t;
      assert t[|t| - 1] in t;
      assert Str(n)[|Str(n)| - 2] == t[|t| - 1];
    }
  }

  lemma {:induction false} DigitsLower(s: string)
    ensures Digits(Lower(s)) == Digits(s)
    decreases |s|
  {
    hide Lower;
    if |s| > 1 {
      var rest := if s[|s| - 2] == '_' then s[..|s| - 2] else s[..|s| - 1];
      DigitsLower(rest);
      LowerTake(s, |rest|);
    }
  }

  lemma IntLower(s: string)
    ensures Int(Lower(s)) == Int(s)
  {
    UnsignedLower(s);
    DigitsLower(Unsigned(s));
    assert Lower(s) != "" && Lower(s)[0] == '-' <==> s != "" && s[0] == '-';
  }

  lemma UnsignedLower(s: string)
    ensures Unsigned(Lower(s)) == Lower(Unsigned(s))
    ensures s != "" ==> (Lower(s)[0] == '-' <==> s[0] == '-')
  {
    if s != "" {
      LowerTail(s);
    }
  }

  // ----- string order

  /** Python's `a < b` on strings. */
  predicate Less(a: string, b: string) {
    b != "" && (a == "" || a[0] < b[0] || (a[0] == b[0] && Less(a[1..], b[1..])))
  }

  lemma {:induction false} LessTrans(a: string, b: string, c: string)
    requires Less(a, b) && Less(b, c)
    ensures Less(a, c)
  {
    if a != "" && a[0] == b[0] && b[0] == c[0] {
      LessTrans(a[1..], b[1..], c[1..]);
    }
  }

  lemma {:induction false} LessTotal(a: string, b: string)
    ensures Less(a, b) || a == b || Less(b, a)
    ensures !(Less(a, b) && Less(b, a)) && !Less(a, a)
  {
    if a != "" && b != "" {
      LessTotal(a[1..], b[1..]);
      assert a == [a[0]] + a[1..] && b == [b[0]] + b[1..];
    }
    if a != "" {
      LessTotal(a[1..], a[1..]);
    }
  }

  ghost predicate Increasing(s: seq<string>) {
    s == [] || (Increasing(s[1..]) && forall t :: t in s[1..] ==> Less(s[0], t))
  }

  function InsertString(x: string, s: seq<string>): seq<string> {
    if s == [] || Less(x, s[0]) then [x] + s else [s[0]] + InsertString(x, s[1..])
  }

  lemma {:induction false} InsertStringSpec(x: string, s: seq<string>)
    requires Increasing(s) && x !in s
    ensures Increasing(InsertString(x, s))
    ensures forall t :: t in InsertString(x, s) <==> t == x || t in s
  {
    if s != [] {
      if Less(x, s[0]) {
        forall t | t in s ensures Less(x, t) {
          if t in s[1..] { LessTrans(x, s[0], t); }
        }
        assert ([x] + s)[1..] == s;
      } else {
        LessTotal(x, s[0]);
        InsertStringSpec(x, s[1..]);
        var r := InsertString(x, s[1..]);
        assert InsertString(x, s)[1..] == r;
      }
    }
  }

  /** `sorted` of a set of strings. */
  method SortStrings(all: set<string>) returns (s: seq<string>)
    ensures Increasing(s) && forall t :: t in s <==> t in all
  {
    s := [];
    var todo := all;
    while todo != {}
      invariant todo <= all && Increasing(s)
      invariant forall t :: t in s <==> t in all && t !in todo
      decreases todo
    {
      var x :| x in todo;
      InsertStringSpec(x, s);
      s := InsertString(x, s);
      todo := todo - {x};
    }
  }

  /** A set has one increasing enumeration. */
  lemma {:induction false} IncreasingUnique(s: seq<string>, t: seq<string>)
    requires Increasing(s) && Increasing(t)
    requires forall x :: x in s <==> x in t
    ensures s == t
  {
    assert s != [] ==> s[0] in s;
    assert t != [] ==> t[0] in t;
    if s != [] {
      FirstLeast(s, t[0]);
      FirstLeast(t, s[0]);
      LessTotal(s[0], t[0]);
      LessTotal(s[0], s[0]);
      assert forall x :: x in s <==> x == s[0] || x in s[1..];
      assert forall x :: x in t <==> x == t[0] || x in t[1..];
      IncreasingUnique(s[1..], t[1..]);
      assert s == [s[0]] + s[1..] && t == [t[0]] + t[1..];
    }
  }

  lemma FirstLeast(s: seq<string>, x: string)
    requires Increasing(s) && x in s
    ensures s[0] == x || Less(s[0], x)
  {
    assert x == s[0] || x in s[1..];
  }
}
