/** Text helpers with the semantics of the JavaScript string operations the
    application uses: `toLowerCase`, `includes`, `startsWith`, `endsWith`,
    `split`, `join`, `trim`, `padStart`, `String(n)` and `parseInt`.
    Case folding covers ASCII letters only. */
module Text {

  import opened Wrappers

  // ---------------------------------------------------------------- case

  function LowerChar(c: char): char {
    if 'A' <= c <= 'Z' then (c as int + 32) as char else c
  }

  function ToLower(s: string): (r: string)
    ensures |r| == |s|
    ensures forall i :: 0 <= i < |s| ==> r[i] == LowerChar(s[i])
  {
    if s == [] then [] else [LowerChar(s[0])] + ToLower(s[1..])
  }

  // ------------------------------------------------------- substrings

  predicate StartsWith(s: string, prefix: string) {
    |prefix| <= |s| && s[..|prefix|] == prefix
  }

  predicate EndsWith(s: string, suffix: string) {
    |suffix| <= |s| && s[|s| - |suffix|..] == suffix
  }

  lemma PrefixOfConcat(a: string, b: string)
    ensures StartsWith(a + b, a)
  {
    assert (a + b)[..|a|] == a;
  }

  /** `t` occurs in `s` starting at index `i`. */
  predicate OccursAt(s: string, t: string, i: int) {
    0 <= i && i + |t| <= |s| && s[i..i + |t|] == t
  }

  /** `s.includes(t)`. */
  predicate Contains(s: string, t: string) {
    exists i | 0 <= i <= |s| :: OccursAt(s, t, i)
  }

  /** `s.toLowerCase().includes(t.toLowerCase())`. */
  predicate ContainsIgnoringCase(s: string, t: string) {
    Contains(ToLower(s), ToLower(t))
  }

  lemma EmptyIsContained(s: string)
    ensures Contains(s, "")
  {
    assert OccursAt(s, "", 0);
  }

  lemma EmptyIsContainedIgnoringCase(s: string)
    ensures ContainsIgnoringCase(s, "")
  {
    EmptyIsContained(ToLower(s));
  }

  // ---------------------------------------------------- join and split

  /** `xs.join(sep)`. */
  function Join(xs: seq<string>, sep: string): string
    decreases |xs|
  {
    if |xs| == 0 then ""
    else if |xs| == 1 then xs[0]
    else xs[0] + sep + Join(xs[1..], sep)
  }

  /** `s.split(c)` for a one-character separator: the pieces between
      occurrences of `c`; the empty string splits into one empty piece. */
  function Split(s: string, c: char): (r: seq<string>)
    ensures |r| >= 1
  {
    if |s| == 0 then [""]
    else
      var rest := Split(s[1..], c);
      if s[0] == c then [""] + rest else [[s[0]] + rest[0]] + rest[1..]
  }

  predicate Free(x: string, c: char) {
    forall i :: 0 <= i < |x| ==> x[i] != c
  }
  /** The text before the first `c`, or all of it: `s.split(c)[0]`. */
  function Before(s: string, c: char): (r: string)
    ensures |r| <= |s| && r == s[..|r|] && Free(r, c)
    ensures |r| == |s| || s[|r|] == c
  {
    if |s| == 0 || s[0] == c then "" else [s[0]] + Before(s[1..], c)
  }

  /** The text after the first `c`, if there is one. */
  function After(s: string, c: char): (r: Option<string>)
    ensures r.Some? <==> |Before(s, c)| < |s|
    ensures r.Some? ==> r.value == s[|Before(s, c)| + 1..]
  {
    var k := |Before(s, c)|;
    if k < |s| then Some(s[k + 1..]) else None
  }

  /** Cutting `a + c + b` at its first `c` gives back `a` and `b`. */
  lemma CutAtFirst(a: string, c: char, b: string)
    requires Free(a, c)
    ensures Before(a + [c] + b, c) == a && After(a + [c] + b, c) == Some(b)
  {
    var s := a + [c] + b;
    var k := |Before(s, c)|;
    assert s[|a|] == c;
    assert forall i :: 0 <= i < |a| ==> s[i] == a[i];
    assert k == |a|;
    assert s[..|a|] == a;
    assert s[|a| + 1..] == b;
  }

  /** A text without `c` is not cut. */
  lemma CutNowhere(a: string, c: char)
    requires Free(a, c)
    ensures Before(a, c) == a && After(a, c) == None
  {
  }

  /** `Before` and `After` are the first pieces of `split`. */
  lemma {:induction false} SplitPieces(s: string, c: char)
    ensures Split(s, c)[0] == Before(s, c)
    ensures After(s, c).None? ==> |Split(s, c)| == 1
    ensures After(s, c).Some? ==> Split(s, c)[1..] == Split(After(s, c).value, c)
  {
    if |s| > 0 && s[0] != c {
      SplitPieces(s[1..], c);
      var k := |Before(s[1..], c)|;
      assert Before(s, c) == [s[0]] + Before(s[1..], c);
      if k < |s[1..]| {
        assert s[1..][k + 1..] == s[k + 2..];
      }
    }
  }


  lemma {:induction false} SplitOfPieceAndRest(a: string, c: char, b: string)
    requires Free(a, c)
    ensures Split(a + [c] + b, c) == [a] + Split(b, c)
  {
    if |a| == 0 {
      assert a + [c] + b == [c] + b;
      assert ([c] + b)[1..] == b;
    } else {
      var s := a + [c] + b;
      assert s[0] == a[0];
      assert s[1..] == a[1..] + [c] + b;
      SplitOfPieceAndRest(a[1..], c, b);
      assert [a[0]] + a[1..] == a;
    }
  }

  lemma {:induction false} SplitOfFree(a: string, c: char)
    requires Free(a, c)
    ensures Split(a, c) == [a]
  {
    if |a| > 0 {
      SplitOfFree(a[1..], c);
      assert [a[0]] + a[1..] == a;
    }
  }

  /** Splitting a join undoes it when no piece contains the separator. */
  lemma {:induction false} SplitJoin(xs: seq<string>, c: char)
    requires |xs| >= 1
    requires forall i :: 0 <= i < |xs| ==> Free(xs[i], c)
    ensures Split(Join(xs, [c]), c) == xs
  {
    if |xs| == 1 {
      SplitOfFree(xs[0], c);
    } else {
      SplitJoin(xs[1..], c);
      SplitOfPieceAndRest(xs[0], c, Join(xs[1..], [c]));
      assert xs[0] + [c] + Join(xs[1..], [c]) == Join(xs, [c]);
      assert [xs[0]] + xs[1..] == xs;
    }
  }

  /** A join of pieces without `c`, with a separator without `c`, has no `c`. */
  lemma {:induction false} JoinFree(xs: seq<string>, sep: string, c: char)
    requires forall i :: 0 <= i < |xs| ==> Free(xs[i], c)
    requires Free(sep, c)
    ensures Free(Join(xs, sep), c)
    decreases |xs|
  {
    if |xs| > 1 {
      JoinFree(xs[1..], sep, c);
      var rest := Join(xs[1..], sep);
      assert Join(xs, sep) == xs[0] + sep + rest;
      forall i | 0 <= i < |xs[0] + sep + rest| ensures (xs[0] + sep + rest)[i] != c {
        if i < |xs[0]| {
          assert (xs[0] + sep + rest)[i] == xs[0][i];
        } else if i < |xs[0]| + |sep| {
          assert (xs[0] + sep + rest)[i] == sep[i - |xs[0]|];
        } else {
          assert (xs[0] + sep + rest)[i] == rest[i - |xs[0]| - |sep|];
        }
      }
    }
  }

  lemma {:induction false} JoinAppend(xs: seq<string>, y: string, sep: string)
    requires |xs| >= 1
    ensures Join(xs + [y], sep) == Join(xs, sep) + sep + y
    decreases |xs|
  {
    if |xs| == 1 {
      assert xs + [y] == [xs[0], y];
      assert [xs[0], y][1..] == [y];
    } else {
      assert (xs + [y])[1..] == xs[1..] + [y];
      JoinAppend(xs[1..], y, sep);
    }
  }

  lemma {:induction false} JoinPrepend(x: string, xs: seq<string>, sep: string)
    requires |xs| >= 1
    ensures Join([x] + xs, sep) == x + sep + Join(xs, sep)
  {
    assert ([x] + xs)[1..] == xs;
  }

  // -------------------------------------------------------------- trim

  /** What `trim` removes: the white space and line terminator characters
      that the ECMAScript standard, ECMA-262, defines. */
  predicate IsSpace(c: char) {
    c == ' ' || c == '\t' || c == '\n' || c == '\r' || c == '\U{000B}' || c == '\U{000C}'
    || c == '\U{00A0}' || c == '\U{FEFF}' || c == '\U{1680}' || '\U{2000}' <= c <= '\U{200A}'
    || c == '\U{2028}' || c == '\U{2029}' || c == '\U{202F}' || c == '\U{205F}' || c == '\U{3000}'
  }

  function TrimStart(s: string): (r: string)
    ensures |r| <= |s| && r == s[|s| - |r|..]
    ensures r == [] || !IsSpace(r[0])
    ensures forall i :: 0 <= i < |s| - |r| ==> IsSpace(s[i])
  {
    if |s| > 0 && IsSpace(s[0]) then TrimStart(s[1..]) else s
  }

  function TrimEnd(s: string): (r: string)
    ensures |r| <= |s| && r == s[..|r|]
    ensures r == [] || !IsSpace(r[|r| - 1])
    ensures forall i :: |r| <= i < |s| ==> IsSpace(s[i])
  {
    if |s| > 0 && IsSpace(s[|s| - 1]) then TrimEnd(s[..|s| - 1]) else s
  }

  /** `s.trim()`. */
  function Trim(s: string): string {
    TrimEnd(TrimStart(s))
  }

  /** A blank text is one `trim` reduces to "": it holds only whitespace. */
  lemma BlankIffAllSpace(s: string)
    ensures Trim(s) == "" <==> forall i :: 0 <= i < |s| ==> IsSpace(s[i])
  {
  }

  // ------------------------------------------------------------ numbers

  predicate IsDigit(c: char) {
    '0' <= c <= '9'
  }

  function DigitChar(d: nat): char
    requires d < 10
  {
    ('0' as int + d) as char
  }

  function DigitValue(c: char): nat
    requires IsDigit(c)
  {
    c as int - '0' as int
  }

  /** Decimal digits of a natural number, no leading zeros. */
  function NatToString(n: nat): (r: string)
    ensures |r| >= 1
    ensures forall i :: 0 <= i < |r| ==> IsDigit(r[i])
  {
    if n < 10 then [DigitChar(n)] else NatToString(n / 10) + [DigitChar(n % 10)]
  }

  /** `String(n)` for an integer. */
  function IntToString(n: int): string {
    if n < 0 then "-" + NatToString(-n) else NatToString(n)
  }

  /** A number's text is digits and perhaps a minus sign: no comma, no
      line break. */
  lemma NumberFree(n: int)
    ensures Free(IntToString(n), ',') && Free(IntToString(n), '\n')
  {
    var s := IntToString(n);
    if n < 0 {
      assert forall i :: 1 <= i < |s| ==> s[i] == NatToString(-n)[i - 1];
    }
  }

  /** The value of a run of decimal digits. */
  function DigitsValue(s: string): nat
    requires forall i :: 0 <= i < |s| ==> IsDigit(s[i])
  {
    if |s| == 0 then 0 else DigitsValue(s[..|s| - 1]) * 10 + DigitValue(s[|s| - 1])
  }

  /** Reading the digits back gives the number. */
  lemma {:induction false} NatToStringRoundTrip(n: nat)
    ensures DigitsValue(NatToString(n)) == n
  {
    if n >= 10 {
      var s := NatToString(n);
      assert s[..|s| - 1] == NatToString(n / 10);
      NatToStringRoundTrip(n / 10);
    }
  }

  /** Numbers in [10^(k-1), 10^k) have exactly k digits; here, six. */
  lemma SixDigits(n: nat)
    requires 100000 <= n <= 999999
    ensures |NatToString(n)| == 6
  {
    var d1 := n / 10;
    var d2 := d1 / 10;
    var d3 := d2 / 10;
    var d4 := d3 / 10;
    var d5 := d4 / 10;
    assert 10000 <= d1 <= 99999;
    assert 1000 <= d2 <= 9999;
    assert 100 <= d3 <= 999;
    assert 10 <= d4 <= 99;
    assert 1 <= d5 <= 9;
    assert |NatToString(d4)| == 2 by {
      assert NatToString(d4) == NatToString(d5) + [DigitChar(d4 % 10)];
    }
    assert |NatToString(d3)| == 3 by {
      assert NatToString(d3) == NatToString(d4) + [DigitChar(d3 % 10)];
    }
    assert |NatToString(d2)| == 4 by {
      assert NatToString(d2) == NatToString(d3) + [DigitChar(d2 % 10)];
    }
    assert |NatToString(d1)| == 5 by {
      assert NatToString(d1) == NatToString(d2) + [DigitChar(d1 % 10)];
    }
    assert NatToString(n) == NatToString(d1) + [DigitChar(n % 10)];
  }

  /** `s.padStart(2, "0")`. */
  function PadStart2(s: string): (r: string)
    ensures |r| == if |s| < 2 then 2 else |s|
    ensures EndsWith(r, s)
  {
    if |s| == 0 then "00" else if |s| == 1 then "0" + s else s
  }

  /** Length of the longest run of digits at the start of `s`. */
  function DigitRun(s: string): (k: nat)
    ensures k <= |s|
    ensures forall i :: 0 <= i < k ==> IsDigit(s[i])
    ensures k == |s| || !IsDigit(s[k])
  {
    if |s| > 0 && IsDigit(s[0]) then 1 + DigitRun(s[1..]) else 0
  }

  /** `parseInt(s, 10)`: optional leading whitespace and sign, then the
      longest digit run; `None` stands for `NaN` (no digit found). */
  function ParseIntPrefix(s: string): (r: Option<int>)
  {
    var t := TrimStart(s);
    var neg := |t| > 0 && t[0] == '-';
    var u := if |t| > 0 && (t[0] == '-' || t[0] == '+') then t[1..] else t;
    var k := DigitRun(u);
    if k == 0 then None
    else if neg then Some(-(DigitsValue(u[..k]) as int))
    else Some(DigitsValue(u[..k]) as int)
  }


  /** A run of digits is read whole. */
  lemma {:induction false} DigitRunAll(s: string)
    requires forall i :: 0 <= i < |s| ==> IsDigit(s[i])
    ensures DigitRun(s) == |s|
  {
    if |s| > 0 {
      DigitRunAll(s[1..]);
    }
  }

  /** `parseInt` of plain digits is their value. */
  lemma ParseDigits(s: string)
    requires |s| > 0 && forall i :: 0 <= i < |s| ==> IsDigit(s[i])
    ensures ParseIntPrefix(s) == Some(DigitsValue(s) as int)
  {
    assert !IsSpace(s[0]);
    assert TrimStart(s) == s;
    DigitRunAll(s);
    assert s[..|s|] == s;
  }

  /** `parseInt` of two digits. */
  lemma ParseTwoDigitChars(s: string, v: int)
    requires |s| == 2 && IsDigit(s[0]) && IsDigit(s[1])
    requires v == DigitValue(s[0]) * 10 + DigitValue(s[1])
    ensures ParseIntPrefix(s) == Some(v)
  {
    ParseDigits(s);
    assert DigitsValue(s) == DigitsValue(s[..1]) * 10 + DigitValue(s[1]);
    assert s[..1][..0] == [];
    assert DigitsValue(s[..1]) == DigitValue(s[0]);
  }
}
