/** The JavaScript string built-ins the core relies on: `String.prototype.trim`,
    `Array.prototype.join` and the rendering of an integral number inside a
    template literal. */
module Text {

  /** ECMAScript's WhiteSpace and LineTerminator code points: exactly the
      characters `trim` removes. */
  predicate IsSpace(c: char) {
    || c == '\t' || c == '\n' || c == '\U{B}' || c == '\U{C}' || c == '\r'
    || c == ' ' || c == '\U{A0}' || c == '\U{1680}'
    || ('\U{2000}' <= c <= '\U{200A}')
    || c == '\U{2028}' || c == '\U{2029}' || c == '\U{202F}' || c == '\U{205F}'
    || c == '\U{3000}' || c == '\U{FEFF}'
  }

  predicate AllSpace(s: string) {
    forall i :: 0 <= i < |s| ==> IsSpace(s[i])
  }

  /** True when neither end of `s` is white space (vacuously for ""). */
  predicate Tight(s: string) {
    s == [] || (!IsSpace(s[0]) && !IsSpace(s[|s| - 1]))
  }

  /** Drops the leading white space: what is left is a suffix of `s`
      that does not start with white space (and what went is white space,
      `TrimStartDropsSpace`). */
  function TrimStart(s: string): (r: string)
    ensures |r| <= |s| && r == s[|s| - |r|..]
    ensures r == [] || !IsSpace(r[0])
  {
    if |s| > 0 && IsSpace(s[0]) then TrimStart(s[1..]) else s
  }

  /** Drops the trailing white space: what is left is a prefix of `s`
      that does not end with white space (and what went is white space,
      `TrimEndDropsSpace`). */
  function TrimEnd(s: string): (r: string)
    ensures |r| <= |s| && r == s[..|r|]
    ensures r == [] || !IsSpace(r[|r| - 1])
  {
    if |s| > 0 && IsSpace(s[|s| - 1]) then TrimEnd(s[..|s| - 1]) else s
  }

  /** Everything `TrimStart` removes is white space. */
  lemma {:induction false} TrimStartDropsSpace(s: string)
    ensures AllSpace(s[..|s| - |TrimStart(s)|])
  {
    if |s| > 0 && IsSpace(s[0]) {
      var k := |s| - |TrimStart(s)|;
      TrimStartDropsSpace(s[1..]);
      assert s[..k] == [s[0]] + s[1..][..k - 1];
    }
  }

  /** Everything `TrimEnd` removes is white space. */
  lemma {:induction false} TrimEndDropsSpace(s: string)
    ensures AllSpace(s[|TrimEnd(s)|..])
  {
    if |s| > 0 && IsSpace(s[|s| - 1]) {
      var k := |TrimEnd(s)|;
      TrimEndDropsSpace(s[..|s| - 1]);
      assert s[k..] == s[..|s| - 1][k..] + [s[|s| - 1]];
    }
  }

  /** `s.trim()`: no longer than `s`, and neither end is white space; what
      was cut off is white space (`TrimSplit`). */
  function Trim(s: string): (r: string)
    ensures |r| <= |s|
    ensures Tight(r)
  {
    var t := TrimStart(s);
    var r := TrimEnd(t);
    assert r != [] ==> r[0] == t[0];
    r
  }

  /** `s` is its trimmed string with white space on both sides. */
  lemma TrimSplit(s: string)
    ensures exists p, q :: AllSpace(p) && AllSpace(q) && s == p + Trim(s) + q
  {
    var p, q := TrimParts(s);
  }

  /** The white space `Trim` cuts from either end of `s`. */
  lemma TrimParts(s: string) returns (p: string, q: string)
    ensures AllSpace(p) && AllSpace(q) && s == p + Trim(s) + q
  {
    var t := TrimStart(s);
    var r := TrimEnd(t);
    p, q := s[..|s| - |t|], t[|r|..];
    TrimStartDropsSpace(s);
    TrimEndDropsSpace(t);
    SplitAt(s, |s| - |t|);
    SplitAt(t, |r|);
    Regroup(s, p, t, r, q);
  }

  /** Splitting the second half of a split gives a three-way split. */
  lemma Regroup(s: string, p: string, t: string, r: string, q: string)
    requires s == p + t && t == r + q
    ensures s == p + r + q
  {
    assert p + (r + q) == p + r + q;
  }

  /** A string is its prefix followed by the matching suffix. */
  lemma SplitAt(s: string, k: nat)
    requires k <= |s|
    ensures s == s[..k] + s[k..]
  {
  }

  /** `!s.trim()`: the trimmed string is "", which JavaScript treats as false. */
  predicate IsBlank(s: string) {
    Trim(s) == ""
  }

  lemma AllSpaceConcat(a: string, b: string)
    requires AllSpace(a) && AllSpace(b)
    ensures AllSpace(a + b)
  {
  }

  /** Leading white space is skipped up to the first other character. */
  lemma {:induction false} TrimStartSkips(p: string, t: string)
    requires AllSpace(p) && (t == [] || !IsSpace(t[0]))
    ensures TrimStart(p + t) == t
  {
    if p != [] {
      assert (p + t)[1..] == p[1..] + t;
      TrimStartSkips(p[1..], t);
    }
  }

  /** Trailing white space is skipped back to the last other character. */
  lemma {:induction false} TrimEndSkips(t: string, q: string)
    requires AllSpace(q) && (t == [] || !IsSpace(t[|t| - 1]))
    ensures TrimEnd(t + q) == t
  {
    if q != [] {
      assert (t + q)[..|t + q| - 1] == t + q[..|q| - 1];
      TrimEndSkips(t, q[..|q| - 1]);
    }
  }

  /** The trimmed string is unique: any split of `s` into white space, a
      tight middle and white space has `Trim(s)` as its middle. */
  lemma TrimUnique(s: string, p: string, m: string, q: string)
    requires AllSpace(p) && AllSpace(q) && Tight(m) && s == p + m + q
    ensures Trim(s) == m
  {
    if m == [] {
      AllSpaceConcat(p, q);
      assert s == (p + q) + [];
      TrimStartSkips(p + q, []);
    } else {
      assert s == p + (m + q);
      TrimStartSkips(p, m + q);
      TrimEndSkips(m, q);
    }
  }

  /** Trimming twice is trimming once. */
  lemma TrimIdempotent(s: string)
    ensures Trim(Trim(s)) == Trim(s)
  {
    var r := Trim(s);
    assert r == [] + r + [];
    TrimUnique(r, [], r, []);
  }

  /** A string is blank exactly when every character of it is white space. */
  lemma BlankIffAllSpace(s: string)
    ensures IsBlank(s) <==> AllSpace(s)
  {
    if AllSpace(s) {
      assert s == s + [] + [];
      TrimUnique(s, s, [], []);
    }
    if IsBlank(s) {
      TrimSplit(s);
      var p, q :| AllSpace(p) && AllSpace(q) && s == p + Trim(s) + q;
      AllSpaceConcat(p, q);
      assert s == p + q;
    }
  }

  /** The middle of a three-part concatenation can be cut back out. */
  lemma MiddleOf(a: string, m: string, b: string)
    ensures |a + m + b| == |a| + |m| + |b|
    ensures (a + m + b)[|a|..|a + m + b| - |b|] == m
  {
    assert a + m + b == a + (m + b);
  }

  /** In `a + b + c + d + e`, `b` follows `a` and `d` precedes `e`. */
  lemma ConcatSlices(a: string, b: string, c: string, d: string, e: string)
    ensures var p := a + b + c + d + e;
      && |a| + |b| + |c| + |d| + |e| == |p|
      && p[|a|..|a| + |b|] == b
      && p[|p| - |e| - |d|..|p| - |e|] == d
      && |a| + |b| <= |p| - |e| - |d|
  {
    var p := a + b + c + d + e;
    assert p == a + (b + (c + (d + e)));
    assert p[|a|..][..|b|] == b;
    assert p[|a| + |b| + |c|..][..|d|] == d;
  }

  /* ---------------------------------------------------------------------- */

  /** `parts.join(sep)`: the parts in order with one `sep` between each
      neighbouring pair. */
  function Join(parts: seq<string>, sep: string): (r: string)
    decreases |parts|
  {
    if |parts| == 0 then ""
    else if |parts| == 1 then parts[0]
    else parts[0] + sep + Join(parts[1..], sep)
  }

  /** The sum of the lengths of `parts`. */
  function TotalLength(parts: seq<string>): nat
  {
    if |parts| == 0 then 0 else |parts[0]| + TotalLength(parts[1..])
  }

  /** Where part `i` starts in `Join(parts, sep)`: after every earlier part
      and one separator per earlier part. */
  function Offset(parts: seq<string>, sep: string, i: nat): nat
    requires i <= |parts|
  {
    if i == 0 then 0 else |parts[0]| + |sep| + Offset(parts[1..], sep, i - 1)
  }

  /** The joined string is exactly as long as the parts plus n - 1 separators. */
  lemma {:induction false} JoinLength(parts: seq<string>, sep: string)
    requires |parts| > 0
    ensures |Join(parts, sep)| == TotalLength(parts) + (|parts| - 1) * |sep|
  {
    if |parts| > 1 {
      JoinLength(parts[1..], sep);
    }
  }

  /** Each offset is the previous one plus that part and one separator. */
  lemma {:induction false} OffsetStep(parts: seq<string>, sep: string, i: nat)
    requires i < |parts|
    ensures Offset(parts, sep, i + 1) == Offset(parts, sep, i) + |parts[i]| + |sep|
  {
    if i > 0 {
      OffsetStep(parts[1..], sep, i - 1);
    }
  }

  /** Part `i` appears verbatim at `Offset(i)`. */
  lemma {:induction false} JoinPartAt(parts: seq<string>, sep: string, i: nat)
    requires i < |parts|
    ensures Offset(parts, sep, i) + |parts[i]| <= |Join(parts, sep)|
    ensures Join(parts, sep)[Offset(parts, sep, i)..Offset(parts, sep, i) + |parts[i]|] == parts[i]
  {
    var j := Join(parts, sep);
    if i == 0 {
      if |parts| > 1 {
        assert j == parts[0] + (sep + Join(parts[1..], sep));
      }
    } else {
      var tail := parts[1..];
      JoinPartAt(tail, sep, i - 1);
      var k := |parts[0]| + |sep|;
      var o := Offset(tail, sep, i - 1);
      assert j == (parts[0] + sep) + Join(tail, sep);
      assert tail[i - 1] == parts[i];
      assert j[k + o..k + o + |parts[i]|] == Join(tail, sep)[o..o + |parts[i]|];
    }
  }

  /** Between part `i` and part `i + 1` stands exactly one separator. */
  lemma {:induction false} JoinSepAt(parts: seq<string>, sep: string, i: nat)
    requires i + 1 < |parts|
    ensures Offset(parts, sep, i) + |parts[i]| + |sep| <= |Join(parts, sep)|
    ensures Join(parts, sep)[Offset(parts, sep, i) + |parts[i]|..Offset(parts, sep, i) + |parts[i]| + |sep|] == sep
  {
    var j := Join(parts, sep);
    var tail := parts[1..];
    if i == 0 {
      assert j == parts[0] + sep + Join(tail, sep);
    } else {
      JoinSepAt(tail, sep, i - 1);
      var k := |parts[0]| + |sep|;
      var e := Offset(tail, sep, i - 1) + |parts[i]|;
      assert j == (parts[0] + sep) + Join(tail, sep);
      assert tail[i - 1] == parts[i];
      assert j[k + e..k + e + |sep|] == Join(tail, sep)[e..e + |sep|];
    }
  }

  /** The last part ends the joined string. */
  lemma {:induction false} JoinEnd(parts: seq<string>, sep: string)
    requires |parts| > 0
    ensures Offset(parts, sep, |parts| - 1) + |parts[|parts| - 1]| == |Join(parts, sep)|
  {
    if |parts| > 1 {
      JoinEnd(parts[1..], sep);
      assert parts[1..][|parts| - 2] == parts[|parts| - 1];
    }
  }

  /* ---------------------------------------------------------------------- */

  predicate IsDigit(c: char) {
    '0' <= c <= '9'
  }

  predicate AllDigits(s: string) {
    forall i :: 0 <= i < |s| ==> IsDigit(s[i])
  }

  function DigitChar(d: nat): (c: char)
    requires d < 10
    ensures IsDigit(c)
  {
    (48 + d) as char
  }

  function DigitValue(c: char): nat
    requires IsDigit(c)
  {
    c as int - 48
  }

  /** Decimal numeral of a natural number: digits only, no leading zero. */
  function NatToDecimal(n: nat): (r: string)
    ensures |r| > 0 && AllDigits(r)
    ensures |r| > 1 ==> r[0] != '0'
  {
    if n < 10 then [DigitChar(n)] else NatToDecimal(n / 10) + [DigitChar(n % 10)]
  }

  /** The value a string of decimal digits denotes. */
  function DecimalValue(s: string): nat
    requires AllDigits(s)
  {
    if |s| == 0 then 0 else DecimalValue(s[..|s| - 1]) * 10 + DigitValue(s[|s| - 1])
  }

  /** Reading back the numeral gives the number. */
  lemma {:induction false} NatToDecimalRoundTrip(n: nat)
    ensures DecimalValue(NatToDecimal(n)) == n
  {
    var r := NatToDecimal(n);
    if n >= 10 {
      NatToDecimalRoundTrip(n / 10);
      assert r[..|r| - 1] == NatToDecimal(n / 10);
    }
  }

  /** How JavaScript renders an integral number in a template literal. */
  function IntToDecimal(i: int): (r: string)
    ensures |r| > 0
  {
    if i < 0 then "-" + NatToDecimal(-i) else NatToDecimal(i)
  }

  /** The value of a numeral with an optional leading minus sign. */
  function SignedDecimalValue(s: string): int
    requires |s| > 0 && (s[0] == '-' ==> AllDigits(s[1..])) && (s[0] != '-' ==> AllDigits(s))
  {
    if s[0] == '-' then 0 - DecimalValue(s[1..]) else DecimalValue(s)
  }

  /** Reading back the rendered integer gives the integer. */
  lemma IntToDecimalRoundTrip(i: int)
    ensures var r := IntToDecimal(i);
      (r[0] == '-' ==> AllDigits(r[1..])) && (r[0] != '-' ==> AllDigits(r)) &&
      SignedDecimalValue(r) == i
  {
    if i < 0 {
      NatToDecimalRoundTrip(-i);
      assert IntToDecimal(i)[1..] == NatToDecimal(-i);
    } else {
      NatToDecimalRoundTrip(i);
    }
  }
}
