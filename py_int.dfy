/**
 * Python's `int(s)` on a string, base 10, and its inverse `str(n)`.
 *
 * `int(s)` accepts: optional whitespace, an optional `+` or `-`, one or more
 * decimal digits in which single underscores may stand between two digits,
 * optional whitespace, and nothing else.  Leading zeros are allowed.  A
 * literal with more than 4300 digits (underscores not counted) is refused
 * with the same `ValueError` as a malformed one: that is CPython's default
 * limit on integer string conversion.
 *
 * Whitespace here is what `int()` skips in an ASCII string: tab, line feed,
 * vertical tab, form feed, carriage return and the space.  The separators
 * 0x1C-0x1F, which `str.strip()` would remove, are refused.  `int()` also
 * skips non-ASCII whitespace and reads non-ASCII decimal digits; neither is
 * modelled.
 */
module PyInt {
  import opened Wrappers
  import PyStr

  /** CPython's default `sys.get_int_max_str_digits()`. */
  const MaxStrDigits: nat := 4300

  predicate IsWhitespace(c: char) {
    9 <= c as int <= 13 || c == ' '
  }

  predicate IsDigit(c: char) {
    '0' <= c <= '9'
  }

  /** The characters that can occur anywhere in a literal `int()` accepts. */
  predicate IsIntChar(c: char) {
    IsDigit(c) || IsWhitespace(c) || c == '+' || c == '-' || c == '_'
  }

  predicate AllWhitespace(s: string) {
    forall i :: 0 <= i < |s| ==> IsWhitespace(s[i])
  }

  predicate AllDigits(s: string) {
    forall i :: 0 <= i < |s| ==> IsDigit(s[i])
  }

  function DigitValue(c: char): (d: nat)
    requires IsDigit(c)
    ensures d < 10
  {
    c as int - '0' as int
  }

  function DigitChar(d: nat): (c: char)
    requires d < 10
    ensures IsDigit(c) && DigitValue(c) == d
  {
    ('0' as int + d) as char
  }

  // ---------------------------------------------------------------------------
  // int(s)

  function StripLeading(s: string): (r: string)
    ensures r != [] ==> !IsWhitespace(r[0])
  {
    if s != [] && IsWhitespace(s[0]) then StripLeading(s[1..]) else s
  }

  function StripTrailing(s: string): (r: string)
    ensures r != [] ==> !IsWhitespace(r[|r| - 1])
  {
    if s != [] && IsWhitespace(s[|s| - 1]) then StripTrailing(s[..|s| - 1]) else s
  }

  /** What `StripLeading` keeps is a suffix of its argument. */
  lemma {:induction false} StripLeadingSuffix(s: string)
    ensures |StripLeading(s)| <= |s| && StripLeading(s) == s[|s| - |StripLeading(s)|..]
  {
    if s != [] && IsWhitespace(s[0]) {
      StripLeadingSuffix(s[1..]);
    }
  }

  /** What `StripTrailing` keeps is a prefix of its argument. */
  lemma {:induction false} StripTrailingPrefix(s: string)
    ensures |StripTrailing(s)| <= |s| && StripTrailing(s) == s[..|StripTrailing(s)|]
  {
    if s != [] && IsWhitespace(s[|s| - 1]) {
      StripTrailingPrefix(s[..|s| - 1]);
    }
  }

  /** `s.strip()` over the whitespace `int()` skips. */
  function Strip(s: string): string {
    StripTrailing(StripLeading(s))
  }

  /**
   * The digits of `body` with the underscores taken out, when `body` is one
   * or more digits with single underscores only between two digits; `None`
   * otherwise.  It reads from the left, as `int()` scans.
   */
  function ScanDigits(body: string): (r: Option<string>)
    ensures r.Some? ==> r.value != [] && AllDigits(r.value)
  {
    if body == [] || !IsDigit(body[0]) then None
    else if |body| == 1 then Some(body)
    else
      var rest := if body[1] == '_' then body[2..] else body[1..];
      match ScanDigits(rest)
      case None => None
      case Some(ds) => Some([body[0]] + ds)
  }

  /** The number a string of decimal digits denotes, most significant first. */
  function DigitsValue(ds: string): nat
    requires AllDigits(ds)
  {
    if ds == [] then 0
    else DigitsValue(ds[..|ds| - 1]) * 10 + DigitValue(ds[|ds| - 1])
  }

  /** `int(s)`: `Some(n)` where Python returns `n`, `None` where it raises `ValueError`. */
  function ParseInt(s: string): Option<int> {
    ParseLiteral(Strip(s))
  }

  /** The literal left once the surrounding whitespace is gone: a sign, then digits. */
  function ParseLiteral(t: string): Option<int> {
    if t != [] && t[0] == '-' then
      Negated(ParseUnsigned(t[1..]))
    else if t != [] && t[0] == '+' then ParseUnsigned(t[1..])
    else ParseUnsigned(t)
  }

  function Negated(r: Option<int>): (n: Option<int>)
    ensures n.Some? <==> r.Some?
    ensures n.Some? ==> n.value == -r.value
  {
    match r
    case None => None
    case Some(v) => Some(-v)
  }

  /** Digits and underscores, refused beyond `MaxStrDigits` digits. */
  function ParseUnsigned(body: string): Option<int> {
    match ScanDigits(body)
    case None => None
    case Some(ds) => if |ds| > MaxStrDigits then None else Some(DigitsValue(ds))
  }

  // ---------------------------------------------------------------------------
  // str(n)

  /** `str(n)` for `n >= 0`: no sign, no leading zero. */
  function NatToDecimal(n: nat): (s: string)
    ensures s != [] && AllDigits(s)
    ensures |s| > 1 ==> s[0] != '0'
  {
    if n < 10 then [DigitChar(n)] else NatToDecimal(n / 10) + [DigitChar(n % 10)]
  }

  /** `str(n)` for any integer. */
  function IntToDecimal(n: int): string {
    if n < 0 then "-" + NatToDecimal(-n) else NatToDecimal(n)
  }

  /** A value that `int()` can produce has at most `MaxStrDigits` significant digits. */
  predicate Representable(n: int) {
    |NatToDecimal(if n < 0 then -n else n)| <= MaxStrDigits
  }

  // ---------------------------------------------------------------------------
  // Properties

  /** Reading back the digits of `str(n)` gives `n`. */
  lemma {:induction false} DigitsValueOfDecimal(n: nat)
    ensures DigitsValue(NatToDecimal(n)) == n
  {
    var s := NatToDecimal(n);
    if n >= 10 {
      DigitsValueOfDecimal(n / 10);
      assert s[..|s| - 1] == NatToDecimal(n / 10);
    }
  }

  /** Stripping a string that neither starts nor ends with whitespace leaves it alone. */
  lemma StripUntrimmed(s: string)
    requires s != [] && !IsWhitespace(s[0]) && !IsWhitespace(s[|s| - 1])
    ensures Strip(s) == s
  {
  }

  lemma {:induction false} StripLeadingWhitespace(ws: string, t: string)
    requires AllWhitespace(ws)
    requires t != [] ==> !IsWhitespace(t[0])
    ensures StripLeading(ws + t) == t
  {
    if ws != [] {
      assert (ws + t)[1..] == ws[1..] + t;
      StripLeadingWhitespace(ws[1..], t);
    }
  }

  lemma {:induction false} StripTrailingWhitespace(t: string, ws: string)
    requires AllWhitespace(ws)
    requires t != [] ==> !IsWhitespace(t[|t| - 1])
    ensures StripTrailing(t + ws) == t
  {
    if ws != [] {
      assert (t + ws)[..|t + ws| - 1] == t + ws[..|ws| - 1];
      StripTrailingWhitespace(t, ws[..|ws| - 1]);
    }
  }

  /** Whitespace around a literal that has none at its ends is ignored. */
  lemma StripSurrounded(ws1: string, t: string, ws2: string)
    requires AllWhitespace(ws1) && AllWhitespace(ws2)
    requires t != [] && !IsWhitespace(t[0]) && !IsWhitespace(t[|t| - 1])
    ensures Strip(ws1 + t + ws2) == t
  {
    assert ws1 + t + ws2 == ws1 + (t + ws2);
    StripLeadingWhitespace(ws1, t + ws2);
    StripTrailingWhitespace(t, ws2);
  }

  /** A plain run of digits reads as its value, within the digit limit. */
  lemma ParseDigits(s: string)
    requires s != [] && AllDigits(s)
    ensures ParseInt(s) == if |s| <= MaxStrDigits then Some(DigitsValue(s)) else None
  {
    StripUntrimmed(s);
    ScanAllDigits(s);
  }

  lemma {:induction false} ScanAllDigits(s: string)
    requires s != [] && AllDigits(s)
    ensures ScanDigits(s) == Some(s)
  {
    if |s| > 1 {
      assert s[1] != '_';
      ScanAllDigits(s[1..]);
      assert [s[0]] + s[1..] == s;
    }
  }

  /** What the scan accepts holds only digits and underscores. */
  lemma {:induction false} ScannedChars(s: string, i: nat)
    requires ScanDigits(s).Some? && i < |s|
    ensures IsDigit(s[i]) || s[i] == '_'
  {
    if i > 0 {
      if s[1] == '_' {
        if i > 1 {
          ScannedChars(s[2..], i - 2);
        }
      } else {
        ScannedChars(s[1..], i - 1);
      }
    }
  }

  /** `int(str(n)) == n` for every `n >= 0` within the digit limit. */
  lemma ParseNatToDecimal(n: nat)
    requires Representable(n)
    ensures ParseInt(NatToDecimal(n)) == Some(n)
  {
    ParseDigits(NatToDecimal(n));
    DigitsValueOfDecimal(n);
  }

  /**
   * Stripping a string that starts with a character other than whitespace
   * removes only trailing whitespace.
   */
  lemma {:induction false} StripTrailingKeep(t: string, d: string)
    requires t != [] && !IsWhitespace(t[|t| - 1])
    ensures StripTrailing(t + d) == t + StripTrailing(d)
    decreases |d|
  {
    if d != [] && IsWhitespace(d[|d| - 1]) {
      assert (t + d)[..|t + d| - 1] == t + d[..|d| - 1];
      StripTrailingKeep(t, d[..|d| - 1]);
    }
  }

  lemma {:induction false} StripLeadingAppend(a: string, t: string)
    requires a != [] && !IsWhitespace(a[|a| - 1])
    ensures StripLeading(a + t) == StripLeading(a) + t
    ensures StripLeading(a) != [] && StripLeading(a)[|StripLeading(a)| - 1] == a[|a| - 1]
  {
    if IsWhitespace(a[0]) {
      assert (a + t)[1..] == a[1..] + t;
      StripLeadingAppend(a[1..], t);
    }
  }

  /** The literal `int()` reads from a string that starts with a digit. */
  lemma ParseLeadingDigit(d: string)
    requires d != [] && IsDigit(d[0])
    ensures ParseInt(d) == ParseUnsigned(StripTrailing(d))
    ensures StripTrailing(d) != [] && IsDigit(StripTrailing(d)[0])
  {
    assert StripLeading(d) == d;
    StripTrailingKeep([d[0]], d[1..]);
    assert [d[0]] + d[1..] == d;
  }

  /** A sign followed by anything other than a digit is refused. */
  lemma UnsignedNoLeadingDigit(u: string, d: string)
    requires |u| <= |d| && u == d[..|u|]
    requires !(d != [] && IsDigit(d[0]))
    ensures ParseUnsigned(u) == None
  {
    if u != [] {
      assert u[0] == d[0];
    }
  }

  /** Stripping a string that starts with a sign. */
  lemma SignedStrip(c: char, d: string)
    requires c == '-' || c == '+'
    ensures Strip([c] + d) == [c] + StripTrailing(d)
  {
    assert StripLeading([c] + d) == [c] + d;
    StripTrailingKeep([c], d);
  }

  lemma SignedLiteral(c: char, u: string)
    requires c == '-' || c == '+'
    ensures ParseLiteral([c] + u) == if c == '-' then Negated(ParseUnsigned(u)) else ParseUnsigned(u)
  {
    assert ([c] + u)[0] == c && ([c] + u)[1..] == u;
  }

  /**
   * A minus sign negates the literal after it, which must start with a
   * digit: `int("-5 ") == -5`, while `int("- 5")` and `int("-+5")` raise.
   */
  lemma ParseNegative(d: string)
    ensures ParseInt("-" + d) == if d != [] && IsDigit(d[0]) then Negated(ParseInt(d)) else None
  {
    var u := StripTrailing(d);
    SignedStrip('-', d);
    SignedLiteral('-', u);
    if d != [] && IsDigit(d[0]) {
      ParseLeadingDigit(d);
    } else {
      StripTrailingPrefix(d);
      UnsignedNoLeadingDigit(u, d);
    }
  }

  lemma ParseNegativeOf(d: string, v: int)
    requires d != [] && IsDigit(d[0]) && ParseInt(d) == Some(v)
    ensures ParseInt("-" + d) == Some(-v)
  {
    ParseNegative(d);
  }

  /** A plus sign leaves the literal after it, which must start with a digit, unchanged. */
  lemma ParsePositive(d: string)
    ensures ParseInt("+" + d) == if d != [] && IsDigit(d[0]) then ParseInt(d) else None
  {
    var u := StripTrailing(d);
    SignedStrip('+', d);
    SignedLiteral('+', u);
    if d != [] && IsDigit(d[0]) {
      ParseLeadingDigit(d);
    } else {
      StripTrailingPrefix(d);
      UnsignedNoLeadingDigit(u, d);
    }
  }

  /** `int(str(n)) == n` for every integer within the digit limit. */
  lemma ParseIntToDecimal(n: int)
    requires Representable(n)
    ensures ParseInt(IntToDecimal(n)) == Some(n)
  {
    if n < 0 {
      var d := NatToDecimal(-n);
      assert IsDigit(d[0]);
      ParseNatToDecimal(-n);
      ParseNegativeOf(d, -n);
    } else {
      ParseNatToDecimal(n);
    }
  }

  /** `int()` ignores whitespace around the literal: `int(" 512\n") == 512`. */
  lemma ParseSurroundedDecimal(ws1: string, n: int, ws2: string)
    requires AllWhitespace(ws1) && AllWhitespace(ws2)
    requires Representable(n)
    ensures ParseInt(ws1 + IntToDecimal(n) + ws2) == Some(n)
  {
    var s := IntToDecimal(n);
    assert s[|s| - 1] == NatToDecimal(if n < 0 then -n else n)[|s| - 1 - (if n < 0 then 1 else 0)];
    StripSurrounded(ws1, s, ws2);
    StripUntrimmed(s);
    ParseIntToDecimal(n);
  }

  /** A character that no accepted literal contains makes `int()` fail. */
  lemma ParseRejectsStrayChar(s: string, i: nat)
    requires i < |s| && !IsIntChar(s[i])
    ensures ParseInt(s) == None
  {
    var lead := StripLeading(s);
    StripLeadingSuffix(s);
    StripTrailingPrefix(lead);
    var k := i - (|s| - |lead|);
    assert 0 <= k < |lead| && lead[k] == s[i] by {
      if i < |s| - |lead| {
        StrippedPrefixIsWhitespace(s, i);
      }
    }
    var t := Strip(s);
    assert k < |t| && t[k] == s[i] by {
      if k >= |t| {
        StrippedSuffixIsWhitespace(lead, k);
      }
    }
    var signed := t != [] && (t[0] == '+' || t[0] == '-');
    var body := if signed then t[1..] else t;
    var j := if signed then k - 1 else k;
    assert ParseInt(s).Some? ==> ScanDigits(body).Some?;
    assert 0 <= j < |body| && body[j] == s[i];
    if ScanDigits(body).Some? {
      ScannedChars(body, j);
      assert false;
    }
  }

  /** What `StripLeading` drops is whitespace. */
  lemma {:induction false} StrippedPrefixIsWhitespace(s: string, i: nat)
    requires i < |s| - |StripLeading(s)|
    ensures IsWhitespace(s[i])
  {
    if i > 0 {
      StrippedPrefixIsWhitespace(s[1..], i - 1);
    }
  }

  /** What `StripTrailing` drops is whitespace. */
  lemma {:induction false} StrippedSuffixIsWhitespace(s: string, i: nat)
    requires |StripTrailing(s)| <= i < |s|
    ensures IsWhitespace(s[i])
  {
    if i < |s| - 1 {
      StrippedSuffixIsWhitespace(s[..|s| - 1], i);
    }
  }

  /** Lower-casing cannot change what `int()` returns. */
  lemma ParseIgnoresCase(s: string)
    ensures ParseInt(PyStr.AsciiLower(s)) == ParseInt(s)
  {
    if exists i :: 0 <= i < |s| && PyStr.IsUpper(s[i]) {
      var i :| 0 <= i < |s| && PyStr.IsUpper(s[i]);
      var low := PyStr.AsciiLower(s);
      assert 'a' <= low[i] <= 'z';
      ParseRejectsStrayChar(s, i);
      ParseRejectsStrayChar(low, i);
    } else {
      PyStr.LowerNoUpper(s);
    }
  }

  function Zeros(k: nat): (z: string)
    ensures |z| == k && AllDigits(z)
  {
    if k == 0 then "" else Zeros(k - 1) + "0"
  }

  lemma {:induction false} DigitsValueLeadingZeros(k: nat, ds: string)
    requires AllDigits(ds)
    ensures DigitsValue(Zeros(k) + ds) == DigitsValue(ds)
  {
    if ds == [] {
      assert Zeros(k) + ds == Zeros(k);
      ZerosValue(k);
    } else {
      var s := Zeros(k) + ds;
      assert s[..|s| - 1] == Zeros(k) + ds[..|ds| - 1];
      DigitsValueLeadingZeros(k, ds[..|ds| - 1]);
    }
  }

  lemma {:induction false} ZerosValue(k: nat)
    ensures DigitsValue(Zeros(k)) == 0
  {
    if k > 0 {
      ZerosValue(k - 1);
      assert Zeros(k)[..k - 1] == Zeros(k - 1);
    }
  }

  /**
   * Leading zeros are accepted and do not change the value, but they count
   * toward the digit limit: `int("0" * k + str(n))` is `n` exactly when the
   * literal has at most `MaxStrDigits` digits.
   */
  lemma ParseLeadingZeros(k: nat, n: nat)
    ensures ParseInt(Zeros(k) + NatToDecimal(n)) ==
            if k + |NatToDecimal(n)| <= MaxStrDigits then Some(n) else None
  {
    var d := NatToDecimal(n);
    var s := Zeros(k) + d;
    assert AllDigits(s);
    ParseDigits(s);
    DigitsValueLeadingZeros(k, d);
    DigitsValueOfDecimal(n);
  }

  /** Fewer digits for a smaller number. */
  lemma {:induction false} DecimalLengthMonotone(a: nat, b: nat)
    requires a <= b
    ensures |NatToDecimal(a)| <= |NatToDecimal(b)|
  {
    if a >= 10 {
      DecimalLengthMonotone(a / 10, b / 10);
    }
  }

  /**
   * A single underscore between two digits is ignored, wherever it stands:
   * `int("1_000_000") == int("1_000000")` and `int(" -1_0") == int(" -10")`.
   */
  lemma ParseUnderscore(a: string, b: string)
    requires a != [] && IsDigit(a[|a| - 1]) && b != [] && IsDigit(b[0])
    ensures ParseInt(a + "_" + b) == ParseInt(a + b)
  {
    var x := StripLeading(a);
    var y := [b[0]] + StripTrailing(b[1..]);
    UnderscoreRegroup(a, x, b);
    StripLeadingAppend(a, "_" + b);
    StripLeadingAppend(a, b);
    StripTrailingDigits(x + "_", b[0], b[1..]);
    StripTrailingDigits(x, b[0], b[1..]);
    assert ParseInt(a + "_" + b) == ParseLiteral(x + "_" + y);
    assert ParseInt(a + b) == ParseLiteral(x + y);
    LiteralUnderscore(x, y);
  }

  lemma UnderscoreRegroup(a: string, x: string, b: string)
    requires b != []
    ensures a + "_" + b == a + ("_" + b)
    ensures b == [b[0]] + b[1..]
    ensures x + ("_" + b) == (x + "_") + ([b[0]] + b[1..])
  {
  }

  /** Trailing whitespace is stripped only from the part after a digit. */
  lemma StripTrailingDigits(u: string, c: char, w: string)
    requires u != [] && !IsWhitespace(u[|u| - 1]) && IsDigit(c)
    ensures StripTrailing(u + ([c] + w)) == u + ([c] + StripTrailing(w))
  {
    Regroup(u, c, w);
    Regroup(u, c, StripTrailing(w));
    StripTrailingKeep(u + [c], w);
  }

  lemma Regroup(u: string, c: char, w: string)
    ensures u + ([c] + w) == (u + [c]) + w
    ensures (u + [c])[|u|] == c
  {
  }

  lemma LiteralUnderscore(x: string, y: string)
    requires x != [] && IsDigit(x[|x| - 1]) && y != [] && IsDigit(y[0])
    ensures ParseLiteral(x + "_" + y) == ParseLiteral(x + y)
  {
    if x[0] == '-' || x[0] == '+' {
      assert (x + "_" + y)[1..] == x[1..] + "_" + y;
      assert (x + y)[1..] == x[1..] + y;
      ScanUnderscore(x[1..], y);
    } else {
      ScanUnderscore(x, y);
    }
  }

  lemma {:induction false} ScanUnderscore(x: string, y: string)
    requires x != [] && IsDigit(x[|x| - 1]) && y != [] && IsDigit(y[0])
    ensures ScanDigits(x + "_" + y) == ScanDigits(x + y)
  {
    var s := x + "_" + y;
    var s' := x + y;
    if !IsDigit(x[0]) {
    } else if |x| == 1 {
      assert s[1] == '_' && s[2..] == y;
      assert s'[1] == y[0] && s'[1..] == y;
    } else if x[1] == '_' {
      assert s[2..] == x[2..] + "_" + y;
      assert s'[2..] == x[2..] + y;
      ScanUnderscore(x[2..], y);
    } else {
      assert s[1..] == x[1..] + "_" + y;
      assert s'[1..] == x[1..] + y;
      ScanUnderscore(x[1..], y);
    }
  }

  /** Two underscores in a row are refused anywhere: `int("1__024")` raises `ValueError`. */
  lemma ParseDoubleUnderscore(s: string, i: nat)
    requires i + 1 < |s| && s[i] == '_' && s[i + 1] == '_'
    ensures ParseInt(s) == None
  {
    var lead := StripLeading(s);
    StripLeadingSuffix(s);
    StripTrailingPrefix(lead);
    var k := i - (|s| - |lead|);
    assert 0 <= k && k + 1 < |lead| && lead[k] == '_' && lead[k + 1] == '_' by {
      if i < |s| - |lead| {
        StrippedPrefixIsWhitespace(s, i);
      }
    }
    var t := Strip(s);
    assert k + 1 < |t| && t[k] == '_' && t[k + 1] == '_' by {
      if k + 1 >= |t| {
        StrippedSuffixIsWhitespace(lead, k + 1);
      }
    }
    var signed := t != [] && (t[0] == '+' || t[0] == '-');
    var body := if signed then t[1..] else t;
    var j := if signed then k - 1 else k;
    assert ParseInt(s).Some? ==> ScanDigits(body).Some?;
    assert 0 <= j && j + 1 < |body| && body[j] == '_' && body[j + 1] == '_';
    if ScanDigits(body).Some? {
      ScannedNoDoubleUnderscore(body, j);
      assert false;
    }
  }

  /** What the scan accepts never holds two underscores in a row. */
  lemma {:induction false} ScannedNoDoubleUnderscore(s: string, j: nat)
    requires ScanDigits(s).Some? && j + 1 < |s|
    ensures !(s[j] == '_' && s[j + 1] == '_')
  {
    if s[1] == '_' {
      if j >= 2 {
        ScannedNoDoubleUnderscore(s[2..], j - 2);
      } else if j == 1 {
        assert IsDigit(s[2..][0]);
      }
    } else if j >= 1 {
      ScannedNoDoubleUnderscore(s[1..], j - 1);
    }
  }

  /** `0x1C`-`0x1F` are not whitespace to `int()`: `int("\x1c512")` raises `ValueError`. */
  lemma ParseRejectsSeparatorControl(s: string, i: nat)
    requires i < |s| && 28 <= s[i] as int <= 31
    ensures ParseInt(s) == None
  {
    ParseRejectsStrayChar(s, i);
  }
}
