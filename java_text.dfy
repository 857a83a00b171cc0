/**
 * The few `java.lang.String`, `Character`, `Long` and `Integer` operations the
 * plugin relies on, stated over Dafny strings (sequences of Unicode scalar
 * values). Case mapping is ASCII-only here; see README for what that leaves out.
 */
module JavaText {
  import opened Wrappers

  const IntMin: int := -0x8000_0000
  const IntMax: int := 0x7FFF_FFFF
  const LongMin: int := -0x8000_0000_0000_0000
  const LongMax: int := 0x7FFF_FFFF_FFFF_FFFF

  // ---------------------------------------------------------------------------
  // Whitespace, blank and trim
  // ---------------------------------------------------------------------------

  /**
   * `Character.isWhitespace`: the Unicode space, line and paragraph separators
   * other than the three no-break spaces, and the controls U+0009..U+000D and
   * U+001C..U+001F.
   */
  predicate IsWhitespace(c: char) {
    var n := c as int;
    (9 <= n <= 13) || (28 <= n <= 32) || n == 0x1680
    || (0x2000 <= n <= 0x2006) || (0x2008 <= n <= 0x200A)
    || n == 0x2028 || n == 0x2029 || n == 0x205F || n == 0x3000
  }

  /** `String.isBlank`: empty, or whitespace only. */
  predicate IsBlank(s: string) {
    forall i :: 0 <= i < |s| ==> IsWhitespace(s[i])
  }

  /** Leading part of `String.trim`: drops chars up to U+0020 from the front. */
  function TrimStart(s: string): (r: string)
    ensures |r| <= |s|
  {
    if s != [] && s[0] <= ' ' then TrimStart(s[1..]) else s
  }

  /** Trailing part of `String.trim`: drops chars up to U+0020 from the back. */
  function TrimEnd(s: string): (r: string)
    ensures |r| <= |s|
  {
    if s != [] && s[|s| - 1] <= ' ' then TrimEnd(s[..|s| - 1]) else s
  }

  /** `String.trim`. */
  function Trim(s: string): string {
    TrimEnd(TrimStart(s))
  }

  /** `TrimStart` keeps a suffix of its input. */
  lemma {:induction false} TrimStartSuffix(s: string)
    ensures TrimStart(s) == s[|s| - |TrimStart(s)|..]
  {
    if s != [] && s[0] <= ' ' {
      TrimStartSuffix(s[1..]);
    }
  }

  /** `TrimEnd` keeps a prefix of its input. */
  lemma {:induction false} TrimEndPrefix(s: string)
    ensures TrimEnd(s) == s[..|TrimEnd(s)|]
  {
    if s != [] && s[|s| - 1] <= ' ' {
      TrimEndPrefix(s[..|s| - 1]);
    }
  }

  /** `TrimStart` stops at a char above U+0020, or at the end. */
  lemma {:induction false} TrimStartFirst(s: string)
    ensures var r := TrimStart(s); r == [] || r[0] > ' '
  {
    if s != [] && s[0] <= ' ' {
      TrimStartFirst(s[1..]);
    }
  }

  /** Everything `TrimStart` drops is a char up to U+0020. */
  lemma {:induction false} TrimStartDrops(s: string)
    ensures forall i :: 0 <= i < |s| - |TrimStart(s)| ==> s[i] <= ' '
  {
    if s != [] && s[0] <= ' ' {
      TrimStartDrops(s[1..]);
      var r := TrimStart(s);
      forall i | 0 < i < |s| - |r| ensures s[i] <= ' ' {
        assert s[i] == s[1..][i - 1];
      }
    }
  }

  /** `TrimEnd` stops at a char above U+0020, or at the start. */
  lemma {:induction false} TrimEndLast(s: string)
    ensures var r := TrimEnd(s); r == [] || r[|r| - 1] > ' '
  {
    if s != [] && s[|s| - 1] <= ' ' {
      TrimEndLast(s[..|s| - 1]);
    }
  }

  /** Everything `TrimEnd` drops is a char up to U+0020. */
  lemma {:induction false} TrimEndDrops(s: string)
    ensures forall i :: |TrimEnd(s)| <= i < |s| ==> s[i] <= ' '
  {
    if s != [] && s[|s| - 1] <= ' ' {
      TrimEndDrops(s[..|s| - 1]);
    }
  }

  /**
   * `String.trim` gives the longest slice of `s` that neither starts nor ends
   * with a char up to U+0020: everything cut off is such a char.
   */
  lemma {:induction false} TrimSpec(s: string)
    ensures var r := Trim(s);
      && (r == [] || (r[0] > ' ' && r[|r| - 1] > ' '))
      && exists i :: TrimmedAt(s, r, i)
  {
    TrimKeepsEnds(s);
    TrimCutsSpaces(s);
  }

  /** Trimming twice trims nothing more. */
  lemma TrimTrimmed(s: string)
    ensures Trim(Trim(s)) == Trim(s)
  {
    TrimKeepsEnds(s);
    var r := Trim(s);
    if r != [] {
      assert TrimStart(r) == r;
      assert TrimEnd(r) == r;
    }
  }

  /** What `String.trim` keeps neither starts nor ends with a char up to U+0020. */
  lemma {:induction false} TrimKeepsEnds(s: string)
    ensures var r := Trim(s); r == [] || (r[0] > ' ' && r[|r| - 1] > ' ')
  {
    var a := TrimStart(s);
    var r := TrimEnd(a);
    TrimStartFirst(s);
    TrimEndLast(a);
    TrimEndPrefix(a);
    if r != [] {
      assert r[0] == a[0];
    }
  }

  /** What `String.trim` cuts off, at either end, is chars up to U+0020. */
  lemma {:induction false} TrimCutsSpaces(s: string)
    ensures TrimmedAt(s, Trim(s), |s| - |TrimStart(s)|)
  {
    var a := TrimStart(s);
    TrimStartDrops(s);
    TrimEndDrops(a);
    TrimStartSuffix(s);
    TrimEndPrefix(a);
    TrimmedAtCut(s, a, TrimEnd(a), |s| - |a|);
  }

  /** Cutting at `i` and then keeping the front `r` of what is left gives `r` trimmed at `i`. */
  lemma {:induction false} TrimmedAtCut(s: string, a: string, r: string, i: int)
    requires 0 <= i <= |s| && a == s[i..] && |r| <= |a| && r == a[..|r|]
    requires forall k :: 0 <= k < i ==> s[k] <= ' '
    requires forall k :: |r| <= k < |a| ==> a[k] <= ' '
    ensures TrimmedAt(s, r, i)
  {
    assert r == s[i..i + |r|];
    forall k | i + |r| <= k < |s| ensures s[k] <= ' ' {
      assert s[k] == a[k - i];
    }
  }

  /** `r` sits at offset `i` of `s`, and everything around it is a char up to U+0020. */
  ghost predicate TrimmedAt(s: string, r: string, i: int) {
    && 0 <= i <= |s| - |r| && r == s[i..i + |r|]
    && (forall k :: 0 <= k < i ==> s[k] <= ' ')
    && (forall k :: i + |r| <= k < |s| ==> s[k] <= ' ')
  }

  // ---------------------------------------------------------------------------
  // Case mapping (ASCII) and substring tests
  // ---------------------------------------------------------------------------

  function UpperChar(c: char): char {
    if 'a' <= c <= 'z' then (c as int - 32) as char else c
  }

  function LowerChar(c: char): char {
    if 'A' <= c <= 'Z' then (c as int + 32) as char else c
  }

  /** `toUpperCase(Locale.ROOT)` on the ASCII letters. */
  function ToUpper(s: string): (r: string)
    ensures |r| == |s|
  {
    seq(|s|, i requires 0 <= i < |s| => UpperChar(s[i]))
  }

  /** `toLowerCase()` on the ASCII letters. */
  function ToLower(s: string): (r: string)
    ensures |r| == |s|
  {
    seq(|s|, i requires 0 <= i < |s| => LowerChar(s[i]))
  }

  predicate StartsWith(s: string, prefix: string) {
    |prefix| <= |s| && s[..|prefix|] == prefix
  }

  predicate EndsWith(s: string, suffix: string) {
    |suffix| <= |s| && s[|s| - |suffix|..] == suffix
  }

  /** `String.contains`. */
  predicate Contains(s: string, part: string) {
    exists i :: 0 <= i <= |s| - |part| && OccursAt(s, part, i)
  }

  /** `part` occurs in `s` starting at index `i`. */
  predicate OccursAt(s: string, part: string, i: int) {
    0 <= i <= |s| - |part| && s[i..i + |part|] == part
  }


  // ---------------------------------------------------------------------------
  // Decimal printing (`Long.toString`, `StringBuilder.append(int)`)
  // ---------------------------------------------------------------------------

  predicate IsDigit(c: char) {
    '0' <= c <= '9'
  }

  predicate AllDigits(s: string) {
    forall i :: 0 <= i < |s| ==> IsDigit(s[i])
  }

  function DigitChar(d: nat): (c: char)
    requires d < 10
    ensures IsDigit(c) && c as int - '0' as int == d
  {
    ('0' as int + d) as char
  }

  /** The value of a string of ASCII digits, most significant first. */
  function DigitsValue(s: string): nat
    requires AllDigits(s)
  {
    if s == [] then 0 else 10 * DigitsValue(s[..|s| - 1]) + (s[|s| - 1] as int - '0' as int)
  }

  /** Shortest decimal digits of `n`. */
  function NatString(n: nat): string {
    if n < 10 then [DigitChar(n)] else NatString(n / 10) + [DigitChar(n % 10)]
  }

  /** `Long.toString(n)`: a minus sign for negatives, then the digits. */
  function DecimalString(n: int): string {
    if n < 0 then "-" + NatString(-n) else NatString(n)
  }

  /** The digits of a natural number are at least one ASCII digit. */
  lemma {:induction false} NatStringDigits(n: nat)
    ensures |NatString(n)| >= 1 && AllDigits(NatString(n))
  {
    if n >= 10 {
      NatStringDigits(n / 10);
    }
  }

  /** A printed integer is digits, after a minus sign exactly when it is negative. */
  lemma DecimalStringShape(n: int)
    ensures var r := DecimalString(n); r != [] && AllDigits(if n < 0 then r[1..] else r) && (n < 0 <==> r[0] == '-')
  {
    NatStringDigits(if n < 0 then -n else n);
    if n < 0 {
      assert DecimalString(n)[1..] == NatString(-n);
    }
  }

  lemma {:induction false} NatStringValue(n: nat)
    ensures AllDigits(NatString(n)) && DigitsValue(NatString(n)) == n
  {
    NatStringDigits(n);
    if n >= 10 {
      NatStringValue(n / 10);
      var s := NatString(n);
      assert s[..|s| - 1] == NatString(n / 10);
    }
  }

  // ---------------------------------------------------------------------------
  // Number parsing (`Long.parseLong`, `Integer.parseInt`, radix 10 and 16)
  // ---------------------------------------------------------------------------

  /**
   * Java's radix-10 parser restricted to ASCII digits: an optional `+` or `-`,
   * at least one digit, and a value in `[lo, hi]`; anything else throws
   * (here: `None`).
   */
  function ParseDecimal(s: string, lo: int, hi: int): (r: Option<int>)
    ensures r.Some? ==> lo <= r.value <= hi
    ensures r.Some? ==> s != [] && (AllDigits(s) || ((s[0] == '-' || s[0] == '+') && AllDigits(s[1..])))
  {
    if |s| > 0 && (s[0] == '-' || s[0] == '+') then
      var ds := s[1..];
      if ds != [] && AllDigits(ds) then
        var v: int := if s[0] == '-' then -(DigitsValue(ds) as int) else DigitsValue(ds);
        if lo <= v <= hi then Some(v) else None
      else None
    else if s != [] && AllDigits(s) && lo <= DigitsValue(s) <= hi then Some(DigitsValue(s))
    else None
  }

  /** `Long.parseLong`. */
  function ParseLong(s: string): Option<int> {
    ParseDecimal(s, LongMin, LongMax)
  }

  /** `Integer.parseInt`. */
  function ParseInt(s: string): Option<int> {
    ParseDecimal(s, IntMin, IntMax)
  }

  /** A minus sign followed by digits parses as the negated digits value, inside the bounds. */
  lemma {:induction false} ParseNegative(s: string, ds: string, lo: int, hi: int)
    requires |s| > 1 && s[0] == '-' && s[1..] == ds && AllDigits(ds)
    requires lo <= -(DigitsValue(ds) as int) <= hi
    ensures ParseDecimal(s, lo, hi) == Some(-(DigitsValue(ds) as int))
  {
  }

  /** Bare digits parse as their value, inside the bounds. */
  lemma {:induction false} ParseUnsigned(s: string, lo: int, hi: int)
    requires s != [] && AllDigits(s) && lo <= DigitsValue(s) <= hi
    ensures ParseDecimal(s, lo, hi) == Some(DigitsValue(s))
  {
    assert IsDigit(s[0]);
  }

  /** Printing an integer and parsing it back gives the integer, inside the target width. */
  lemma {:induction false} DecimalRoundTrip(n: int, lo: int, hi: int)
    requires lo <= n <= hi
    ensures ParseDecimal(DecimalString(n), lo, hi) == Some(n)
  {
    var s := DecimalString(n);
    if n < 0 {
      var ds := NatString(-n);
      assert s == "-" + ds;
      assert s[1..] == ds;
      NatStringValue(-n);
      ParseNegative(s, ds, lo, hi);
    } else {
      assert s == NatString(n);
      NatStringValue(n);
      ParseUnsigned(s, lo, hi);
    }
  }

  function HexDigitValue(c: char): Option<nat> {
    if '0' <= c <= '9' then Some(c as int - '0' as int)
    else if 'a' <= c <= 'f' then Some(c as int - 'a' as int + 10)
    else if 'A' <= c <= 'F' then Some(c as int - 'A' as int + 10)
    else None
  }

  function HexDigitsValue(s: string): Option<nat> {
    if s == [] then Some(0)
    else match (HexDigitsValue(s[..|s| - 1]), HexDigitValue(s[|s| - 1]))
      case (Some(h), Some(d)) => Some(16 * h + d)
      case _ => None
  }

  /** `Integer.parseInt(s, 16)` restricted to ASCII hex digits. */
  function ParseHex(s: string): Option<int> {
    if |s| > 1 && (s[0] == '-' || s[0] == '+') then
      match HexDigitsValue(s[1..])
      case Some(h) =>
        var v: int := if s[0] == '-' then -(h as int) else h;
        if IntMin <= v <= IntMax then Some(v) else None
      case None => None
    else if s != [] then
      match HexDigitsValue(s)
      case Some(h) => if h <= IntMax then Some(h) else None
      case None => None
    else None
  }

  /**
   * The `(char)` cast of an `int`: the low 16 bits, as a UTF-16 code unit.
   * `None` for the surrogate units, which a Unicode scalar value cannot hold.
   */
  function CharCast(v: int): (r: Option<char>)
    ensures r.Some? ==> r.value as int == v % 0x1_0000
  {
    var u := v % 0x1_0000;
    if 0xD800 <= u < 0xE000 then None else Some(u as char)
  }

  /** `Number.intValue()` of a `long`: the low 32 bits, two's complement. */
  function ToInt32(n: int): (r: int)
    ensures IntMin <= r <= IntMax
    ensures (r - n) % 0x1_0000_0000 == 0
    ensures IntMin <= n <= IntMax ==> r == n
  {
    var m := n % 0x1_0000_0000;
    if m > IntMax then m - 0x1_0000_0000 else m
  }
}
