/**
 * What the reader makes of the writer's output: `parse(stringify(v)) == v`
 * for every value without floats (nulls, booleans, 64-bit integers, strings,
 * and maps with distinct keys and lists of those, nested to any depth), and
 * the escaping guarantees of `writeString`.
 *
 * The proof walks the writer's text with the reader. Positions in the text
 * are passed to each lemma as parameters, and how they relate is stated as
 * separate equations.
 */
module JsonRoundTrip {
  import opened Wrappers
  import opened JavaText
  import opened Json

  /** The scalars the round trip covers: no floats, and integers within a `long`. */
  predicate Scalar(v: Value) {
    v.Null? || v.Bool? || v.Str? || (v.Int? && LongMin <= v.n <= LongMax)
  }

  /**
   * The values the round trip covers: a scalar, or a map with distinct keys
   * or a list whose values are covered in turn.
   */
  ghost predicate Wire(v: Value)
    decreases v
  {
    match v
    case Obj(es) => DistinctKeys(es) && forall i :: 0 <= i < |es| ==> Wire(es[i].1)
    case Arr(vs) => forall i :: 0 <= i < |vs| ==> Wire(vs[i])
    case _ => Scalar(v)
  }

  ghost predicate WireEntries(es: seq<(string, Value)>) {
    forall i :: 0 <= i < |es| ==> Wire(es[i].1)
  }

  ghost predicate WireItems(vs: seq<Value>) {
    forall i :: 0 <= i < |vs| ==> Wire(vs[i])
  }

  /** Each key of `rest`, in turn, is new to the map read so far. */
  ghost predicate NewKeys(done: seq<(string, Value)>, rest: seq<(string, Value)>)
    decreases |rest|
  {
    rest == [] || (KeyIndex(done, rest[0].0).None? && NewKeys(done + [rest[0]], rest[1..]))
  }

  /** What may follow a written value: the end, or a char that ends a bare token. */
  ghost predicate Delimited(t: string, q: nat) {
    q == |t| || (q < |t| && IsTokenEnd(t[q]))
  }

  /** `t` holds `a` at position `p`. */
  ghost predicate HoldsAt(t: string, p: nat, a: string) {
    p <= |t| && |a| <= |t| - p && t[p..][..|a|] == a
  }

  // ---------------------------------------------------------------------------
  // Positions in the text
  // ---------------------------------------------------------------------------

  /** Text held at `p` in two parts: the second part starts at `q`. */
  lemma {:induction false} Split(t: string, p: nat, a: string, b: string, q: nat)
    requires HoldsAt(t, p, a + b) && q == p + |a|
    ensures HoldsAt(t, p, a) && HoldsAt(t, q, b)
  {
    assert t[p..][..|a|] == (a + b)[..|a|];
    assert t[q..] == t[p..][|a|..];
    assert t[q..][..|b|] == (a + b)[|a|..];
  }

  lemma {:induction false} First(t: string, p: nat, a: string)
    requires HoldsAt(t, p, a) && a != []
    ensures p < |t| && t[p] == a[0]
  {
    assert t[p..][..|a|][0] == a[0];
  }

  /** Every char of `a` sits at its place in `t`. */
  lemma {:induction false} HoldsIndex(t: string, p: nat, a: string, i: nat, q: nat)
    requires HoldsAt(t, p, a) && i < |a| && q == p + i
    ensures q < |t| && t[q] == a[i]
  {
    assert t[p..][..|a|][i] == a[i];
  }

  lemma {:induction false} HoldsSlice(t: string, p: nat, a: string, q: nat)
    requires HoldsAt(t, p, a) && q == p + |a|
    ensures q <= |t| && t[p..q] == a
  {
    assert t[p..q] == t[p..][..|a|];
  }

  /** Any slice of `t` is held where it was cut. */
  lemma {:induction false} SliceHolds(t: string, p: nat, q: nat)
    requires p <= q <= |t|
    ensures HoldsAt(t, p, t[p..q])
  {
    assert t[p..][..q - p] == t[p..q];
  }

  /** At a char that is not whitespace, `skipWs` stays put and `consume` of that char steps over it. */
  lemma {:induction false} AtChar(t: string, q: nat)
    requires q < |t| && !IsWhitespace(t[q])
    ensures WsEnd(t, q) == q && ConsumeAt(t, q, t[q]) == q + 1
  {
  }

  // ---------------------------------------------------------------------------
  // Strings
  // ---------------------------------------------------------------------------

  /** One unfolding of `Escape`: the escape of all but the last char, then the last char's. */
  lemma {:induction false} EscapeLast(s: string, init: string, c: char)
    requires s != [] && s[..|s| - 1] == init && s[|s| - 1] == c
    ensures Escape(s) == Escape(init) + EscapeChar(c)
  {
  }

  /** Dropping the last char of `a + b`, for a non-empty `b`, drops the last char of `b`. */
  lemma {:induction false} ConcatLast(a: string, b: string, init: string, c: char)
    requires b != [] && init == b[..|b| - 1] && c == b[|b| - 1]
    ensures (a + b)[..|a + b| - 1] == a + init && (a + b)[|a + b| - 1] == c
  {
  }

  lemma {:induction false} EscapeConcat(a: string, b: string)
    ensures Escape(a + b) == Escape(a) + Escape(b)
    decreases |b|
  {
    if b != [] {
      var init, c := b[..|b| - 1], b[|b| - 1];
      ConcatLast(a, b, init, c);
      EscapeLast(a + b, a + init, c);
      EscapeLast(b, init, c);
      EscapeConcat(a, init);
    } else {
      assert a + b == a;
    }
  }

  lemma {:induction false} EscapeSingle(c: char)
    ensures Escape([c]) == EscapeChar(c)
  {
    assert [c][..0] == [];
    assert Escape([c]) == Escape([]) + EscapeChar(c);
  }

  lemma {:induction false} EscapeFront(s: string)
    requires s != []
    ensures Escape(s) == EscapeChar(s[0]) + Escape(s[1..])
  {
    var head := [s[0]];
    assert s == head + s[1..];
    EscapeConcat(head, s[1..]);
    EscapeSingle(s[0]);
  }

  lemma {:induction false} EscapeQuotedFront(s: string)
    requires s != []
    ensures Escape(s) + "\"" == EscapeChar(s[0]) + (Escape(s[1..]) + "\"")
    ensures |Escape(s)| == |EscapeChar(s[0])| + |Escape(s[1..])|
  {
    EscapeFront(s);
  }

  /** `writeString` never emits a raw char below U+0020. */
  lemma {:induction false} EscapeHasNoControlChars(s: string)
    ensures forall i :: 0 <= i < |Escape(s)| ==> Escape(s)[i] >= ' '
    decreases |s|
  {
    if s != [] {
      EscapeHasNoControlChars(s[..|s| - 1]);
    }
  }

  /** Four hex digits `00xy` read as the value `16 * x + y`. */
  lemma {:induction false} HexDigitsOfByte(h: string, hi: nat, lo: nat)
    requires hi < 16 && lo < 16 && h == ['0', '0', HexDigit(hi), HexDigit(lo)]
    ensures HexDigitsValue(h) == Some(16 * hi + lo)
  {
    var h1, h2, h3 := h[..1], h[..2], h[..3];
    assert h1[..0] == [] && h2[..1] == h1 && h3[..2] == h2 && h[..3] == h3;
    assert HexDigitsValue(h1) == Some(0);
    assert HexDigitsValue(h2) == Some(0);
    assert HexDigitsValue(h3) == Some(hi);
  }

  /** A control char written as `\u00xx` reads back as itself. */
  lemma {:induction false} HexUnitOfControl(c: char)
    requires c < ' '
    ensures HexUnit(['0', '0', HexDigit(c as int / 16), HexDigit(c as int % 16)]) == [c]
  {
    var hi, lo := c as int / 16, c as int % 16;
    var h := ['0', '0', HexDigit(hi), HexDigit(lo)];
    HexDigitsOfByte(h, hi, lo);
    assert 16 * hi + lo == c as int;
    assert ParseHex(h) == Some(c as int);
    assert CharCast(c as int) == Some(c);
  }

  /** A `\u00xx` escape of a control char at `p`: the reader steps over six chars and appends the char. */
  lemma {:induction false} UnicodeStep(t: string, p: nat, acc: string, c: char, q: nat)
    requires c < ' ' && c != Backspace && c != FormFeed && c != '\n' && c != '\r' && c != '\t'
    requires HoldsAt(t, p, EscapeChar(c)) && q == p + 6 && q < |t|
    ensures StringBody(t, p, acc) == StringBody(t, q, acc + [c])
  {
    var hex := ['0', '0', HexDigit(c as int / 16), HexDigit(c as int % 16)];
    assert EscapeChar(c) == ['\\', 'u'] + hex;
    HoldsIndex(t, p, EscapeChar(c), 0, p);
    HoldsIndex(t, p, EscapeChar(c), 1, p + 1);
    Split(t, p, ['\\', 'u'], hex, p + 2);
    HoldsSlice(t, p + 2, hex, q);
    HexUnitOfControl(c);
    assert EscapeAt(t, p + 2, 'u') == ([c], q);
  }

  /** Reading one escaped char advances past exactly its escape and appends the char. */
  lemma {:induction false} StringBodyStep(t: string, p: nat, acc: string, c: char, q: nat)
    requires HoldsAt(t, p, EscapeChar(c)) && q == p + |EscapeChar(c)| && q < |t|
    ensures StringBody(t, p, acc) == StringBody(t, q, acc + [c])
  {
    var e := EscapeChar(c);
    HoldsIndex(t, p, e, 0, p);
    if |e| == 1 {
      assert q == p + 1;
    } else if |e| == 2 {
      HoldsIndex(t, p, e, 1, p + 1);
      assert EscapeAt(t, p + 2, e[1]) == ([c], p + 2);
      assert q == p + 2;
    } else {
      UnicodeStep(t, p, acc, c, q);
    }
  }

  lemma {:induction false} AppendFront(acc: string, s: string)
    requires s != []
    ensures acc + [s[0]] + s[1..] == acc + s
  {
    assert s == [s[0]] + s[1..];
  }

  /** The string reader undoes the escaping, up to and past the closing quote. */
  lemma {:induction false} StringBodyEscaped(t: string, p: nat, acc: string, s: string, e: nat)
    requires HoldsAt(t, p, Escape(s) + "\"") && e == p + |Escape(s)| + 1
    ensures StringBody(t, p, acc) == (acc + s, e)
    decreases |s|
  {
    if s == [] {
      assert Escape(s) + "\"" == "\"";
      First(t, p, "\"");
      assert acc + s == acc;
      assert e == p + 1;
    } else {
      var c := s[0];
      var q := p + |EscapeChar(c)|;
      EscapeQuotedFront(s);
      Split(t, p, EscapeChar(c), Escape(s[1..]) + "\"", q);
      First(t, q, Escape(s[1..]) + "\"");
      StringBodyStep(t, p, acc, c, q);
      StringBodyEscaped(t, q, acc + [c], s[1..], e);
      AppendFront(acc, s);
    }
  }

  /** How a quoted string lies in the text: the opening quote, then the escaped body and its quote. */
  lemma {:induction false} QuoteLayout(t: string, p: nat, s: string, q: nat)
    requires HoldsAt(t, p, Quote(s)) && q == p + 1
    ensures |Quote(s)| == |Escape(s)| + 2
    ensures p < |t| && t[p] == '"' && HoldsAt(t, q, Escape(s) + "\"")
  {
    assert Quote(s) == "\"" + (Escape(s) + "\"");
    Split(t, p, "\"", Escape(s) + "\"", q);
    First(t, p, "\"");
  }

  /** `parseString` reads back what `writeString` wrote. */
  lemma {:induction false} StringAtQuoted(t: string, p: nat, s: string, e: nat)
    requires HoldsAt(t, p, Quote(s)) && e == p + |Quote(s)|
    ensures StringAt(t, p) == (s, e)
  {
    QuoteLayout(t, p, s, p + 1);
    AtChar(t, p);
    StringBodyEscaped(t, p + 1, "", s, e);
    assert "" + s == s;
  }

  // ---------------------------------------------------------------------------
  // Scalars
  // ---------------------------------------------------------------------------

  lemma {:induction false} TokenEndAt(t: string, p: nat, q: nat)
    requires p <= q <= |t|
    requires forall i :: p <= i < q ==> !IsTokenEnd(t[i])
    requires q == |t| || IsTokenEnd(t[q])
    ensures TokenEnd(t, p) == q
    decreases q - p
  {
    if p < q {
      TokenEndAt(t, p + 1, q);
    }
  }

  /** The chars of a printed integer: a leading minus sign, then digits. */
  lemma {:induction false} DecimalChars(n: int, i: nat)
    requires i < |DecimalString(n)|
    ensures var c := DecimalString(n)[i]; c == '-' || IsDigit(c)
  {
    var d := DecimalString(n);
    DecimalStringShape(n);
    if n < 0 && i > 0 {
      assert d[i] == d[1..][i - 1];
    }
  }

  /** A printed integer followed by a delimiter is exactly one bare token. */
  lemma {:induction false} TokenEndDecimal(t: string, p: nat, n: int, q: nat)
    requires HoldsAt(t, p, DecimalString(n)) && q == p + |DecimalString(n)| && Delimited(t, q)
    ensures TokenEnd(t, p) == q
  {
    var d := DecimalString(n);
    forall i | p <= i < q
      ensures !IsTokenEnd(t[i])
    {
      HoldsIndex(t, p, d, i - p, i);
      DecimalChars(n, i - p);
    }
    TokenEndAt(t, p, q);
  }

  /** The token interpretation of `parseNumberOrStringToken` gives a printed long back. */
  lemma {:induction false} TokenValueDecimal(n: int)
    requires LongMin <= n <= LongMax
    ensures TokenValue(DecimalString(n)) == Int(n)
  {
    var d := DecimalString(n);
    forall i | 0 <= i < |d| ensures d[i] != '.' && d[i] != 'e' && d[i] != 'E' {
      DecimalChars(n, i);
    }
    assert '.' !in d && 'e' !in d && 'E' !in d;
    DecimalRoundTrip(n, LongMin, LongMax);
  }

  /** A bare token read from `p` to `q` is interpreted as the text between them. */
  lemma {:induction false} TokenAtValue(t: string, p: nat, q: nat, token: string)
    requires p <= q <= |t| && TokenEnd(t, p) == q && t[p..q] == token
    ensures TokenAt(t, p) == (TokenValue(token), q)
  {
  }

  /** A printed integer followed by a delimiter is one bare token, read back as that integer. */
  lemma {:induction false} TokenAtDecimal(t: string, p: nat, n: int, q: nat)
    requires LongMin <= n <= LongMax
    requires HoldsAt(t, p, DecimalString(n)) && q == p + |DecimalString(n)| && Delimited(t, q)
    ensures TokenAt(t, p) == (Int(n), q)
  {
    TokenEndDecimal(t, p, n, q);
    TokenValueDecimal(n);
    HoldsSlice(t, p, DecimalString(n), q);
    TokenAtValue(t, p, q, DecimalString(n));
  }

  /** The rest of the text does not start with a literal whose first char is not the next char. */
  lemma {:induction false} NotPrefix(t: string, q: nat, lit: string)
    requires q < |t| && lit != [] && t[q] != lit[0]
    ensures !StartsWith(t[q..], lit)
  {
    assert t[q..][0] == t[q];
  }

  /** `null`, `true` and `false` as written read back through the literal branches of `parseValue`. */
  lemma {:induction false} LiteralAt(t: string, q: nat, v: Value, e: nat)
    requires v.Null? || v.Bool?
    requires HoldsAt(t, q, Serialize(v)) && e == q + |Serialize(v)|
    ensures ScalarAt(t, q) == (v, e)
  {
    var lit := Serialize(v);
    First(t, q, lit);
    assert StartsWith(t[q..], lit);
    if v == Bool(true) {
      assert e == q + 4;
    } else if v == Bool(false) {
      NotPrefix(t, q, "true");
      assert e == q + 5;
    } else {
      NotPrefix(t, q, "true");
      NotPrefix(t, q, "false");
      assert e == q + 4;
    }
  }

  /** Past a char that opens no string and no literal, the scalar branch reads a bare token. */
  lemma {:induction false} ScalarAtToken(t: string, q: nat)
    requires q < |t| && t[q] != '"' && t[q] != 't' && t[q] != 'f' && t[q] != 'n'
    ensures ScalarAt(t, q) == TokenAt(t, q)
  {
    NotPrefix(t, q, "true");
    NotPrefix(t, q, "false");
    NotPrefix(t, q, "null");
  }

  /** At an opening quote, the scalar branch reads a string. */
  lemma {:induction false} ScalarAtString(t: string, q: nat, s: string, e: nat)
    requires q < |t| && t[q] == '"' && StringAt(t, q) == (s, e)
    ensures ScalarAt(t, q) == (Str(s), e)
  {
  }

  /** The first char of the writer's output, which selects the reader's branch. */
  lemma {:induction false} FirstChar(v: Value)
    requires !v.Float?
    ensures |Serialize(v)| > 0
    ensures var c := Serialize(v)[0];
      match v
      case Null => c == 'n'
      case Bool(b) => c == (if b then 't' else 'f')
      case Int(_) => c == '-' || IsDigit(c)
      case Str(_) => c == '"'
      case Obj(_) => c == '{'
      case Arr(_) => c == '['
      case Float(_) => true
  {
    if v.Int? {
      DecimalChars(v.n, 0);
    }
  }

  /** A written integer in the `long` range, then a delimiter, reads back as the integer. */
  lemma {:induction false} IntAtText(t: string, p: nat, v: Value, e: nat)
    requires v.Int? && LongMin <= v.n <= LongMax
    requires HoldsAt(t, p, Serialize(v)) && e == p + |Serialize(v)| && Delimited(t, e)
    ensures ScalarAt(t, p) == (v, e)
  {
    var d := DecimalString(v.n);
    assert Serialize(v) == d;
    DecimalChars(v.n, 0);
    First(t, p, d);
    ScalarAtToken(t, p);
    TokenAtDecimal(t, p, v.n, e);
  }

  /** A written string reads back as the string. */
  lemma {:induction false} StrAtText(t: string, p: nat, v: Value, e: nat)
    requires v.Str? && HoldsAt(t, p, Serialize(v)) && e == p + |Serialize(v)|
    ensures ScalarAt(t, p) == (v, e)
  {
    assert Serialize(v) == Quote(v.s);
    QuoteLayout(t, p, v.s, p + 1);
    StringAtQuoted(t, p, v.s, e);
    ScalarAtString(t, p, v.s, e);
  }

  // ---------------------------------------------------------------------------
  // One step of the reader, stated in the shape of its function bodies
  // ---------------------------------------------------------------------------

  /** Where no whitespace comes first and no container opens, `parseValue` reads a scalar. */
  lemma {:induction false} ValueAtScalar(t: string, p: nat, v: Value, e: nat)
    requires p < |t| && !IsWhitespace(t[p]) && t[p] != '{' && t[p] != '['
    requires ScalarAt(t, p) == (v, e)
    ensures ValueAt(t, p) == Done(v, e)
  {
  }

  /** At `{`, `parseValue` hands over to `parseObject`. */
  lemma {:induction false} ValueAtObject(t: string, p: nat)
    requires p < |t| && WsEnd(t, p) == p && t[p] == '{'
    ensures ValueAt(t, p) == ObjectAt(t, p)
  {
  }

  /** At `[`, `parseValue` hands over to `parseArray`. */
  lemma {:induction false} ValueAtArray(t: string, p: nat)
    requires p < |t| && WsEnd(t, p) == p && t[p] == '['
    ensures ValueAt(t, p) == ArrayAt(t, p)
  {
  }

  lemma {:induction false} ObjectAtEmpty(t: string, p: nat, q: nat, e: nat)
    requires q == p + 1 && q < |t| && WsEnd(t, q) == q && t[q] == '}' && e == q + 1
    ensures ObjectAt(t, p) == Done(Obj([]), e)
  {
  }

  lemma {:induction false} ObjectAtEntries(t: string, p: nat, q: nat)
    requires q == p + 1 && q < |t| && WsEnd(t, q) == q && t[q] != '}'
    ensures ObjectAt(t, p) == ObjectLoop(t, q, [])
  {
  }

  lemma {:induction false} ArrayAtEmpty(t: string, p: nat, q: nat, e: nat)
    requires q == p + 1 && q < |t| && WsEnd(t, q) == q && t[q] == ']' && e == q + 1
    ensures ArrayAt(t, p) == Done(Arr([]), e)
  {
  }

  lemma {:induction false} ArrayAtItems(t: string, p: nat, q: nat)
    requires q == p + 1 && q < |t| && WsEnd(t, q) == q && t[q] != ']'
    ensures ArrayAt(t, p) == ArrayLoop(t, q, [])
  {
  }

  /** A key at `p` read up to `q1`, its `:` stepped over up to `q2`, then a value: one member is read. */
  lemma {:induction false} MemberRead(t: string, p: nat, k: string, q1: nat, q2: nat, v: Value, q3: nat)
    requires p < |t| && WsEnd(t, p) == p && StringAt(t, p) == (k, q1)
    requires q1 <= |t| && WsEnd(t, q1) == q1 && ConsumeAt(t, q1, ':') == q2
    requires ValueAt(t, q2) == Done(v, q3)
    ensures MemberAt(t, p) == Done((k, v), q3)
  {
  }

  /** A value with no whitespace after it is one item of the array loop. */
  lemma {:induction false} ItemRead(t: string, p: nat, v: Value, q: nat)
    requires p <= |t| && ValueAt(t, p) == Done(v, q) && WsEnd(t, q) == q
    ensures ItemAt(t, p) == Done(v, q)
  {
  }

  /** A pass of the object loop whose member is followed by `,`. */
  lemma {:induction false} ObjectLoopNext(t: string, p: nat, done: seq<(string, Value)>, k: string, v: Value, q: nat, n: nat, es: seq<(string, Value)>)
    requires p < |t| && MemberAt(t, p) == Done((k, v), q)
    requires q < |t| && t[q] == ',' && WsEnd(t, q) == q && ConsumeAt(t, q, ',') == n
    requires Put(done, k, v) == es
    ensures ObjectLoop(t, p, done) == ObjectLoop(t, n, es)
  {
  }

  /** A pass of the object loop whose member is followed by `}`. */
  lemma {:induction false} ObjectLoopLast(t: string, p: nat, done: seq<(string, Value)>, k: string, v: Value, q: nat, n: nat, es: seq<(string, Value)>)
    requires p < |t| && MemberAt(t, p) == Done((k, v), q)
    requires q < |t| && t[q] == '}' && WsEnd(t, q) == q && n == q + 1
    requires Put(done, k, v) == es
    ensures ObjectLoop(t, p, done) == Done(Obj(es), n)
  {
  }

  /** A pass of the array loop whose item is followed by `,`. */
  lemma {:induction false} ArrayLoopNext(t: string, p: nat, items: seq<Value>, v: Value, q: nat, n: nat, items': seq<Value>)
    requires p < |t| && ItemAt(t, p) == Done(v, q)
    requires q < |t| && t[q] == ',' && ConsumeAt(t, q, ',') == n && n != p
    requires items' == items + [v]
    ensures ArrayLoop(t, p, items) == ArrayLoop(t, n, items')
  {
  }

  /** A pass of the array loop whose item is followed by `]`. */
  lemma {:induction false} ArrayLoopLast(t: string, p: nat, items: seq<Value>, v: Value, q: nat, n: nat, items': seq<Value>)
    requires p < |t| && ItemAt(t, p) == Done(v, q)
    requires q < |t| && t[q] == ']' && n == q + 1
    requires items' == items + [v]
    ensures ArrayLoop(t, p, items) == Done(Arr(items'), n)
  {
  }

  // ---------------------------------------------------------------------------
  // How containers lie in the text
  // ---------------------------------------------------------------------------

  /** A written key and its `:` read back as the key, with the reader just past the `:`. */
  lemma {:induction false} KeyAt(t: string, p: nat, k: string, q1: nat, q2: nat)
    requires HoldsAt(t, p, Quote(k) + ":") && q1 == p + |Quote(k)| && q2 == q1 + 1
    ensures p < |t| && WsEnd(t, p) == p && StringAt(t, p) == (k, q1)
    ensures q1 < |t| && WsEnd(t, q1) == q1 && ConsumeAt(t, q1, ':') == q2
  {
    Split(t, p, Quote(k), ":", q1);
    QuoteLayout(t, p, k, p + 1);
    AtChar(t, p);
    StringAtQuoted(t, p, k, q1);
    First(t, q1, ":");
    AtChar(t, q1);
  }

  /** A key new to the map read so far goes last. */
  lemma {:induction false} PutNew(done: seq<(string, Value)>, k: string, v: Value)
    requires KeyIndex(done, k).None?
    ensures Put(done, k, v) == done + [(k, v)]
  {
    PutSpec(done, k, v);
  }

  lemma {:induction false} AppendFirst<T>(done: seq<T>, rest: seq<T>)
    requires rest != []
    ensures done + [rest[0]] + rest[1..] == done + rest
    ensures |rest| == 1 ==> done + [rest[0]] == done + rest
  {
    assert rest == [rest[0]] + rest[1..];
  }

  /** Keys that are distinct are, each in turn, new to those before them. */
  lemma {:induction false} DistinctNewKeys(done: seq<(string, Value)>, rest: seq<(string, Value)>)
    requires DistinctKeys(done + rest)
    ensures NewKeys(done, rest)
    decreases |rest|
  {
    if rest != [] {
      forall i | 0 <= i < |done| ensures done[i].0 != rest[0].0 {
        assert (done + rest)[i] == done[i] && (done + rest)[|done|] == rest[0];
      }
      AppendFirst(done, rest);
      DistinctNewKeys(done + [rest[0]], rest[1..]);
    }
  }

  /** Each key in turn is new: the first goes last by `put`, and the others stay new after it. */
  lemma {:induction false} NewKeysFront(done: seq<(string, Value)>, rest: seq<(string, Value)>)
    requires rest != [] && NewKeys(done, rest)
    ensures KeyIndex(done, rest[0].0).None?
    ensures NewKeys(done + [rest[0]], rest[1..])
    ensures done + [rest[0]] + rest[1..] == done + rest
    ensures |rest| == 1 ==> done + [rest[0]] == done + rest
  {
    AppendFirst(done, rest);
  }

  lemma {:induction false} WireEntriesTail(es: seq<(string, Value)>)
    requires es != [] && WireEntries(es)
    ensures Wire(es[0].1) && WireEntries(es[1..])
  {
    forall i | 0 <= i < |es| - 1 ensures Wire(es[1..][i].1) {
      assert es[1..][i] == es[i + 1];
    }
  }

  lemma {:induction false} WireItemsTail(vs: seq<Value>)
    requires vs != [] && WireItems(vs)
    ensures Wire(vs[0]) && WireItems(vs[1..])
  {
    forall i | 0 <= i < |vs| - 1 ensures Wire(vs[1..][i]) {
      assert vs[1..][i] == vs[i + 1];
    }
  }

  /** Two pieces of text joined by `,`: the comma sits at `m`, the second piece starts at `n`. */
  lemma {:induction false} CommaSplit(t: string, p: nat, a: string, b: string, m: nat, n: nat)
    requires HoldsAt(t, p, a + "," + b) && m == p + |a| && n == m + 1
    ensures |a + "," + b| == |a| + 1 + |b|
    ensures HoldsAt(t, p, a) && m < |t| && t[m] == ',' && HoldsAt(t, n, b)
  {
    Split(t, p, a + ",", b, n);
    Split(t, p, a, ",", m);
    First(t, m, ",");
  }

  /** The text of a map's entries: the first member, then `,` and the text of the others. */
  lemma {:induction false} EntriesFront(es: seq<(string, Value)>)
    requires es != []
    ensures var member := Quote(es[0].0) + ":" + Serialize(es[0].1);
      SerializeEntries(es) == if |es| == 1 then member else member + "," + SerializeEntries(es[1..])
  {
  }

  /** The text of a list's items: the first item, then `,` and the text of the others. */
  lemma {:induction false} ItemsFront(vs: seq<Value>)
    requires vs != []
    ensures SerializeItems(vs) == if |vs| == 1 then Serialize(vs[0]) else Serialize(vs[0]) + "," + SerializeItems(vs[1..])
  {
  }

  /**
   * How a map's entries and its `}` lie in the text: the first member up to `m`,
   * then `}` at `m`, or `,` at `m` and the others from `n`.
   */
  lemma {:induction false} EntriesTextFront(t: string, p: nat, rest: seq<(string, Value)>, m: nat, n: nat)
    requires rest != [] && HoldsAt(t, p, SerializeEntries(rest) + "}")
    requires m == p + |Quote(rest[0].0)| + 1 + |Serialize(rest[0].1)| && n == m + 1
    ensures HoldsAt(t, p, Quote(rest[0].0) + ":" + Serialize(rest[0].1)) && m < |t|
    ensures |rest| == 1 ==> t[m] == '}' && p + |SerializeEntries(rest)| == m
    ensures |rest| > 1 ==> t[m] == ',' && HoldsAt(t, n, SerializeEntries(rest[1..]) + "}")
                           && p + |SerializeEntries(rest)| == n + |SerializeEntries(rest[1..])|
  {
    var member := Quote(rest[0].0) + ":" + Serialize(rest[0].1);
    EntriesFront(rest);
    if |rest| == 1 {
      assert SerializeEntries(rest) + "}" == member + "}";
      Split(t, p, member, "}", m);
      First(t, m, "}");
    } else {
      var others := SerializeEntries(rest[1..]);
      assert SerializeEntries(rest) + "}" == member + "," + (others + "}");
      CommaSplit(t, p, member, others + "}", m, n);
    }
  }

  /**
   * How a list's items and its `]` lie in the text: the first item up to `m`,
   * then `]` at `m`, or `,` at `m` and the others from `n`.
   */
  lemma {:induction false} ItemsTextFront(t: string, p: nat, rest: seq<Value>, m: nat, n: nat)
    requires rest != [] && HoldsAt(t, p, SerializeItems(rest) + "]")
    requires m == p + |Serialize(rest[0])| && n == m + 1
    ensures HoldsAt(t, p, Serialize(rest[0])) && m < |t|
    ensures |rest| == 1 ==> t[m] == ']' && p + |SerializeItems(rest)| == m
    ensures |rest| > 1 ==> t[m] == ',' && HoldsAt(t, n, SerializeItems(rest[1..]) + "]")
                           && p + |SerializeItems(rest)| == n + |SerializeItems(rest[1..])|
  {
    var item := Serialize(rest[0]);
    ItemsFront(rest);
    if |rest| == 1 {
      assert SerializeItems(rest) + "]" == item + "]";
      Split(t, p, item, "]", m);
      First(t, m, "]");
    } else {
      var others := SerializeItems(rest[1..]);
      assert SerializeItems(rest) + "]" == item + "," + (others + "]");
      CommaSplit(t, p, item, others + "]", m, n);
    }
  }

  /** How a written map lies in the text: `{`, then from `q` the entries and `}`. */
  lemma {:induction false} ObjectTextLayout(t: string, p: nat, es: seq<(string, Value)>, q: nat)
    requires HoldsAt(t, p, Serialize(Obj(es))) && q == p + 1
    ensures |Serialize(Obj(es))| == |SerializeEntries(es)| + 2
    ensures p < |t| && t[p] == '{' && HoldsAt(t, q, SerializeEntries(es) + "}")
  {
    assert Serialize(Obj(es)) == "{" + (SerializeEntries(es) + "}");
    Split(t, p, "{", SerializeEntries(es) + "}", q);
    First(t, p, "{");
  }

  /** How a written list lies in the text: `[`, then from `q` the items and `]`. */
  lemma {:induction false} ArrayTextLayout(t: string, p: nat, vs: seq<Value>, q: nat)
    requires HoldsAt(t, p, Serialize(Arr(vs))) && q == p + 1
    ensures |Serialize(Arr(vs))| == |SerializeItems(vs)| + 2
    ensures p < |t| && t[p] == '[' && HoldsAt(t, q, SerializeItems(vs) + "]")
  {
    assert Serialize(Arr(vs)) == "[" + (SerializeItems(vs) + "]");
    Split(t, p, "[", SerializeItems(vs) + "]", q);
    First(t, p, "[");
  }

  /** The entries of a non-empty map open with the quote of the first key. */
  lemma {:induction false} EntriesOpen(es: seq<(string, Value)>)
    requires es != []
    ensures |SerializeEntries(es)| > 0 && SerializeEntries(es)[0] == '"'
  {
    EntriesFront(es);
    assert Quote(es[0].0)[0] == '"';
  }

  /** The items of a non-empty list open with the first char of the first item. */
  lemma {:induction false} ItemsOpen(vs: seq<Value>)
    requires vs != [] && Wire(vs[0])
    ensures |SerializeItems(vs)| > 0 && SerializeItems(vs)[0] == Serialize(vs[0])[0]
    ensures Serialize(vs[0])[0] != ']' && !IsWhitespace(Serialize(vs[0])[0])
  {
    ItemsFront(vs);
    FirstChar(vs[0]);
  }

  // ---------------------------------------------------------------------------
  // The reader over the writer's text
  // ---------------------------------------------------------------------------

  /** `parseValue` reads back a written scalar that a delimiter or the end follows. */
  lemma {:induction false} ValueAtScalarText(t: string, p: nat, v: Value, e: nat)
    requires Scalar(v) && HoldsAt(t, p, Serialize(v)) && e == p + |Serialize(v)| && Delimited(t, e)
    ensures ValueAt(t, p) == Done(v, e)
  {
    FirstChar(v);
    First(t, p, Serialize(v));
    if v.Null? || v.Bool? {
      LiteralAt(t, p, v, e);
    } else if v.Int? {
      IntAtText(t, p, v, e);
    } else {
      StrAtText(t, p, v, e);
    }
    ValueAtScalar(t, p, v, e);
  }

  /** One written member `"k":v`, followed by a delimiter at `e`, is read back as the pair. */
  lemma {:induction false} MemberText(t: string, p: nat, k: string, v: Value, e: nat)
    requires Wire(v) && HoldsAt(t, p, Quote(k) + ":" + Serialize(v))
    requires e == p + |Quote(k)| + 1 + |Serialize(v)| && Delimited(t, e)
    ensures p < |t| && MemberAt(t, p) == Done((k, v), e)
    decreases |Serialize(v)| + 1, 4
  {
    var q1 := p + |Quote(k)|;
    var q2 := q1 + 1;
    Split(t, p, Quote(k) + ":", Serialize(v), q2);
    KeyAt(t, p, k, q1, q2);
    ValueText(t, q2, v, e);
    MemberRead(t, p, k, q1, q2, v, e);
  }

  /** One written item, followed by `,` or `]` at `e`, is read back as the item. */
  lemma {:induction false} ItemText(t: string, p: nat, v: Value, e: nat)
    requires Wire(v) && HoldsAt(t, p, Serialize(v)) && e == p + |Serialize(v)|
    requires e < |t| && (t[e] == ',' || t[e] == ']')
    ensures ItemAt(t, p) == Done(v, e)
    decreases |Serialize(v)|, 4
  {
    ValueText(t, p, v, e);
    AtChar(t, e);
    ItemRead(t, p, v, e);
  }

  /**
   * `parseValue` reads back any written value that a delimiter or the end
   * follows: a scalar directly, a map or a list through the loops, which
   * read their members and items back by this same lemma.
   */
  lemma {:induction false} ValueText(t: string, p: nat, v: Value, e: nat)
    requires Wire(v) && HoldsAt(t, p, Serialize(v)) && e == p + |Serialize(v)| && Delimited(t, e)
    ensures ValueAt(t, p) == Done(v, e)
    decreases |Serialize(v)|, 3
  {
    if v.Obj? {
      FirstChar(v);
      First(t, p, Serialize(v));
      AtChar(t, p);
      ValueAtObject(t, p);
      ObjectText(t, p, v.entries, e);
    } else if v.Arr? {
      FirstChar(v);
      First(t, p, Serialize(v));
      AtChar(t, p);
      ValueAtArray(t, p);
      ArrayText(t, p, v.items, e);
    } else {
      ValueAtScalarText(t, p, v, e);
    }
  }

  /**
   * What the object loop returns from `p`. Proofs about the loop as a whole go through this
   * name, so that they do not look inside one pass of the loop.
   */
  ghost function ObjectLoopFrom(t: string, p: nat, done: seq<(string, Value)>): Parse<Value>
    requires p <= |t|
  {
    ObjectLoop(t, p, done)
  }

  /** What the array loop returns from `p`, named as `ObjectLoopFrom` is. */
  ghost function ArrayLoopFrom(t: string, p: nat, items: seq<Value>): Parse<Value>
    requires p <= |t|
  {
    ArrayLoop(t, p, items)
  }

  /** A pass of the object loop over a member, read up to `m`, whose key is new. */
  lemma {:induction false} ObjectLoopStep(t: string, p: nat, done: seq<(string, Value)>, kv: (string, Value), m: nat, n: nat)
    requires p < m < |t| && MemberAt(t, p) == Done(kv, m) && (t[m] == ',' || t[m] == '}') && n == m + 1
    requires KeyIndex(done, kv.0).None?
    ensures t[m] == ',' ==> ObjectLoopFrom(t, p, done) == ObjectLoopFrom(t, n, done + [kv])
    ensures t[m] == '}' ==> ObjectLoopFrom(t, p, done) == Done(Obj(done + [kv]), n)
  {
    AtChar(t, m);
    PutNew(done, kv.0, kv.1);
    assert kv == (kv.0, kv.1);
    if t[m] == ',' {
      ObjectLoopNext(t, p, done, kv.0, kv.1, m, n, done + [kv]);
    } else {
      ObjectLoopLast(t, p, done, kv.0, kv.1, m, n, done + [kv]);
    }
  }

  /** A pass of the array loop over an item read up to `m`. */
  lemma {:induction false} ArrayLoopStep(t: string, p: nat, done: seq<Value>, v: Value, m: nat, n: nat)
    requires p <= m < |t| && ItemAt(t, p) == Done(v, m) && (t[m] == ',' || t[m] == ']') && n == m + 1
    ensures t[m] == ',' ==> ArrayLoopFrom(t, p, done) == ArrayLoopFrom(t, n, done + [v])
    ensures t[m] == ']' ==> ArrayLoopFrom(t, p, done) == Done(Arr(done + [v]), n)
  {
    AtChar(t, m);
    if t[m] == ',' {
      ArrayLoopNext(t, p, done, v, m, n, done + [v]);
    } else {
      ArrayLoopLast(t, p, done, v, m, n, done + [v]);
    }
  }

  /** The first written member of the remaining entries is read back, up to `m`. */
  lemma {:induction false} FirstMemberText(t: string, p: nat, rest: seq<(string, Value)>, m: nat)
    requires rest != [] && Wire(rest[0].1) && HoldsAt(t, p, SerializeEntries(rest) + "}")
    requires m == p + |Quote(rest[0].0)| + 1 + |Serialize(rest[0].1)|
    ensures p < m < |t| && MemberAt(t, p) == Done(rest[0], m)
    ensures |rest| == 1 ==> t[m] == '}'
    ensures |rest| > 1 ==> t[m] == ','
    decreases |SerializeEntries(rest)| + 1, 0
  {
    var k, v := rest[0].0, rest[0].1;
    assert rest[0] == (k, v);
    EntriesFront(rest);
    EntriesTextFront(t, p, rest, m, m + 1);
    MemberText(t, p, k, v, m);
  }

  /** The object loop reads back the remaining written entries and the closing brace, up to `e`. */
  lemma {:induction false} ObjectLoopText(t: string, p: nat, done: seq<(string, Value)>, rest: seq<(string, Value)>, e: nat)
    requires rest != [] && WireEntries(rest) && NewKeys(done, rest)
    requires HoldsAt(t, p, SerializeEntries(rest) + "}") && e == p + |SerializeEntries(rest)| + 1
    ensures p <= |t| && ObjectLoopFrom(t, p, done) == Done(Obj(done + rest), e)
    decreases |SerializeEntries(rest)| + 1, 1
  {
    var m := p + |Quote(rest[0].0)| + 1 + |Serialize(rest[0].1)|;
    var n := m + 1;
    WireEntriesTail(rest);
    FirstMemberText(t, p, rest, m);
    EntriesTextFront(t, p, rest, m, n);
    NewKeysFront(done, rest);
    ObjectLoopStep(t, p, done, rest[0], m, n);
    if |rest| > 1 {
      ObjectLoopText(t, n, done + [rest[0]], rest[1..], e);
    } else {
      assert e == n;
    }
  }

  /** The first written item of the remaining items is read back, up to `m`. */
  lemma {:induction false} FirstItemText(t: string, p: nat, rest: seq<Value>, m: nat)
    requires rest != [] && Wire(rest[0]) && HoldsAt(t, p, SerializeItems(rest) + "]")
    requires m == p + |Serialize(rest[0])|
    ensures p <= m < |t| && ItemAt(t, p) == Done(rest[0], m)
    ensures |rest| == 1 ==> t[m] == ']'
    ensures |rest| > 1 ==> t[m] == ','
    decreases |SerializeItems(rest)| + 1, 0
  {
    ItemsFront(rest);
    ItemsTextFront(t, p, rest, m, m + 1);
    ItemText(t, p, rest[0], m);
  }

  /** The array loop reads back the remaining written items and the closing bracket, up to `e`. */
  lemma {:induction false} ArrayLoopText(t: string, p: nat, done: seq<Value>, rest: seq<Value>, e: nat)
    requires rest != [] && WireItems(rest)
    requires HoldsAt(t, p, SerializeItems(rest) + "]") && e == p + |SerializeItems(rest)| + 1
    ensures p <= |t| && ArrayLoopFrom(t, p, done) == Done(Arr(done + rest), e)
    decreases |SerializeItems(rest)| + 1, 1
  {
    var m := p + |Serialize(rest[0])|;
    var n := m + 1;
    WireItemsTail(rest);
    FirstItemText(t, p, rest, m);
    ItemsTextFront(t, p, rest, m, n);
    AppendFirst(done, rest);
    ArrayLoopStep(t, p, done, rest[0], m, n);
    if |rest| > 1 {
      ArrayLoopText(t, n, done + [rest[0]], rest[1..], e);
    } else {
      assert e == n;
    }
  }

  /** `parseObject` reads back a written map with distinct keys. */
  lemma {:induction false} ObjectText(t: string, p: nat, es: seq<(string, Value)>, e: nat)
    requires DistinctKeys(es) && WireEntries(es)
    requires HoldsAt(t, p, Serialize(Obj(es))) && e == p + |Serialize(Obj(es))|
    ensures ObjectAt(t, p) == Done(Obj(es), e)
    decreases |Serialize(Obj(es))|, 2
  {
    var q := p + 1;
    ObjectTextLayout(t, p, es, q);
    if es == [] {
      assert SerializeEntries(es) + "}" == "}";
      First(t, q, "}");
      AtChar(t, q);
      ObjectAtEmpty(t, p, q, e);
    } else {
      EntriesOpen(es);
      First(t, q, SerializeEntries(es) + "}");
      AtChar(t, q);
      ObjectAtEntries(t, p, q);
      DistinctNewKeys([], es);
      assert [] + es == es;
      ObjectLoopText(t, q, [], es, e);
    }
  }

  /** `parseArray` reads back a written list. */
  lemma {:induction false} ArrayText(t: string, p: nat, vs: seq<Value>, e: nat)
    requires WireItems(vs) && HoldsAt(t, p, Serialize(Arr(vs))) && e == p + |Serialize(Arr(vs))|
    ensures ArrayAt(t, p) == Done(Arr(vs), e)
    decreases |Serialize(Arr(vs))|, 2
  {
    var q := p + 1;
    ArrayTextLayout(t, p, vs, q);
    if vs == [] {
      assert SerializeItems(vs) + "]" == "]";
      First(t, q, "]");
      AtChar(t, q);
      ArrayAtEmpty(t, p, q, e);
    } else {
      WireItemsTail(vs);
      ItemsOpen(vs);
      First(t, q, SerializeItems(vs) + "]");
      AtChar(t, q);
      ArrayAtItems(t, p, q);
      assert [] + vs == vs;
      ArrayLoopText(t, q, [], vs, e);
    }
  }

  /** The written text of `v` leads the text `t`, and a delimiter or the end follows it. */
  lemma {:induction false} LeadingText(s: string, tail: string, t: string)
    requires t == s + tail && (tail == [] || IsTokenEnd(tail[0]))
    ensures HoldsAt(t, 0, s) && Delimited(t, |s|)
  {
    assert t[0..][..|s|] == s;
    if tail != [] {
      assert t[|s|] == tail[0];
    }
  }

  /**
   * `parse` reads the written value back from the front of a text and does not
   * look at what follows it, beyond the whitespace after it.
   */
  lemma {:induction false} RoundTripWithTail(v: Value, tail: string)
    requires Wire(v) && (tail == [] || IsTokenEnd(tail[0]))
    ensures var t := Serialize(v) + tail; ParseText(Some(t)) == Done(v, WsEnd(t, |Serialize(v)|))
  {
    var s := Serialize(v);
    var t := s + tail;
    LeadingText(s, tail, t);
    FirstChar(v);
    First(t, 0, s);
    AtChar(t, 0);
    ValueText(t, 0, v, |s|);
  }

  /** `parse(stringify(v)) == v`: the whole text is read, and gives back `v`. */
  lemma {:induction false} RoundTrip(v: Value)
    requires Wire(v)
    ensures ParseText(Some(Serialize(v))) == Done(v, |Serialize(v)|)
  {
    RoundTripWithTail(v, []);
    assert Serialize(v) + [] == Serialize(v);
  }

  /** A map written by `stringify` reads back by `parseObject` unchanged. */
  lemma {:induction false} ObjectRoundTrip(es: seq<(string, Value)>)
    requires Wire(Obj(es))
    ensures ParseObjectText(Some(Serialize(Obj(es)))) == Done(es, |Serialize(Obj(es))|)
  {
    RoundTrip(Obj(es));
  }
}
