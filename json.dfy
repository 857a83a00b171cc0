/**
 * The wire codec of `JsonUtil`: a compact writer and a lenient
 * recursive-descent reader. This module holds the specification functions;
 * `JsonWriter` and `JsonParser` hold the imperative code proved against them.
 */
module Json {
  import opened Wrappers
  import opened JavaText

  /** A decoded wire value: what `JsonUtil` reads into and writes from. */
  datatype Value =
    | Null
    | Bool(b: bool)
    | Int(n: int)                         // a `Long` (or an `Integer` on the way out)
    | Float(token: string)                // a `Double`, kept as the token it was read from
    | Str(s: string)
    | Obj(entries: seq<(string, Value)>)  // a `LinkedHashMap`, in insertion order
    | Arr(items: seq<Value>)

  /** The outcome of a read: a value and the position after it, or a read that never returns. */
  datatype Parse<T> = Done(value: T, next: nat) | Diverges

  const Backspace: char := 8 as char
  const FormFeed: char := 12 as char

  // ===========================================================================
  // Writer (`writeValue`, `writeString`)
  // ===========================================================================

  /** A lower-case hex digit, as `String.format("%04x")` writes it. */
  function HexDigit(d: nat): (c: char)
    requires d < 16
    ensures HexDigitValue(c) == Some(d)
  {
    if d < 10 then ('0' as int + d) as char else ('a' as int + d - 10) as char
  }

  /** What `writeString` emits for one char. */
  function EscapeChar(c: char): string {
    if c == '"' then ['\\', '"']
    else if c == '\\' then ['\\', '\\']
    else if c == Backspace then ['\\', 'b']
    else if c == FormFeed then ['\\', 'f']
    else if c == '\n' then ['\\', 'n']
    else if c == '\r' then ['\\', 'r']
    else if c == '\t' then ['\\', 't']
    else if c < ' ' then ['\\', 'u', '0', '0', HexDigit(c as int / 16), HexDigit(c as int % 16)]
    else [c]
  }

  /** The escaped body of a string literal. */
  function Escape(s: string): string {
    if s == [] then [] else Escape(s[..|s| - 1]) + EscapeChar(s[|s| - 1])
  }

  /** `writeString`: the escaped body between double quotes. */
  function Quote(s: string): string {
    "\"" + Escape(s) + "\""
  }

  /** `writeValue`: canonical text of numbers and booleans, quoted strings, containers in order. */
  function Serialize(v: Value): string
    decreases v, 1
  {
    match v
    case Null => "null"
    case Bool(b) => if b then "true" else "false"
    case Int(n) => DecimalString(n)
    case Float(t) => t
    case Str(s) => Quote(s)
    case Obj(es) => "{" + SerializeEntries(es) + "}"
    case Arr(vs) => "[" + SerializeItems(vs) + "]"
  }

  /** The entries of a map, separated by `,`. */
  function SerializeEntries(es: seq<(string, Value)>): string
    decreases es, 0
  {
    if es == [] then ""
    else
      assert es[0] in es && es[0].1 < es[0];
      var member := Quote(es[0].0) + ":" + Serialize(es[0].1);
      if |es| == 1 then member else member + "," + SerializeEntries(es[1..])
  }

  /** The items of a list, separated by `,`. */
  function SerializeItems(vs: seq<Value>): string
    decreases vs, 0
  {
    if vs == [] then ""
    else
      assert vs[0] in vs;
      if |vs| == 1 then Serialize(vs[0]) else Serialize(vs[0]) + "," + SerializeItems(vs[1..])
  }

  // ===========================================================================
  // Reader (`Parser`): each function takes the text and a position, as the
  // parser's `pos` field, and gives the value read and the new position.
  // ===========================================================================

  /** `skipWs`: the first position at or after `p` that is not whitespace. */
  function WsEnd(t: string, p: nat): (q: nat)
    requires p <= |t|
    ensures p <= q <= |t|
    decreases |t| - p
  {
    if p < |t| && IsWhitespace(t[p]) then WsEnd(t, p + 1) else p
  }

  /** `skipWs` steps over whitespace only, and stops at the end or at the first other char. */
  lemma {:induction false} WsEndSkipsWhitespace(t: string, p: nat)
    requires p <= |t|
    ensures forall i :: p <= i < WsEnd(t, p) ==> IsWhitespace(t[i])
    ensures WsEnd(t, p) == |t| || !IsWhitespace(t[WsEnd(t, p)])
    decreases |t| - p
  {
    if p < |t| && IsWhitespace(t[p]) {
      WsEndSkipsWhitespace(t, p + 1);
    }
  }

  /** `consume(ch)`: skip whitespace, then step over `ch` only if it is there. */
  function ConsumeAt(t: string, p: nat, ch: char): (q: nat)
    requires p <= |t|
    ensures p <= q <= |t|
  {
    var q := WsEnd(t, p);
    if q < |t| && t[q] == ch then q + 1 else q
  }

  /**
   * One escape `\n` whose letter `n` sits just before `p`: the text it
   * stands for and where reading resumes.
   */
  function EscapeAt(t: string, p: nat, n: char): (r: (string, nat))
    requires p <= |t|
    ensures p <= r.1 <= |t|
  {
    if n == '"' then ("\"", p)
    else if n == '\\' then ("\\", p)
    else if n == '/' then ("/", p)
    else if n == 'b' then ([Backspace], p)
    else if n == 'f' then ([FormFeed], p)
    else if n == 'n' then ("\n", p)
    else if n == 'r' then ("\r", p)
    else if n == 't' then ("\t", p)
    else if n == 'u' then
      if p + 4 <= |t| then (HexUnit(t[p..p + 4]), p + 4) else ("", p)
    else ([n], p)
  }

  /** The char a `\uXXXX` escape appends: nothing when `Integer.parseInt(hex, 16)` fails. */
  function HexUnit(hex: string): string {
    match ParseHex(hex)
    case None => ""
    case Some(v) =>
      match CharCast(v)
      case Some(c) => [c]
      case None => ""
  }

  /** The loop of `parseString` from `p` on, with `acc` read so far. */
  function StringBody(t: string, p: nat, acc: string): (r: (string, nat))
    requires p <= |t|
    ensures p <= r.1 <= |t|
    ensures p < |t| ==> p < r.1
    decreases |t| - p
  {
    if p >= |t| then (acc, p)
    else
      var c := t[p];
      if c == '"' then (acc, p + 1)
      else if c == '\\' && p + 1 < |t| then
        var (piece, q) := EscapeAt(t, p + 2, t[p + 1]);
        StringBody(t, q, acc + piece)
      else StringBody(t, p + 1, acc + [c])
  }

  /** `parseString`: an optional opening quote, then chars up to an unescaped quote or the end. */
  function StringAt(t: string, p: nat): (r: (string, nat))
    requires p <= |t|
    ensures p <= r.1 <= |t|
    ensures p < |t| ==> p < r.1
  {
    var q := ConsumeAt(t, p, '"');
    StringBody(t, q, "")
  }

  /** The chars that end a bare token. */
  predicate IsTokenEnd(c: char) {
    c == ',' || c == '}' || c == ']' || IsWhitespace(c)
  }

  /** The end of the bare token that starts at `p`. */
  function TokenEnd(t: string, p: nat): (q: nat)
    requires p <= |t|
    ensures p <= q <= |t|
    decreases |t| - p
  {
    if p < |t| && !IsTokenEnd(t[p]) then TokenEnd(t, p + 1) else p
  }

  /** A bare token holds no delimiter and stops at the end or at the first delimiter. */
  lemma {:induction false} TokenEndStops(t: string, p: nat)
    requires p <= |t|
    ensures forall i :: p <= i < TokenEnd(t, p) ==> !IsTokenEnd(t[i])
    ensures TokenEnd(t, p) == |t| || IsTokenEnd(t[TokenEnd(t, p)])
    decreases |t| - p
  {
    if p < |t| && !IsTokenEnd(t[p]) {
      TokenEndStops(t, p + 1);
    }
  }

  /** The first index at or after `i` that does not hold an ASCII digit. */
  function DigitRun(s: string, i: nat): (j: nat)
    requires i <= |s|
    ensures i <= j <= |s|
    decreases |s| - i
  {
    if i < |s| && IsDigit(s[i]) then DigitRun(s, i + 1) else i
  }

  /**
   * The decimal form that `Double.parseDouble` accepts once trimmed: a sign,
   * digits with at most one `.` and at least one digit, an optional exponent
   * and an optional `f`/`F`/`d`/`D` suffix.
   */
  predicate IsDecimalFloat(s: string) {
    var i0 := if |s| > 0 && (s[0] == '+' || s[0] == '-') then 1 else 0;
    var i1 := DigitRun(s, i0);
    var i2 := if i1 < |s| && s[i1] == '.' then DigitRun(s, i1 + 1) else i1;
    var digits := (i1 - i0) + (if i2 > i1 then i2 - i1 - 1 else 0);
    var i3 :=
      if i2 < |s| && (s[i2] == 'e' || s[i2] == 'E') then
        var j := if i2 + 1 < |s| && (s[i2 + 1] == '+' || s[i2 + 1] == '-') then i2 + 2 else i2 + 1;
        var k := DigitRun(s, j);
        if k > j then k else |s| + 1
      else i2;
    digits > 0 && (i3 == |s| || (i3 + 1 == |s| && s[i3] in "fFdD"))
  }

  /** The `try` of `parseNumberOrStringToken`: a double, else a long, else the token text. */
  function TokenValue(token: string): (v: Value)
    ensures v.Float? || v.Int? || v == Str(token)
    ensures v.Int? ==> LongMin <= v.n <= LongMax && '.' !in token
  {
    if '.' in token || 'e' in token || 'E' in token then
      if IsDecimalFloat(Trim(token)) then Float(token) else Str(token)
    else
      match ParseLong(token)
      case Some(n) => Int(n)
      case None => Str(token)
  }

  /** `parseNumberOrStringToken`: read up to `,` `}` `]` or whitespace, then interpret. */
  function TokenAt(t: string, p: nat): (r: (Value, nat))
    requires p <= |t|
    ensures p <= r.1 <= |t|
  {
    var q := TokenEnd(t, p);
    (TokenValue(t[p..q]), q)
  }

  /** `parseValue`: skip whitespace, then a map, a list, or one of the scalar forms. */
  function ValueAt(t: string, p: nat): (r: Parse<Value>)
    requires p <= |t|
    ensures r.Done? ==> p <= r.next <= |t|
    decreases |t| - p, 3
  {
    var q := WsEnd(t, p);
    if q < |t| && t[q] == '{' then ObjectAt(t, q)
    else if q < |t| && t[q] == '[' then ArrayAt(t, q)
    else
      var (v, e) := ScalarAt(t, q);
      Done(v, e)
  }

  /**
   * The branches of `parseValue` that read no container: nothing left (`null`),
   * a string, the three literals by prefix, or a bare token.
   */
  function ScalarAt(t: string, q: nat): (r: (Value, nat))
    requires q <= |t|
    ensures q <= r.1 <= |t|
  {
    if q >= |t| then (Null, q)
    else if t[q] == '"' then
      var (s, e) := StringAt(t, q);
      (Str(s), e)
    else if StartsWith(t[q..], "true") then (Bool(true), q + 4)
    else if StartsWith(t[q..], "false") then (Bool(false), q + 5)
    else if StartsWith(t[q..], "null") then (Null, q + 4)
    else TokenAt(t, q)
  }

  /** `parseObject`, from the `{` at `p`. */
  function ObjectAt(t: string, p: nat): (r: Parse<Value>)
    requires p < |t|
    ensures r.Done? ==> p < r.next <= |t| && r.value.Obj?
    decreases |t| - p, 2
  {
    var q := WsEnd(t, p + 1);
    if q < |t| && t[q] == '}' then Done(Obj([]), q + 1)
    else ObjectLoop(t, q, [])
  }

  /** The `while` loop of `parseObject` from `p` on, with the entries read so far. */
  function ObjectLoop(t: string, p: nat, entries: seq<(string, Value)>): (r: Parse<Value>)
    requires p <= |t|
    ensures r.Done? ==> p <= r.next <= |t| && r.value.Obj?
    decreases |t| - p, 1
  {
    if p >= |t| then Done(Obj(entries), p)
    else
      match MemberAt(t, p)
      case Diverges => Diverges
      case Done((key, v), q3) =>
        var es := Put(entries, key, v);
        var q4 := WsEnd(t, q3);
        if q4 < |t| && t[q4] == '}' then Done(Obj(es), q4 + 1)
        else ObjectLoop(t, ConsumeAt(t, q4, ','), es)
  }

  /**
   * The member read by one pass of the object loop: whitespace, the key
   * (`parseString`), whitespace, `consume(':')`, then the value. Always
   * moves past `p`, since `parseString` reads at least one char.
   */
  function MemberAt(t: string, p: nat): (r: Parse<(string, Value)>)
    requires p < |t|
    ensures r.Done? ==> p < r.next <= |t|
    decreases |t| - p, 0
  {
    var (key, q1) := StringAt(t, WsEnd(t, p));
    var q2 := ConsumeAt(t, WsEnd(t, q1), ':');
    match ValueAt(t, q2)
    case Diverges => Diverges
    case Done(v, q3) => Done((key, v), q3)
  }

  /** `parseArray`, from the `[` at `p`. */
  function ArrayAt(t: string, p: nat): (r: Parse<Value>)
    requires p < |t|
    ensures r.Done? ==> p < r.next <= |t| && r.value.Arr?
    decreases |t| - p, 2
  {
    var q := WsEnd(t, p + 1);
    if q < |t| && t[q] == ']' then Done(Arr([]), q + 1)
    else ArrayLoop(t, q, [])
  }

  /**
   * The `while` loop of `parseArray` from `p` on, with the items read so far.
   * The loop's only state is the position, so an iteration that ends where it
   * began (`[}` or `[1}`: the value is read as an empty token and neither `]`
   * nor `,` is there to step over) repeats forever: `Diverges`.
   */
  function ArrayLoop(t: string, p: nat, items: seq<Value>): (r: Parse<Value>)
    requires p <= |t|
    ensures r.Done? ==> p <= r.next <= |t| && r.value.Arr?
    decreases |t| - p, 5
  {
    if p >= |t| then Done(Arr(items), p)
    else
      match ItemAt(t, p)
      case Diverges => Diverges
      case Done(v, q1) =>
        if q1 < |t| && t[q1] == ']' then Done(Arr(items + [v]), q1 + 1)
        else
          var q2 := ConsumeAt(t, q1, ',');
          if q2 == p then Diverges
          else ArrayLoop(t, q2, items + [v])
  }

  /** The item read by one pass of the array loop (`parseValue`), and the whitespace after it. */
  function ItemAt(t: string, p: nat): (r: Parse<Value>)
    requires p <= |t|
    ensures r.Done? ==> p <= r.next <= |t|
    decreases |t| - p, 4
  {
    match ValueAt(t, p)
    case Diverges => Diverges
    case Done(v, q) => Done(v, WsEnd(t, q))
  }

  /** No key occurs twice, as in any `Map`. */
  ghost predicate DistinctKeys(es: seq<(string, Value)>) {
    forall i, j :: 0 <= i < j < |es| ==> es[i].0 != es[j].0
  }

  /** The index of the entry with key `k`, if any. */
  function KeyIndex(es: seq<(string, Value)>, k: string): (r: Option<nat>)
    ensures r.Some? ==> r.value < |es| && es[r.value].0 == k
                        && forall i :: 0 <= i < r.value ==> es[i].0 != k
    ensures r.None? ==> forall i :: 0 <= i < |es| ==> es[i].0 != k
  {
    if es == [] then None
    else if es[0].0 == k then Some(0)
    else match KeyIndex(es[1..], k)
      case Some(i) => Some(i + 1)
      case None => None
  }

  /**
   * `LinkedHashMap.put`: a key already present keeps its place and takes the
   * new value; a new key goes last.
   */
  function Put(es: seq<(string, Value)>, k: string, v: Value): seq<(string, Value)> {
    if es == [] then [(k, v)]
    else if es[0].0 == k then [(k, v)] + es[1..]
    else [es[0]] + Put(es[1..], k, v)
  }

  /** `put` replaces the value of a present key in place and appends an absent one. */
  lemma {:induction false} PutSpec(es: seq<(string, Value)>, k: string, v: Value)
    ensures KeyIndex(es, k).Some? ==> Put(es, k, v) == es[KeyIndex(es, k).value := (k, v)]
    ensures KeyIndex(es, k).None? ==> Put(es, k, v) == es + [(k, v)]
  {
    if es != [] && es[0].0 != k {
      PutSpec(es[1..], k, v);
      assert es == [es[0]] + es[1..];
    }
  }

  /** `Parser.parse` from position `p`: whitespace, one value, whitespace; the rest is not looked at. */
  function ParseFrom(t: string, p: nat): (r: Parse<Value>)
    requires p <= |t|
    ensures r.Done? ==> p <= r.next <= |t|
  {
    match ValueAt(t, WsEnd(t, p))
    case Diverges => Diverges
    case Done(v, q) => Done(v, WsEnd(t, q))
  }

  /** `JsonUtil.parse`: a `null` text reads as empty; text after the first value is ignored. */
  function ParseText(json: Option<string>): Parse<Value> {
    ParseFrom(json.GetOr(""), 0)
  }

  /** `JsonUtil.parseObject`: the map read, or an empty map when the text is not one. */
  function ParseObjectText(json: Option<string>): Parse<seq<(string, Value)>> {
    match ParseText(json)
    case Diverges => Diverges
    case Done(v, q) => Done(if v.Obj? then v.entries else [], q)
  }
}
