/**
 * What the reader does with text that the writer never produces: it skips
 * what is missing, keeps what it has read when the text ends, lets a later
 * key win, and never fails, except for the one shape of array on which
 * `parseArray` loops forever.
 */
module JsonLenient {
  import opened Wrappers
  import opened JavaText
  import opened Json

  // ---------------------------------------------------------------------------
  // `consume`
  // ---------------------------------------------------------------------------

  /**
   * `consume(ch)` skips whitespace and nothing else, and steps over `ch` only
   * when `ch` is the next char: a missing `:` or `,` is passed over silently.
   */
  lemma {:induction false} ConsumeSkipsOnlyWhitespace(t: string, p: nat, ch: char)
    requires p <= |t|
    ensures var q := WsEnd(t, p);
      && (q < |t| && t[q] == ch ==> ConsumeAt(t, p, ch) == q + 1)
      && (!(q < |t| && t[q] == ch) ==> ConsumeAt(t, p, ch) == q)
      && forall i :: p <= i < q ==> IsWhitespace(t[i])
  {
    WsEndSkipsWhitespace(t, p);
  }

  // ---------------------------------------------------------------------------
  // `parseString`
  // ---------------------------------------------------------------------------

  /** A string with no closing quote and no `\` is read to the end of the text, char by char. */
  lemma {:induction false} UnterminatedString(t: string, p: nat, acc: string)
    requires p <= |t|
    requires forall i :: p <= i < |t| ==> t[i] != '"' && t[i] != '\\'
    ensures StringBody(t, p, acc) == (acc + t[p..], |t|)
    decreases |t| - p
  {
    if p < |t| {
      UnterminatedString(t, p + 1, acc + [t[p]]);
      assert t[p..] == [t[p]] + t[p + 1..];
      assert acc + [t[p]] + t[p + 1..] == acc + t[p..];
    } else {
      assert acc + t[p..] == acc;
    }
  }

  /** An escape `\x` that `parseString` does not know stands for `x`. */
  lemma {:induction false} UnknownEscape(t: string, p: nat, acc: string, n: char, q: nat)
    requires p + 1 < |t| && t[p] == '\\' && t[p + 1] == n && q == p + 2
    requires n !in "\"\\/bfnrtu"
    ensures StringBody(t, p, acc) == StringBody(t, q, acc + [n])
  {
  }

  /** `\u` with fewer than four chars left stands for nothing, and reading goes on after the `u`. */
  lemma {:induction false} ShortUnicodeEscape(t: string, p: nat, acc: string, q: nat)
    requires p + 1 < |t| && t[p] == '\\' && t[p + 1] == 'u' && q == p + 2 && q + 4 > |t|
    ensures StringBody(t, p, acc) == StringBody(t, q, acc)
  {
    assert acc + "" == acc;
  }

  /** `\u` with four chars that are not hex steps over the four chars and stands for nothing. */
  lemma {:induction false} InvalidHexEscape(t: string, p: nat, acc: string, q: nat, e: nat)
    requires p + 1 < |t| && t[p] == '\\' && t[p + 1] == 'u' && q == p + 2 && e == q + 4 && e <= |t|
    requires ParseHex(t[q..e]).None?
    ensures StringBody(t, p, acc) == StringBody(t, e, acc)
  {
    assert acc + "" == acc;
  }

  /** A `\` that is the last char of the text is kept as it is. */
  lemma {:induction false} TrailingBackslash(t: string, p: nat, acc: string)
    requires p + 1 == |t| && t[p] == '\\'
    ensures StringBody(t, p, acc) == (acc + ['\\'], |t|)
  {
  }

  // ---------------------------------------------------------------------------
  // Containers
  // ---------------------------------------------------------------------------

  /** A map whose text ends after a member holds the members read so far. */
  lemma {:induction false} UnclosedObject(t: string, p: nat, es: seq<(string, Value)>, k: string, v: Value, q: nat)
    requires p < |t| && MemberAt(t, p) == Done((k, v), q) && WsEnd(t, q) == |t|
    ensures ObjectLoop(t, p, es) == Done(Obj(Put(es, k, v)), |t|)
  {
  }

  /** A list whose text ends after an item holds the items read so far. */
  lemma {:induction false} UnclosedArray(t: string, p: nat, items: seq<Value>, v: Value)
    requires p < |t| && ItemAt(t, p) == Done(v, |t|)
    ensures ArrayLoop(t, p, items) == Done(Arr(items + [v]), |t|)
  {
  }

  /** `put` keeps the keys distinct: the map read never holds a key twice. */
  lemma {:induction false} PutKeepsKeysDistinct(es: seq<(string, Value)>, k: string, v: Value)
    requires DistinctKeys(es)
    ensures DistinctKeys(Put(es, k, v))
  {
    PutSpec(es, k, v);
    var r := Put(es, k, v);
    match KeyIndex(es, k)
    case Some(j) =>
      forall a, b | 0 <= a < b < |r| ensures r[a].0 != r[b].0 {
        assert r[a].0 == es[a].0 && r[b].0 == es[b].0;
      }
    case None =>
      forall a, b | 0 <= a < b < |r| ensures r[a].0 != r[b].0 {
        if b == |es| {
          assert r[a] == es[a];
        } else {
          assert r[a] == es[a] && r[b] == es[b];
        }
      }
  }

  /** The object loop keeps the keys read distinct. */
  lemma {:induction false} ObjectLoopKeysDistinct(t: string, p: nat, es: seq<(string, Value)>)
    requires p <= |t| && DistinctKeys(es)
    ensures var r := ObjectLoop(t, p, es); r.Done? ==> DistinctKeys(r.value.entries)
    decreases |t| - p
  {
    if p < |t| {
      match MemberAt(t, p)
      case Diverges =>
      case Done((k, v), q3) =>
        PutKeepsKeysDistinct(es, k, v);
        var q4 := WsEnd(t, q3);
        if !(q4 < |t| && t[q4] == '}') {
          ObjectLoopKeysDistinct(t, ConsumeAt(t, q4, ','), Put(es, k, v));
        }
    }
  }

  /** A map read by `parseObject` never holds a key twice, whatever the text repeats. */
  lemma {:induction false} ObjectKeysDistinct(t: string, p: nat)
    requires p < |t|
    ensures var r := ObjectAt(t, p); r.Done? ==> DistinctKeys(r.value.entries)
  {
    var q := WsEnd(t, p + 1);
    if !(q < |t| && t[q] == '}') {
      ObjectLoopKeysDistinct(t, q, []);
    }
  }

  /**
   * At a `}`, a pass of the array loop reads an empty token, finds neither `]`
   * nor `,`, and ends where it began: the loop never ends.
   */
  lemma {:induction false} ArrayStallsAtBrace(t: string, p: nat, items: seq<Value>)
    requires p < |t| && t[p] == '}'
    ensures ArrayLoop(t, p, items) == Diverges
  {
    assert WsEnd(t, p) == p;
    assert !StartsWith(t[p..], "true") && !StartsWith(t[p..], "false") && !StartsWith(t[p..], "null") by {
      assert t[p..][0] == '}';
    }
    assert TokenEnd(t, p) == p;
    assert t[p..p] == [];
    assert ParseLong([]) == None;
    assert ItemAt(t, p) == Done(Str([]), p);
  }

  /** An item followed by `}` (as in `[1}`) leads the array loop to the stall at that `}`. */
  lemma {:induction false} ArrayItemThenBrace(t: string, p: nat, items: seq<Value>, v: Value, q: nat)
    requires p < q < |t| && ItemAt(t, p) == Done(v, q) && t[q] == '}'
    ensures ArrayLoop(t, p, items) == Diverges
  {
    assert ConsumeAt(t, q, ',') == q;
    ArrayStallsAtBrace(t, q, items + [v]);
  }

  // ---------------------------------------------------------------------------
  // `JsonUtil.parseObject`
  // ---------------------------------------------------------------------------

  /** Only a `{` starts a map: `parseValue` returns a map only from `parseObject`. */
  lemma {:induction false} MapOnlyAtBrace(t: string, p: nat)
    requires p <= |t|
    ensures var r := ValueAt(t, p);
      r.Done? && r.value.Obj? ==> WsEnd(t, p) < |t| && t[WsEnd(t, p)] == '{'
  {
  }

  /** `parseObject` of a text whose first value is not a map gives an empty map. */
  lemma {:induction false} ParseObjectOfNonMap(t: string)
    requires WsEnd(t, 0) == |t| || t[WsEnd(t, 0)] != '{'
    ensures var r := ParseObjectText(Some(t)); r.Done? ==> r.value == []
  {
    var q := WsEnd(t, 0);
    WsEndSkipsWhitespace(t, 0);
    assert WsEnd(t, q) == q;
    MapOnlyAtBrace(t, q);
  }

  /** `parseObject(null)` gives an empty map, as does an empty or blank text. */
  lemma {:induction false} ParseObjectOfNull()
    ensures ParseObjectText(None) == Done([], 0)
  {
    assert WsEnd("", 0) == 0;
  }
}
