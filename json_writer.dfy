/**
 * `JsonUtil.stringify`, `writeValue` and `writeString`: the writer appends
 * into one shared `StringBuilder` as it walks the value, and is proved to
 * produce exactly `Serialize`.
 */
module JsonWriter {
  import opened Json
  import opened Seqs

  /** The part of `java.lang.StringBuilder` the writer uses. */
  class StringBuilder {
    var content: string

    constructor()
      ensures content == []
    {
      content := [];
    }

    method Append(s: string)
      modifies this
      ensures content == old(content) + s
    {
      content := content + s;
    }
  }

  /** The text of one map entry, `"key":value`. */
  function Member(kv: (string, Value)): string {
    Quote(kv.0) + ":" + Serialize(kv.1)
  }

  lemma {:induction false} Regroup(a: string, b: string, c: string, d: string, e: string)
    ensures a + b + (c + d + e) == a + b + c + d + e
  {
  }

  /** Entries written one after the other: a `,` goes before every entry but the first. */
  lemma {:induction false} EntriesSnoc(es: seq<(string, Value)>, kv: (string, Value))
    ensures SerializeEntries(es + [kv]) == SerializeEntries(es) + (if es == [] then "" else ",") + Member(kv)
    decreases |es|
  {
    var all := es + [kv];
    if es == [] {
      assert all == [kv];
    } else {
      SnocFront(es, kv);
      EntriesSnoc(es[1..], kv);
      var m0, rest := Member(es[0]), SerializeEntries(es[1..]);
      var sep := if es[1..] == [] then "" else ",";
      assert SerializeEntries(all) == m0 + "," + (rest + sep + Member(kv));
      if |es| == 1 {
        assert rest + sep + Member(kv) == Member(kv);
      } else {
        assert SerializeEntries(es) == m0 + "," + rest;
        Regroup(m0, ",", rest, sep, Member(kv));
      }
    }
  }

  /** Items written one after the other: a `,` goes before every item but the first. */
  lemma {:induction false} ItemsSnoc(vs: seq<Value>, v: Value)
    ensures SerializeItems(vs + [v]) == SerializeItems(vs) + (if vs == [] then "" else ",") + Serialize(v)
    decreases |vs|
  {
    var all := vs + [v];
    if vs == [] {
      assert all == [v];
    } else {
      SnocFront(vs, v);
      ItemsSnoc(vs[1..], v);
      var m0, rest := Serialize(vs[0]), SerializeItems(vs[1..]);
      var sep := if vs[1..] == [] then "" else ",";
      assert SerializeItems(all) == m0 + "," + (rest + sep + Serialize(v));
      if |vs| == 1 {
        assert rest + sep + Serialize(v) == Serialize(v);
      } else {
        assert SerializeItems(vs) == m0 + "," + rest;
        Regroup(m0, ",", rest, sep, Serialize(v));
      }
    }
  }

  /** One more escaped char: the escape of a prefix grows by that char's escape. */
  lemma {:induction false} EscapePrefix(s: string, i: nat)
    requires i < |s|
    ensures Escape(s[..i + 1]) == Escape(s[..i]) + EscapeChar(s[i])
  {
    assert s[..i + 1][..i] == s[..i];
  }

  /** The `switch` of `writeString`: one char, escaped as section 7 of RFC 8259 allows. */
  method WriteEscaped(sb: StringBuilder, c: char)
    modifies sb
    ensures sb.content == old(sb.content) + EscapeChar(c)
  {
    if c == '"' {
      sb.Append("\\\"");
    } else if c == '\\' {
      sb.Append("\\\\");
    } else if c == Backspace {
      sb.Append("\\b");
    } else if c == FormFeed {
      sb.Append("\\f");
    } else if c == '\n' {
      sb.Append("\\n");
    } else if c == '\r' {
      sb.Append("\\r");
    } else if c == '\t' {
      sb.Append("\\t");
    } else if c < ' ' {
      sb.Append(['\\', 'u', '0', '0', HexDigit(c as int / 16), HexDigit(c as int % 16)]);
    } else {
      sb.Append([c]);
    }
  }

  lemma {:induction false} AppendAssoc(a: string, b: string, c: string)
    ensures a + b + c == a + (b + c)
  {
  }

  lemma {:induction false} AppendAssoc4(a: string, b: string, c: string, d: string)
    ensures a + b + c + d == a + (b + c + d)
  {
  }

  /** `writeString`: the opening quote, each char escaped, the closing quote. */
  method WriteString(sb: StringBuilder, value: string)
    modifies sb
    ensures sb.content == old(sb.content) + Quote(value)
  {
    sb.Append("\"");
    ghost var opening := sb.content;
    var i := 0;
    while i < |value|
      invariant 0 <= i <= |value|
      invariant sb.content == opening + Escape(value[..i])
    {
      ghost var done := Escape(value[..i]);
      WriteEscaped(sb, value[i]);
      EscapePrefix(value, i);
      AppendAssoc(opening, done, EscapeChar(value[i]));
      i := i + 1;
    }
    assert value[..i] == value;
    sb.Append("\"");
  }

  /** `writeValue`: appends the text of `value`. */
  method WriteValue(sb: StringBuilder, value: Value)
    modifies sb
    ensures sb.content == old(sb.content) + Serialize(value)
    decreases value, 1
  {
    match value {
      case Null =>
        sb.Append("null");
      case Str(s) =>
        WriteString(sb, s);
      case Int(n) =>
        sb.Append(JavaText.DecimalString(n));
      case Float(token) =>
        sb.Append(token);
      case Bool(b) =>
        sb.Append(if b then "true" else "false");
      case Obj(es) =>
        ghost var start := sb.content;
        sb.Append("{");
        WriteEntries(sb, es);
        sb.Append("}");
        AppendAssoc4(start, "{", SerializeEntries(es), "}");
      case Arr(vs) =>
        ghost var start := sb.content;
        sb.Append("[");
        WriteItems(sb, vs);
        sb.Append("]");
        AppendAssoc4(start, "[", SerializeItems(vs), "]");
    }
  }

  /** The `for` loop of `writeValue` over a map: entries in order, `,` between them. */
  method WriteEntries(sb: StringBuilder, es: seq<(string, Value)>)
    modifies sb
    ensures sb.content == old(sb.content) + SerializeEntries(es)
    decreases es, 0
  {
    ghost var start := sb.content;
    var first := true;
    var i := 0;
    assert es[..0] == [];
    while i < |es|
      invariant 0 <= i <= |es| && first == (i == 0)
      invariant sb.content == start + SerializeEntries(es[..i])
    {
      ghost var sep := if i == 0 then "" else ",";
      if !first {
        sb.Append(",");
      } else {
        assert sb.content + "" == sb.content;
      }
      first := false;
      ghost var entryStart := sb.content;
      assert es[i] in es && es[i].1 < es[i];
      WriteString(sb, es[i].0);
      sb.Append(":");
      WriteValue(sb, es[i].1);
      AppendAssoc4(entryStart, Quote(es[i].0), ":", Serialize(es[i].1));
      EntriesSnoc(es[..i], es[i]);
      AppendAssoc4(start, SerializeEntries(es[..i]), sep, Member(es[i]));
      TakeNext(es, i);
      i := i + 1;
    }
    assert es[..i] == es;
  }

  /** The `for` loop of `writeValue` over a list: items in order, `,` between them. */
  method WriteItems(sb: StringBuilder, vs: seq<Value>)
    modifies sb
    ensures sb.content == old(sb.content) + SerializeItems(vs)
    decreases vs, 0
  {
    ghost var start := sb.content;
    var first := true;
    var i := 0;
    assert vs[..0] == [];
    while i < |vs|
      invariant 0 <= i <= |vs| && first == (i == 0)
      invariant sb.content == start + SerializeItems(vs[..i])
    {
      ghost var sep := if i == 0 then "" else ",";
      if !first {
        sb.Append(",");
      } else {
        assert sb.content + "" == sb.content;
      }
      first := false;
      assert vs[i] in vs;
      WriteValue(sb, vs[i]);
      ItemsSnoc(vs[..i], vs[i]);
      AppendAssoc4(start, SerializeItems(vs[..i]), sep, Serialize(vs[i]));
      TakeNext(vs, i);
      i := i + 1;
    }
    assert vs[..i] == vs;
  }

  /** `JsonUtil.stringify`: the text of a map, built in a fresh builder. */
  method Stringify(entries: seq<(string, Value)>) returns (json: string)
    ensures json == Serialize(Obj(entries))
  {
    var sb := new StringBuilder();
    WriteValue(sb, Obj(entries));
    json := sb.content;
  }
}
