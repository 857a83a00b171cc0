/**
 * `JsonUtil.Parser`: a reader over a fixed text that advances its `pos`
 * field. Every method is proved to return, and to leave `pos` at, exactly
 * what the reader functions of `Json` give from the position it started at.
 */
module JsonParser {
  import opened Wrappers
  import opened JavaText
  import opened Json

  class Parser {
    const text: string
    var pos: nat

    /** A `null` text is read as the empty text. */
    constructor(json: Option<string>)
      ensures text == json.GetOr("") && pos == 0
    {
      text := json.GetOr("");
      pos := 0;
    }

    /** `peek`: the char at `pos` is `ch`. */
    predicate Peek(ch: char)
      reads this
    {
      pos < |text| && text[pos] == ch
    }

    /** `startsWith`: `text.regionMatches(pos, value, 0, value.length())`. */
    predicate StartsWithHere(value: string)
      reads this
      requires pos <= |text|
    {
      StartsWith(text[pos..], value)
    }

    /** `skipWs`. */
    method SkipWs()
      requires pos <= |text|
      modifies this
      ensures pos == WsEnd(text, old(pos))
    {
      while pos < |text| && IsWhitespace(text[pos])
        invariant old(pos) <= pos <= |text| && WsEnd(text, pos) == WsEnd(text, old(pos))
        decreases |text| - pos
      {
        pos := pos + 1;
      }
    }

    /** `consume`: skip whitespace, then step over `expected` only if it is there. */
    method Consume(expected: char)
      requires pos <= |text|
      modifies this
      ensures pos == ConsumeAt(text, old(pos), expected)
    {
      SkipWs();
      if pos < |text| && text[pos] == expected {
        pos := pos + 1;
      }
    }

    /** The `switch` on the char after a `\`, with `pos` just past that char. */
    method ReadEscape(n: char) returns (piece: string)
      requires pos <= |text|
      modifies this
      ensures (piece, pos) == EscapeAt(text, old(pos), n)
    {
      if n == '"' {
        piece := "\"";
      } else if n == '\\' {
        piece := "\\";
      } else if n == '/' {
        piece := "/";
      } else if n == 'b' {
        piece := [Backspace];
      } else if n == 'f' {
        piece := [FormFeed];
      } else if n == 'n' {
        piece := "\n";
      } else if n == 'r' {
        piece := "\r";
      } else if n == 't' {
        piece := "\t";
      } else if n == 'u' {
        piece := "";
        if pos + 4 <= |text| {
          var hex := text[pos..pos + 4];
          pos := pos + 4;
          var code := ParseHex(hex);
          if code.Some? {
            var c := CharCast(code.value);
            if c.Some? {
              piece := [c.value];
            }
          }
        }
      } else {
        piece := [n];
      }
    }

    /** `parseString`. */
    method ParseString() returns (s: string)
      requires pos <= |text|
      modifies this
      ensures (s, pos) == StringAt(text, old(pos))
    {
      Consume('"');
      ghost var goal := StringBody(text, pos, "");
      var sb := "";
      while pos < |text|
        invariant pos <= |text| && StringBody(text, pos, sb) == goal
        decreases |text| - pos
      {
        ghost var p := pos;
        var c := text[pos];
        pos := pos + 1;
        if c == '"' {
          break;
        }
        if c == '\\' && pos < |text| {
          var n := text[pos];
          pos := pos + 1;
          var piece := ReadEscape(n);
          assert EscapeAt(text, p + 2, text[p + 1]) == (piece, pos);
          sb := sb + piece;
        } else {
          sb := sb + [c];
        }
      }
      s := sb;
    }

    /** `parseNumberOrStringToken`: the token up to a delimiter, then its interpretation. */
    method ParseNumberOrStringToken() returns (v: Value)
      requires pos <= |text|
      modifies this
      ensures (v, pos) == TokenAt(text, old(pos))
    {
      var start := pos;
      while pos < |text|
        invariant start <= pos <= |text| && TokenEnd(text, pos) == TokenEnd(text, start)
        decreases |text| - pos
      {
        var c := text[pos];
        if c == ',' || c == '}' || c == ']' || IsWhitespace(c) {
          break;
        }
        pos := pos + 1;
      }
      var token := text[start..pos];
      v := TokenValue(token);
    }

    /** `parseValue`. */
    method ParseValue() returns (r: Parse<Value>)
      requires pos <= |text|
      modifies this
      ensures r == ValueAt(text, old(pos))
      ensures pos <= |text| && (r.Done? ==> pos == r.next)
      decreases |text| - pos, 3
    {
      SkipWs();
      if pos >= |text| {
        return Done(Null, pos);
      }
      var c := text[pos];
      if c == '{' {
        r := ParseObject();
        return;
      }
      if c == '[' {
        r := ParseArray();
        return;
      }
      if c == '"' {
        var s := ParseString();
        return Done(Str(s), pos);
      }
      if StartsWithHere("true") {
        pos := pos + 4;
        return Done(Bool(true), pos);
      }
      if StartsWithHere("false") {
        pos := pos + 5;
        return Done(Bool(false), pos);
      }
      if StartsWithHere("null") {
        pos := pos + 4;
        return Done(Null, pos);
      }
      var v := ParseNumberOrStringToken();
      return Done(v, pos);
    }

    /** `parseObject`, from the `{` at `pos`. */
    method ParseObject() returns (r: Parse<Value>)
      requires pos < |text|
      modifies this
      ensures r == ObjectAt(text, old(pos))
      ensures pos <= |text| && (r.Done? ==> pos == r.next)
      decreases |text| - pos, 2
    {
      ghost var start := pos;
      pos := pos + 1;
      SkipWs();
      if Peek('}') {
        pos := pos + 1;
        return Done(Obj([]), pos);
      }
      var entries: seq<(string, Value)> := [];
      ghost var goal := ObjectLoop(text, pos, entries);
      while pos < |text|
        invariant start < pos <= |text| && ObjectLoop(text, pos, entries) == goal
        decreases |text| - pos
      {
        ghost var p := pos;
        SkipWs();
        var key := ParseString();
        ghost var q1 := pos;
        SkipWs();
        Consume(':');
        ghost var q2 := pos;
        MemberProgress(text, p, q1, q2);
        var value := ParseValue();
        if value.Diverges? {
          return Diverges;
        }
        entries := Put(entries, key, value.value);
        SkipWs();
        if Peek('}') {
          pos := pos + 1;
          return Done(Obj(entries), pos);
        }
        Consume(',');
      }
      return Done(Obj(entries), pos);
    }

    /** `parseArray`, from the `[` at `pos`; a pass that leaves `pos` where it was would repeat forever. */
    method ParseArray() returns (r: Parse<Value>)
      requires pos < |text|
      modifies this
      ensures r == ArrayAt(text, old(pos))
      ensures pos <= |text| && (r.Done? ==> pos == r.next)
      decreases |text| - pos, 2
    {
      ghost var start := pos;
      pos := pos + 1;
      SkipWs();
      if Peek(']') {
        pos := pos + 1;
        return Done(Arr([]), pos);
      }
      var list: seq<Value> := [];
      ghost var goal := ArrayLoop(text, pos, list);
      while pos < |text|
        invariant start < pos <= |text| && ArrayLoop(text, pos, list) == goal
        decreases |text| - pos
      {
        var p := pos;
        var value := ParseValue();
        if value.Diverges? {
          return Diverges;
        }
        list := list + [value.value];
        SkipWs();
        if Peek(']') {
          pos := pos + 1;
          return Done(Arr(list), pos);
        }
        Consume(',');
        if pos == p {
          return Diverges;
        }
      }
      return Done(Arr(list), pos);
    }

    /** `parse`: whitespace, one value, whitespace. */
    method Parse() returns (r: Parse<Value>)
      requires pos <= |text|
      modifies this
      ensures r == ParseFrom(text, old(pos))
    {
      SkipWs();
      r := ParseValue();
      if r.Done? {
        SkipWs();
        r := Done(r.value, pos);
      }
    }
  }

  /** A member's key and `:` are read past its start, so the value is read from further on. */
  lemma {:induction false} MemberProgress(t: string, p: nat, q1: nat, q2: nat)
    requires p < |t| && q1 == StringAt(t, WsEnd(t, p)).1 && q2 == ConsumeAt(t, WsEnd(t, q1), ':')
    ensures p < q2
  {
  }

  /** `JsonUtil.parse`. */
  method ParseJson(json: Option<string>) returns (r: Parse<Value>)
    ensures r == ParseText(json)
  {
    var parser := new Parser(json);
    r := parser.Parse();
  }

  /** `JsonUtil.parseObject`: the map read, or an empty map when the value read is not a map. */
  method ParseJsonObject(json: Option<string>) returns (r: Parse<seq<(string, Value)>>)
    ensures r == ParseObjectText(json)
  {
    var parsed := ParseJson(json);
    if parsed.Done? && parsed.value.Obj? {
      return Done(parsed.value.entries, parsed.next);
    }
    if parsed.Done? {
      return Done([], parsed.next);
    }
    return Diverges;
  }
}
