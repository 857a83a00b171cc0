# CodeBot and Harmonization Bot, modelled in Dafny

The model covers two Eclipse plug-ins that review ABAP source and can stop its activation.

- **CodeBot** (`com.zalaris.codeBot`):
  - sends the editor's code to an advisory backend over a small JSON codec;
  - turns the answer into a bot response;
  - shows that response in a chat view;
  - keeps a governance record of the MAJOR violations of the last validation, together with the workspace problem markers that go with it;
  - re-validates when it sees an activation command.
- **Harmonization Bot** (`com.zalaris.harmonization.bot`): checks three naming and performance rules locally, marks the offending lines and reports whether activation is blocked.

Each core source file is one Dafny module. Two modules hold shared helpers:

- `JavaText`: the Java `String`, `Character`, `Long` and `Integer` operations the code uses.
- `Markers`: Eclipse problem markers, as values kept in a `Workspace` object.

Code that changes state step by step is modelled as methods and classes. Each is proved equal to a specification function, and the properties are lemmas about those functions:

- `JsonUtil`'s `Parser` and its `StringBuilder` writer;
- `ValidateHandler`'s scanning loops;
- the governance service's fields;
- the chat view's widgets.

How Java constructs appear in the model:

- A `null` string that the code tests for is an `Option<string>`.
- A JSON value is a `Json.Value`.
- A loop in the reader that never ends gives the result `Diverges`.
- I/O, the clock, the environment, the editor and the HTTP transport become parameters.

One point where the sources disagree with the code:

- `BotResponse.RuleViolation` (`bot/BotResponse.java:64-96`) declares no `severity` field and no 8-argument constructor. Every caller passes a severity and reads it back with `getSeverity()`:
  - `ViolationGovernanceService.java:158-166`;
  - `SimpleRuleBot.java:101-109`;
  - `BotView.java:176`;
  - `ActivateWithValidationHandler.java:53`.

  The model's `RuleViolation` has the optional `severity` those callers use.

Each row of the table below states a proved contract.

## Model

| member | source | states |
|---|---|---|
| JavaText.TrimSpec | com.zalaris.codeBot/src/com/zalaris/codebot/governance/ViolationGovernanceService.java:203-208 | `trim` drops only chars up to U+0020, and only from the two ends. What is left is empty or starts and ends above U+0020. |
| JavaText.TrimTrimmed | com.zalaris.codeBot/src/com/zalaris/codebot/api/BackendApiClient.java:48-54 | Trimming twice is trimming once, so a setting read back and trimmed again is unchanged. |
| JavaText.ParseDecimal | com.zalaris.codeBot/src/com/zalaris/codebot/util/JsonUtil.java:280 | `Long.parseLong` and `Integer.parseInt` accept only an optional sign followed by at least one digit. The value lies within the target width, otherwise the parse fails. |
| JavaText.DecimalRoundTrip | com.zalaris.codeBot/src/com/zalaris/codebot/bot/SimpleRuleBot.java:148-157 | A number printed in decimal parses back to itself whenever it fits the width. |
| JavaText.CharCast | com.zalaris.codeBot/src/com/zalaris/codebot/util/JsonUtil.java:249 | The `(char)` cast keeps the low 16 bits of the parsed code. |
| JavaText.ToInt32 | com.zalaris.codeBot/src/com/zalaris/codebot/bot/SimpleRuleBot.java:148-151 | `intValue()` of a long is congruent to it modulo 2^32 and lies in the `int` range. It is the identity on `int` values. |
| JavaText.ParseUnsigned | com.zalaris.codeBot/src/com/zalaris/codebot/util/JsonUtil.java:280 | A non-empty run of ASCII digits whose value is in range parses to that value. |
| JavaText.ParseNegative | com.zalaris.codeBot/src/com/zalaris/codebot/util/JsonUtil.java:280 | `-` followed by digits parses to the negated value when that value is in range. |
| JavaText.ToUpper | com.zalaris.codeBot/src/com/zalaris/codebot/views/BotView.java:254 | `toUpperCase(Locale.ROOT)` keeps the length. |
| JavaText.ToLower | com.zalaris.codeBot/src/com/zalaris/codebot/governance/ViolationGovernanceService.java:214 | `toLowerCase(Locale.ROOT)` keeps the length. |
| Json.HexDigit | com.zalaris.codeBot/src/com/zalaris/codebot/util/JsonUtil.java:107-108 | A hex digit written by `%04x` reads back as its value. |
| Json.WsEndSkipsWhitespace | com.zalaris.codeBot/src/com/zalaris/codebot/util/JsonUtil.java:286-290 | `skipWs` passes exactly the run of `Character.isWhitespace` chars. |
| Json.TokenEndStops | com.zalaris.codeBot/src/com/zalaris/codebot/util/JsonUtil.java:266-275 | A bare token runs up to the first `,`, `}`, `]` or whitespace, or to the end. |
| Json.TokenValue | com.zalaris.codeBot/src/com/zalaris/codebot/util/JsonUtil.java:275-283 | A token is read as a double when it has `.`, `e` or `E`. Otherwise it is a long in range with no `.`. Otherwise it is the token text itself. The reader never fails on a token. |
| Json.StringAt | com.zalaris.codeBot/src/com/zalaris/codebot/util/JsonUtil.java:209-264 | `parseString` consumes at least one char whenever text remains. |
| Json.ObjectAt | com.zalaris.codeBot/src/com/zalaris/codebot/util/JsonUtil.java:163-186 | A map that is read back is a map, and the position moves past the `{`. |
| Json.ArrayAt | com.zalaris.codeBot/src/com/zalaris/codebot/util/JsonUtil.java:188-207 | A list that is read back is a list, and the position moves past the `[`. |
| Json.KeyIndex | com.zalaris.codeBot/src/com/zalaris/codebot/util/JsonUtil.java:177 | Looking a key up in a `LinkedHashMap` finds its first position, or finds that the key is absent. |
| Json.PutSpec | com.zalaris.codeBot/src/com/zalaris/codebot/util/JsonUtil.java:177 | `put` replaces an existing key's value in place and appends a new key at the end. |
| Json.ParseFrom | com.zalaris.codeBot/src/com/zalaris/codebot/util/JsonUtil.java:126-131 | `parse` ends at a position within the text. |
| Json.WsEnd | com.zalaris.codeBot/src/com/zalaris/codebot/util/JsonUtil.java:286-290 | The whitespace run ends within the text, at or after the start. |
| Json.ConsumeAt | com.zalaris.codeBot/src/com/zalaris/codebot/util/JsonUtil.java:300-305 | `consume` never moves backwards or past the end. |
| Json.EscapeAt | com.zalaris.codeBot/src/com/zalaris/codebot/util/JsonUtil.java:217-258 | One escape never moves backwards or past the end. |
| Json.StringBody | com.zalaris.codeBot/src/com/zalaris/codebot/util/JsonUtil.java:212-262 | The string loop stays within the text, and it advances whenever text remains. |
| Json.TokenEnd | com.zalaris.codeBot/src/com/zalaris/codebot/util/JsonUtil.java:268-272 | The token loop stays within the text. |
| Json.TokenAt | com.zalaris.codeBot/src/com/zalaris/codebot/util/JsonUtil.java:266-284 | Reading a token stays within the text. |
| Json.ScalarAt | com.zalaris.codeBot/src/com/zalaris/codebot/util/JsonUtil.java:139-160 | Reading a string or a token stays within the text. |
| Json.ValueAt | com.zalaris.codeBot/src/com/zalaris/codebot/util/JsonUtil.java:133-161 | A value that is read ends within the text, at or after the start. |
| Json.MemberAt | com.zalaris.codeBot/src/com/zalaris/codebot/util/JsonUtil.java:171-177 | Reading a member moves past at least its first char. |
| Json.ObjectLoop | com.zalaris.codeBot/src/com/zalaris/codebot/util/JsonUtil.java:171-185 | A finished object loop gives a map and ends within the text. |
| Json.ItemAt | com.zalaris.codeBot/src/com/zalaris/codebot/util/JsonUtil.java:196-200 | Reading an item ends within the text. |
| Json.ArrayLoop | com.zalaris.codeBot/src/com/zalaris/codebot/util/JsonUtil.java:196-206 | A finished array loop gives a list and ends within the text. |
| JsonLenient.ConsumeSkipsOnlyWhitespace | com.zalaris.codeBot/src/com/zalaris/codebot/util/JsonUtil.java:300-305 | `consume` skips whitespace and then takes the expected char only if it is there. A missing `:` or `,` is skipped silently. |
| JsonLenient.UnterminatedString | com.zalaris.codeBot/src/com/zalaris/codebot/util/JsonUtil.java:212-262 | A string with no closing quote returns all the chars up to the end of the text. |
| JsonLenient.UnknownEscape | com.zalaris.codeBot/src/com/zalaris/codebot/util/JsonUtil.java:255-257 | An unknown escape `\x` stands for `x`. |
| JsonLenient.ShortUnicodeEscape | com.zalaris.codeBot/src/com/zalaris/codebot/util/JsonUtil.java:244-254 | A `\u` with fewer than four chars left adds nothing and consumes nothing more. |
| JsonLenient.InvalidHexEscape | com.zalaris.codeBot/src/com/zalaris/codebot/util/JsonUtil.java:245-252 | A `\u` followed by four non-hex chars consumes the four chars and adds nothing. |
| JsonLenient.TrailingBackslash | com.zalaris.codeBot/src/com/zalaris/codebot/util/JsonUtil.java:217-261 | A lone `\` at the end of the text is kept literally. |
| JsonLenient.UnclosedObject | com.zalaris.codeBot/src/com/zalaris/codebot/util/JsonUtil.java:171-185 | An object cut off after a member returns the entries read so far. |
| JsonLenient.UnclosedArray | com.zalaris.codeBot/src/com/zalaris/codebot/util/JsonUtil.java:196-206 | An array cut off after an item returns the items read so far. |
| JsonLenient.PutKeepsKeysDistinct | com.zalaris.codeBot/src/com/zalaris/codebot/util/JsonUtil.java:177 | `put` never creates a second entry for a key. |
| JsonLenient.ObjectLoopKeysDistinct | com.zalaris.codeBot/src/com/zalaris/codebot/util/JsonUtil.java:171-185 | The object loop keeps the keys distinct. |
| JsonLenient.ObjectKeysDistinct | com.zalaris.codeBot/src/com/zalaris/codebot/util/JsonUtil.java:163-186 | Every map that is read has distinct keys. |
| JsonLenient.ArrayStallsAtBrace | com.zalaris.codeBot/src/com/zalaris/codebot/util/JsonUtil.java:196-205 | A `}` inside a list reads as an empty token that moves nothing. The array loop then never returns. |
| JsonLenient.ArrayItemThenBrace | com.zalaris.codeBot/src/com/zalaris/codebot/util/JsonUtil.java:196-205 | A list item followed by `}` makes the array loop run forever. |
| JsonLenient.MapOnlyAtBrace | com.zalaris.codeBot/src/com/zalaris/codebot/util/JsonUtil.java:133-161 | A value reads as a map only when the first non-blank char is `{`. |
| JsonLenient.ParseObjectOfNonMap | com.zalaris.codeBot/src/com/zalaris/codebot/util/JsonUtil.java:24-30 | `parseObject` of text whose value is not a map gives the empty map. |
| JsonLenient.ParseObjectOfNull | com.zalaris.codeBot/src/com/zalaris/codebot/util/JsonUtil.java:24-30 | `parseObject(null)` gives the empty map. |
| JsonParser.Parser.constructor | com.zalaris.codeBot/src/com/zalaris/codebot/util/JsonUtil.java:122-124 | A `null` text is read as the empty text, starting at position 0. |
| JsonParser.Parser.SkipWs | com.zalaris.codeBot/src/com/zalaris/codebot/util/JsonUtil.java:286-290 | The loop leaves `pos` where the whitespace run ends. |
| JsonParser.Parser.Consume | com.zalaris.codeBot/src/com/zalaris/codebot/util/JsonUtil.java:300-305 | The method moves `pos` as `ConsumeAt` does. |
| JsonParser.Parser.ReadEscape | com.zalaris.codeBot/src/com/zalaris/codebot/util/JsonUtil.java:217-258 | One escape gives the text and the position of `EscapeAt`. |
| JsonParser.Parser.ParseString | com.zalaris.codeBot/src/com/zalaris/codebot/util/JsonUtil.java:209-264 | The string loop returns the string and the position of `StringAt`. |
| JsonParser.Parser.ParseNumberOrStringToken | com.zalaris.codeBot/src/com/zalaris/codebot/util/JsonUtil.java:266-284 | The token loop returns the value and the position of `TokenAt`. |
| JsonParser.Parser.ParseValue | com.zalaris.codeBot/src/com/zalaris/codebot/util/JsonUtil.java:133-161 | The dispatch returns `ValueAt`, with `pos` after the value read. |
| JsonParser.Parser.ParseObject | com.zalaris.codeBot/src/com/zalaris/codebot/util/JsonUtil.java:163-186 | The object loop returns `ObjectAt`, or runs forever exactly where `ObjectAt` diverges. |
| JsonParser.Parser.ParseArray | com.zalaris.codeBot/src/com/zalaris/codebot/util/JsonUtil.java:188-207 | The array loop returns `ArrayAt`, or runs forever exactly where `ArrayAt` diverges. |
| JsonParser.Parser.Parse | com.zalaris.codeBot/src/com/zalaris/codebot/util/JsonUtil.java:126-131 | `parse` skips blanks, reads one value and skips blanks again, as `ParseFrom` does. |
| JsonParser.MemberProgress | com.zalaris.codeBot/src/com/zalaris/codebot/util/JsonUtil.java:171-177 | Each turn of the object loop advances past its key, so the loop always ends. |
| JsonParser.ParseJson | com.zalaris.codeBot/src/com/zalaris/codebot/util/JsonUtil.java:19-21 | `JsonUtil.parse` returns `ParseText`. |
| JsonParser.ParseJsonObject | com.zalaris.codeBot/src/com/zalaris/codebot/util/JsonUtil.java:24-30 | `JsonUtil.parseObject` returns `ParseObjectText`. |
| JsonWriter.StringBuilder.Append | com.zalaris.codeBot/src/com/zalaris/codebot/util/JsonUtil.java:14-16 | `append` adds the text at the end. |
| JsonWriter.EntriesSnoc | com.zalaris.codeBot/src/com/zalaris/codebot/util/JsonUtil.java:45-61 | Writing one more entry adds a `,` when others came before, then `"key":value`. |
| JsonWriter.ItemsSnoc | com.zalaris.codeBot/src/com/zalaris/codebot/util/JsonUtil.java:62-76 | Writing one more item adds a `,` when others came before, then the value. |
| JsonWriter.WriteEscaped | com.zalaris.codeBot/src/com/zalaris/codebot/util/JsonUtil.java:83-112 | One char is written with its escape: `\"`, `\\`, `\b`, `\f`, `\n`, `\r`, `\t`, `\u00xx` below U+0020, or the char itself. |
| JsonWriter.WriteString | com.zalaris.codeBot/src/com/zalaris/codebot/util/JsonUtil.java:80-116 | `writeString` appends the quoted, escaped string. |
| JsonWriter.WriteValue | com.zalaris.codeBot/src/com/zalaris/codebot/util/JsonUtil.java:32-78 | `writeValue` appends `Serialize(value)`, recursing into maps and lists. |
| JsonWriter.WriteEntries | com.zalaris.codeBot/src/com/zalaris/codebot/util/JsonUtil.java:45-61 | The map loop appends the entries in insertion order. |
| JsonWriter.WriteItems | com.zalaris.codeBot/src/com/zalaris/codebot/util/JsonUtil.java:62-76 | The list loop appends the items in order. |
| JsonWriter.Stringify | com.zalaris.codeBot/src/com/zalaris/codebot/util/JsonUtil.java:13-17 | `stringify` returns the serialization of the map. |
| JsonRoundTrip.EscapeHasNoControlChars | com.zalaris.codeBot/src/com/zalaris/codebot/util/JsonUtil.java:80-116 | The escaped body of a string holds no char below U+0020. |
| JsonRoundTrip.StringBodyEscaped | com.zalaris.codeBot/src/com/zalaris/codebot/util/JsonUtil.java:209-264 | Reading an escaped body up to its closing quote gives back the original string. |
| JsonRoundTrip.StringAtQuoted | com.zalaris.codeBot/src/com/zalaris/codebot/util/JsonUtil.java:80-116 | `parseString` of what `writeString` wrote gives back the string and ends after the closing quote. |
| JsonRoundTrip.ValueText | com.zalaris.codeBot/src/com/zalaris/codebot/util/JsonUtil.java:133-161 | A written value, found anywhere in a text and followed by a delimiter, reads back as itself. |
| JsonRoundTrip.ObjectText | com.zalaris.codeBot/src/com/zalaris/codebot/util/JsonUtil.java:163-186 | A written map with distinct keys reads back entry by entry. |
| JsonRoundTrip.ArrayText | com.zalaris.codeBot/src/com/zalaris/codebot/util/JsonUtil.java:188-207 | A written list reads back item by item. |
| JsonRoundTrip.RoundTripWithTail | com.zalaris.codeBot/src/com/zalaris/codebot/util/JsonUtil.java:126-131 | `parse` reads a written value back from the front of a text and ignores what follows a delimiter. |
| JsonRoundTrip.RoundTrip | com.zalaris.codeBot/src/com/zalaris/codebot/util/JsonUtil.java:13-21 | `parse(stringify(v)) == v` for nested maps, lists, strings, booleans, null and longs. |
| JsonRoundTrip.ObjectRoundTrip | com.zalaris.codeBot/src/com/zalaris/codebot/util/JsonUtil.java:24-30 | `parseObject(stringify(m)) == m` for every map that `stringify` accepts. |
| Markers.RemoveSpec | com.zalaris.codeBot/src/com/zalaris/codebot/governance/ViolationGovernanceService.java:283-295 | A marker survives a clear exactly when the clear does not select it by type, resource and "CodeBot" source. |
| Markers.Remove | com.zalaris.codeBot/src/com/zalaris/codebot/governance/ViolationGovernanceService.java:283-295 | Clearing never adds markers. |
| Markers.RemoveTwice | com.zalaris.codeBot/src/com/zalaris/codebot/governance/ViolationGovernanceService.java:260-273 | Clearing twice is clearing once. |
| Markers.Workspace.Delete | com.zalaris.codeBot/src/com/zalaris/codebot/governance/ViolationGovernanceService.java:285-291 | The delete loop removes exactly the selected markers and keeps the others in order. |
| Markers.Workspace.Create | com.zalaris.codeBot/src/com/zalaris/codebot/governance/ViolationGovernanceService.java:248-253 | `createMarker` adds one marker. |
| BotResponse.NewResponse | com.zalaris.codeBot/src/com/zalaris/codebot/bot/BotResponse.java:27-35 | A `null` violation list is stored as the empty list. Otherwise the given list is kept. |
| BotResponse.WithTemplate | com.zalaris.codeBot/src/com/zalaris/codebot/bot/BotResponse.java:23-25 | The 3-argument form keeps the kind and the message and has no violations. It has a template exactly when the code is non-null and non-empty, without trimming. |
| BotResponse.WithMessage | com.zalaris.codeBot/src/com/zalaris/codebot/bot/BotResponse.java:19-21 | The 2-argument form has a `null` template and no violations. |
| SimpleRuleBot.Get | com.zalaris.codeBot/src/com/zalaris/codebot/bot/SimpleRuleBot.java:64-66 | `Map.get` gives `null` for a missing key, and otherwise the value stored under the key. |
| SimpleRuleBot.ValueText | com.zalaris.codeBot/src/com/zalaris/codebot/bot/SimpleRuleBot.java:140-146 | `String.valueOf` is empty only for an empty string. |
| SimpleRuleBot.AsString | com.zalaris.codeBot/src/com/zalaris/codebot/bot/SimpleRuleBot.java:140-146 | `asString` gives the fallback for `null` or empty text, and otherwise the printed value. A string is returned as it is. The result is non-empty whenever the fallback is. |
| SimpleRuleBot.AsInt | com.zalaris.codeBot/src/com/zalaris/codebot/bot/SimpleRuleBot.java:148-157 | A long is wrapped to 32 bits. An `int` fallback gives an `int` result. |
| SimpleRuleBot.AsIntOfDecimalText | com.zalaris.codeBot/src/com/zalaris/codebot/bot/SimpleRuleBot.java:152-154 | A line number sent as decimal text reads as that number. |
| SimpleRuleBot.AsIntOfNonText | com.zalaris.codeBot/src/com/zalaris/codebot/bot/SimpleRuleBot.java:152-156 | `null`, booleans, maps and lists read as the fallback. |
| SimpleRuleBot.ParseViolation | com.zalaris.codeBot/src/com/zalaris/codebot/bot/SimpleRuleBot.java:99-109 | Every decoded violation has a non-empty severity, a correction and an `int` line. |
| SimpleRuleBot.ParseViolationOfNonMap | com.zalaris.codeBot/src/com/zalaris/codebot/bot/SimpleRuleBot.java:125-130 | A non-map item, or an empty map, becomes the all-defaults violation: "ADT", "generic", "unknown.rule", "Rule violation", "Violation detected.", "MAJOR", line 1, and an empty correction. |
| SimpleRuleBot.DecodeAll | com.zalaris.codeBot/src/com/zalaris/codebot/bot/SimpleRuleBot.java:95-112 | The list gives one violation per element. |
| SimpleRuleBot.ParseViolations | com.zalaris.codeBot/src/com/zalaris/codebot/bot/SimpleRuleBot.java:95-112 | The loop returns `ViolationsOf(raw)`. A non-list gives no violations. |
| SimpleRuleBot.FirstFixEmpty | com.zalaris.codeBot/src/com/zalaris/codebot/bot/SimpleRuleBot.java:114-122 | The fix is empty exactly when no violation has a correction that is non-blank after trimming. |
| SimpleRuleBot.FirstFixFound | com.zalaris.codeBot/src/com/zalaris/codebot/bot/SimpleRuleBot.java:114-122 | A non-empty fix is the correction of the first violation that has one. |
| SimpleRuleBot.FirstFixUsable | com.zalaris.codeBot/src/com/zalaris/codebot/bot/SimpleRuleBot.java:116-119 | The fix that is picked is never blank after trimming. |
| SimpleRuleBot.FirstViolationFix | com.zalaris.codeBot/src/com/zalaris/codebot/bot/SimpleRuleBot.java:114-122 | The early-return loop returns `FirstFix`. |
| SimpleRuleBot.FirstSnippet | com.zalaris.codeBot/src/com/zalaris/codebot/bot/SimpleRuleBot.java:86-93 | A missing or empty list gives `""`. |
| SimpleRuleBot.TemplateOf | com.zalaris.codeBot/src/com/zalaris/codebot/bot/SimpleRuleBot.java:68-71 | The template is the first `templates` snippet, or the first `wizards` snippet when that one is empty. |
| SimpleRuleBot.ToBotResponse | com.zalaris.codeBot/src/com/zalaris/codebot/bot/SimpleRuleBot.java:63-84 | The message is the backend's `message` read by `asString`: "No response from backend." when it is `null` or empty, the text itself when it is a non-empty string. It is never empty. The violations are those decoded. The kind is VALIDATION_RESULT iff there are violations, else TEMPLATE_SUGGESTION iff there is a template, else INFO with a `null` template. A validation result carries the first fix, or else the template. |
| SimpleRuleBot.ValidateButtonQuery | com.zalaris.codeBot/src/com/zalaris/codebot/bot/SimpleRuleBot.java:45-48 | The Validate button's query counts as a validation query. |
| SimpleRuleBot.Answered | com.zalaris.codeBot/src/com/zalaris/codebot/bot/SimpleRuleBot.java:29-42 | A transport failure gives INFO with the connection message followed by the error. An answer is converted by `ToBotResponse`. |
| SimpleRuleBot.Reply | com.zalaris.codeBot/src/com/zalaris/codebot/bot/SimpleRuleBot.java:17-43 | A `null` or blank question gives the help text. Otherwise the trimmed query is sent with `log_violations` set exactly for a validation query. |
| SimpleRuleBot.BlankQuestionSkipsBackend | com.zalaris.codeBot/src/com/zalaris/codebot/bot/SimpleRuleBot.java:18-23 | A blank question never reaches the backend. |
| SimpleRuleBot.ValidateCurrentEditor | com.zalaris.codeBot/src/com/zalaris/codebot/bot/SimpleRuleBot.java:50-61 | A failure gives INFO "Backend validation failed. " followed by the message. An answer is converted. |
| ValidateHandler.DropTrailingEmpty | com.zalaris.harmonization.bot/src/com/zalaris/harmonization/bot/handlers/ValidateHandler.java:91 | `split` drops trailing empty strings and nothing else. |
| ValidateHandler.SplitLinesHaveNoLineFeed | com.zalaris.harmonization.bot/src/com/zalaris/harmonization/bot/handlers/ValidateHandler.java:91 | No line from `split("\\r?\\n")` holds a line feed. |
| ValidateHandler.Pieces | com.zalaris.harmonization.bot/src/com/zalaris/harmonization/bot/handlers/ValidateHandler.java:91 | Splitting gives at least one piece. |
| ValidateHandler.Separators | com.zalaris.harmonization.bot/src/com/zalaris/harmonization/bot/handlers/ValidateHandler.java:91 | Every separator that is consumed is `\n` or `\r\n`. |
| ValidateHandler.PiecesWeave | com.zalaris.harmonization.bot/src/com/zalaris/harmonization/bot/handlers/ValidateHandler.java:91 | Putting the separators back between the pieces gives the text back, so no char is lost or moved. |
| ValidateHandler.DropAllEmpty | com.zalaris.harmonization.bot/src/com/zalaris/harmonization/bot/handlers/ValidateHandler.java:91 | `split` drops only empty trailing pieces. |
| ValidateHandler.SplitLinesRebuild | com.zalaris.harmonization.bot/src/com/zalaris/harmonization/bot/handlers/ValidateHandler.java:91-103 | A text without `\n` is one line. Otherwise line `i` is the text between the `i`-th and the next separator, and only empty pieces follow the last line. So a reported line number points at the line whose text was checked. |
| ValidateHandler.SelectStarHasALine | com.zalaris.harmonization.bot/src/com/zalaris/harmonization/bot/handlers/ValidateHandler.java:108-114 | Text that contains `SELECT *` has at least one line, so line 1 exists. |
| ValidateHandler.FirstWord | com.zalaris.harmonization.bot/src/com/zalaris/harmonization/bot/handlers/ValidateHandler.java:99-121 | `split("\\s+")[0]` of a trimmed line is its longest prefix without whitespace. |
| ValidateHandler.MethodDeclarationsPass | com.zalaris.harmonization.bot/src/com/zalaris/harmonization/bot/handlers/ValidateHandler.java:116-128 | `METHODS ...` and `ENDMETHOD.` lines are never flagged. |
| ValidateHandler.CheckIgnoresCase | com.zalaris.harmonization.bot/src/com/zalaris/harmonization/bot/handlers/ValidateHandler.java:96-118 | The rules compare upper-cased text, so `zcl_foo` passes like `ZCL_FOO`. |
| ValidateHandler.ReportedAreFlagged | com.zalaris.harmonization.bot/src/com/zalaris/harmonization/bot/handlers/ValidateHandler.java:95-128 | Every reported violation is at a 1-based line that its rule flags, and carries that rule's message. |
| ValidateHandler.FlaggedAreReported | com.zalaris.harmonization.bot/src/com/zalaris/harmonization/bot/handlers/ValidateHandler.java:95-128 | Every flagged line is reported. |
| ValidateHandler.ReportedAscend | com.zalaris.harmonization.bot/src/com/zalaris/harmonization/bot/handlers/ValidateHandler.java:94-128 | Within one rule, the findings come in ascending line order. |
| ValidateHandler.FindingsInRange | com.zalaris.harmonization.bot/src/com/zalaris/harmonization/bot/handlers/ValidateHandler.java:91-126 | Every finding's line lies between 1 and the number of lines. |
| ValidateHandler.Reported | com.zalaris.harmonization.bot/src/com/zalaris/harmonization/bot/handlers/ValidateHandler.java:95-128 | A rule reports at most one violation per line scanned. |
| ValidateHandler.Messages | com.zalaris.harmonization.bot/src/com/zalaris/harmonization/bot/handlers/ValidateHandler.java:103-126 | The issue list holds each violation's message at the same position. |
| ValidateHandler.MarkersOf | com.zalaris.harmonization.bot/src/com/zalaris/harmonization/bot/handlers/ValidateHandler.java:53-65 | There is one marker per violation. |
| ValidateHandler.ScanRule | com.zalaris.harmonization.bot/src/com/zalaris/harmonization/bot/handlers/ValidateHandler.java:95-128 | One rule's loop appends that rule's findings in line order and keeps the issue list in step. |
| ValidateHandler.ScanSelectStar | com.zalaris.harmonization.bot/src/com/zalaris/harmonization/bot/handlers/ValidateHandler.java:108-114 | One SELECT_STAR finding at line 1 is added iff the upper-cased text contains `SELECT *`. |
| ValidateHandler.ValidateContent | com.zalaris.harmonization.bot/src/com/zalaris/harmonization/bot/handlers/ValidateHandler.java:88-131 | The result is the class findings, then the select-star finding, then the method findings. The issues are exactly their messages, in the same order. |
| ValidateHandler.CreateMarkers | com.zalaris.harmonization.bot/src/com/zalaris/harmonization/bot/handlers/ValidateHandler.java:54-65 | The method adds one error marker per violation, in order. |
| ValidateHandler.Execute | com.zalaris.harmonization.bot/src/com/zalaris/harmonization/bot/handlers/ValidateHandler.java:25-85 | A non-text editor gives the refusal and changes nothing. Otherwise the file's old markers of the type are deleted and one marker is added per finding, and the verdict reports the issues. |
| ValidateHandler.PermittedIffNoIssues | com.zalaris.harmonization.bot/src/com/zalaris/harmonization/bot/handlers/ValidateHandler.java:71-82 | Activation is reported as permitted iff there are no issues. |
| ViolationGovernanceService.MajorsSpec | com.zalaris.codeBot/src/com/zalaris/codebot/governance/ViolationGovernanceService.java:190-201 | A violation is kept iff it is in the input and its severity normalises to MAJOR. |
| ViolationGovernanceService.MajorsNonEmpty | com.zalaris.codeBot/src/com/zalaris/codebot/governance/ViolationGovernanceService.java:190-201 | Some violation is kept iff some input violation is MAJOR. |
| ViolationGovernanceService.MajorsOfMajors | com.zalaris.codeBot/src/com/zalaris/codebot/governance/ViolationGovernanceService.java:190-201 | Filtering a list that is already all MAJOR changes nothing. |
| ViolationGovernanceService.Majors | com.zalaris.codeBot/src/com/zalaris/codebot/governance/ViolationGovernanceService.java:190-201 | Filtering never adds violations. |
| ViolationGovernanceService.FilterMajorOnly | com.zalaris.codeBot/src/com/zalaris/codebot/governance/ViolationGovernanceService.java:190-201 | The loop returns `Majors` in input order. `null` gives the empty list. |
| ViolationGovernanceService.MapItems | com.zalaris.codeBot/src/com/zalaris/codebot/governance/ViolationGovernanceService.java:153-156 | Non-map items are skipped. |
| ViolationGovernanceService.DecodersAgreeOnMaps | com.zalaris.codeBot/src/com/zalaris/codebot/governance/ViolationGovernanceService.java:147-169 | On a list of maps, governance decodes exactly as the bot does. The two differ only on non-map items. |
| ViolationGovernanceService.ParseViolations | com.zalaris.codeBot/src/com/zalaris/codebot/governance/ViolationGovernanceService.java:147-169 | A non-list gives no violations. Non-map items are skipped. Each map is decoded with the field defaults. |
| ViolationGovernanceService.MarkerFor | com.zalaris.codeBot/src/com/zalaris/codebot/governance/ViolationGovernanceService.java:248-253 | A marker's line is `max(1, line)`, and the marker is on the resource with the "CodeBot" source. |
| ViolationGovernanceService.MarkersFor | com.zalaris.codeBot/src/com/zalaris/codebot/governance/ViolationGovernanceService.java:246-257 | There is one marker per violation. |
| ViolationGovernanceService.MarkersForSelected | com.zalaris.codeBot/src/com/zalaris/codebot/governance/ViolationGovernanceService.java:246-257 | The i-th marker is the i-th violation's marker. |
| ViolationGovernanceService.ClearMarkers | com.zalaris.codeBot/src/com/zalaris/codebot/governance/ViolationGovernanceService.java:283-295 | Only the "CodeBot" problem markers on the resource are deleted. |
| ViolationGovernanceService.ClearAllCodeBotMarkers | com.zalaris.codeBot/src/com/zalaris/codebot/governance/ViolationGovernanceService.java:260-273 | Exactly the "CodeBot" problem markers in the workspace are deleted. |
| ViolationGovernanceService.PublishMarkers | com.zalaris.codeBot/src/com/zalaris/codebot/governance/ViolationGovernanceService.java:240-258 | A `null` resource changes nothing. Otherwise the resource's "CodeBot" markers are replaced by one marker per violation. |
| ViolationGovernanceService.AdtPrefixShadowsSaveRule | com.zalaris.codeBot/src/com/zalaris/codebot/governance/ViolationGovernanceService.java:210-222 | An ADT command id with none of the listed words is not an activation, even when it would pass the save rule (for example `com.sap.adt.save`). |
| ViolationGovernanceService.Governance.constructor | com.zalaris.codeBot/src/com/zalaris/codebot/governance/ViolationGovernanceService.java:25-28 | Starts with no object, no majors and zero timestamps. |
| ViolationGovernanceService.Governance.UpdateFromValidation | com.zalaris.codeBot/src/com/zalaris/codebot/governance/ViolationGovernanceService.java:33-43 | Stores the MAJOR violations in order and the object name (`"ADT_OBJECT"` for `null`). With no majors the workspace markers are cleared; otherwise they are published. The timestamps are unchanged. |
| ViolationGovernanceService.Governance.Clear | com.zalaris.codeBot/src/com/zalaris/codebot/governance/ViolationGovernanceService.java:45-48 | Empties the majors, so nothing blocks. Keeps the object name. Clears the workspace markers. |
| ViolationGovernanceService.Governance.OnLikelyActivationCommand | com.zalaris.codeBot/src/com/zalaris/codebot/governance/ViolationGovernanceService.java:54-67 | A validation starts iff the id is an activation command and at least 1200 ms have passed since the last one. Only a started validation moves the timestamp. |
| ViolationGovernanceService.Governance.LogMajorsToBackend | com.zalaris.codeBot/src/com/zalaris/codebot/governance/ViolationGovernanceService.java:112-125 | Within 3000 ms of the last log nothing happens. Otherwise the first major is logged as MAJOR, "not fixed", and the timestamp moves to `now`. |
| ViolationGovernanceService.Governance.ValidateOnActivationAttempt | com.zalaris.codeBot/src/com/zalaris/codebot/governance/ViolationGovernanceService.java:69-110 | The new state and the requests are exactly those of `Attempted` on the old state. |
| ViolationGovernanceService.AttemptBlocks | com.zalaris.codeBot/src/com/zalaris/codebot/governance/ViolationGovernanceService.java:69-110 | No code, or a failed request, leaves the state as it was. An answer blocks iff it holds a MAJOR violation, and every pending violation is a MAJOR one from the answer. |
| ViolationGovernanceService.AttemptLogs | com.zalaris.codeBot/src/com/zalaris/codebot/governance/ViolationGovernanceService.java:104-121 | The attempt logs iff code was read, the backend answered with majors, and 3000 ms have passed since the last log. `lastLoggedAtMillis` moves to `now` exactly then. |
| ViolationGovernanceService.AnsweredLogs | com.zalaris.codeBot/src/com/zalaris/codebot/governance/ViolationGovernanceService.java:100-121 | Once the answer's majors are known, the attempt logs iff there are majors and the last log is at least 3000 ms old. The log timestamp moves to `now` exactly then. |
| ViolationGovernanceService.LogDebounced | com.zalaris.codeBot/src/com/zalaris/codebot/governance/ViolationGovernanceService.java:112-117 | Two attempts less than 3000 ms apart log at most once. |
| ViolationGovernanceService.AttemptMarkers | com.zalaris.codeBot/src/com/zalaris/codebot/governance/ViolationGovernanceService.java:94-104 | With no majors, exactly the "CodeBot" markers are gone. With majors, the resource's "CodeBot" markers are exactly the new ones and other markers are untouched. A `null` resource leaves the markers. |
| BotView.SeverityRank | com.zalaris.codeBot/src/com/zalaris/codebot/views/BotView.java:257-271 | The rank lies between 0 and 4. |
| BotView.UnsetSeverityRanksMajor | com.zalaris.codeBot/src/com/zalaris/codebot/views/BotView.java:250-263 | A `null` or blank severity ranks as MAJOR (1). |
| BotView.SortPermutes | com.zalaris.codeBot/src/com/zalaris/codebot/views/BotView.java:273-279 | The sorted list is a permutation of the input. |
| BotView.SortOrders | com.zalaris.codeBot/src/com/zalaris/codebot/views/BotView.java:273-279 | The list is ordered by (rank, `max(1, line)`). |
| BotView.SortBy | com.zalaris.codeBot/src/com/zalaris/codebot/views/BotView.java:273-279 | Sorting keeps the length. |
| BotView.SortStable | com.zalaris.codeBot/src/com/zalaris/codebot/views/BotView.java:273-279 | Violations with equal keys keep their input order. |
| BotView.StableSort | com.zalaris.codeBot/src/com/zalaris/codebot/views/BotView.java:273-279 | The insertion loop returns `SortBy`. |
| BotView.SortViolationsBySeverity | com.zalaris.codeBot/src/com/zalaris/codebot/views/BotView.java:273-279 | The method returns the severity order of the input. |
| BotView.MoreText | com.zalaris.codeBot/src/com/zalaris/codebot/views/BotView.java:186-188 | "...and n more." appears iff there are more than three violations. |
| BotView.SummaryEndsWithMore | com.zalaris.codeBot/src/com/zalaris/codebot/views/BotView.java:166-188 | The summary ends in "." iff more than three violations were found. |
| BotView.ListAndPreview | com.zalaris.codeBot/src/com/zalaris/codebot/views/BotView.java:172-185 | The preview loop adds the first `count` lines, and the list gets one entry per violation, in order. |
| BotView.Preview | com.zalaris.codeBot/src/com/zalaris/codebot/views/BotView.java:164-188 | The text is `Summary` and the list is every entry in sorted order. |
| BotView.PasteSuggestionEmpty | com.zalaris.codeBot/src/com/zalaris/codebot/views/BotView.java:343-366 | Nothing is pasteable iff no violation has a non-blank correction and there is no non-blank template. |
| BotView.PasteSuggestionSource | com.zalaris.codeBot/src/com/zalaris/codebot/views/BotView.java:347-366 | A suggestion is a violation's correction or the template. |
| BotView.PasteMatchesSnippet | com.zalaris.codeBot/src/com/zalaris/codebot/views/BotView.java:347-366 | For a response built by the bot, the paste is its template code when that is non-blank. |
| BotView.GetPasteableSuggestion | com.zalaris.codeBot/src/com/zalaris/codebot/views/BotView.java:347-366 | The loop returns `PasteSuggestion`. |
| BotView.JoinedEmpty | com.zalaris.codeBot/src/com/zalaris/codebot/views/BotView.java:209-213 | The conversation is empty iff no turn was appended. |
| BotView.AppendedJoins | com.zalaris.codeBot/src/com/zalaris/codebot/views/BotView.java:209-213 | Appending a turn adds `"\n\n"` only after earlier text. |
| BotView.RespondConsistent | com.zalaris.codeBot/src/com/zalaris/codebot/views/BotView.java:139-207 | After any response the list, the detail pane and the paste button follow from that response. |
| BotView.RenderFindings | com.zalaris.codeBot/src/com/zalaris/codebot/views/BotView.java:162-195 | A validation with violations is shown sorted, previewed, listed and detailed. |
| BotView.Render | com.zalaris.codeBot/src/com/zalaris/codebot/views/BotView.java:139-207 | The screen after a response is `Respond`, for every kind. |
| BotView.NotifiedBlocks | com.zalaris.codeBot/src/com/zalaris/codebot/views/BotView.java:162-201 | After a validation, governance blocks iff the response holds a MAJOR violation. Any other response leaves governance alone. |
| BotView.ChatView.constructor | com.zalaris.codeBot/src/com/zalaris/codebot/views/BotView.java:49-88 | The view starts empty, with status "Ready" and no response. |
| BotView.ChatView.ShowResponse | com.zalaris.codeBot/src/com/zalaris/codebot/views/BotView.java:139-207 | The screen becomes `Respond`, and governance is notified. |
| BotView.ChatView.Answer | com.zalaris.codeBot/src/com/zalaris/codebot/views/BotView.java:139-146 | The question is appended, the bot's reply is obtained and shown. |
| BotView.ChatView.HandleChat | com.zalaris.codeBot/src/com/zalaris/codebot/views/BotView.java:128-207 | A blank prompt changes nothing. Otherwise the question is sent (the Validate button sends "validate current object"), shown and passed to governance. The view stays consistent with its last response. |
| BotView.ChatView.HandleViolationClick | com.zalaris.codeBot/src/com/zalaris/codebot/views/BotView.java:226-243 | An index out of range is ignored. Otherwise the detail is shown, and the status changes only after navigation succeeds. The view stays consistent with its last response. |
| BotView.ChatView.ClearConversation | com.zalaris.codeBot/src/com/zalaris/codebot/views/BotView.java:215-224 | Every widget is reset and the paste button is disabled. |
| BotView.ChatView.HandlePaste | com.zalaris.codeBot/src/com/zalaris/codebot/views/BotView.java:321-341 | The suggestion is pasted when there is one. Otherwise the user is told. The view stays consistent with its last response. |
| BotView.PasteEnabledIff | com.zalaris.codeBot/src/com/zalaris/codebot/views/BotView.java:142 | The paste button is enabled iff a fix or a template can be pasted. |
| BotView.ListedPermutes | com.zalaris.codeBot/src/com/zalaris/codebot/views/BotView.java:164-185 | The listed violations are the response's, reordered. |
| BotView.ListedKeepsMajors | com.zalaris.codeBot/src/com/zalaris/codebot/views/BotView.java:191-193 | Sorting does not change whether a MAJOR violation exists. |
| BackendApiClient.SettingNames | com.zalaris.codeBot/src/com/zalaris/codebot/api/BackendApiClient.java:51 | `codebot.backend.url` and `codebot.user` are read from `CODEBOT_BACKEND_URL` and `CODEBOT_USER`. |
| BackendApiClient.EnvName | com.zalaris.codeBot/src/com/zalaris/codebot/api/BackendApiClient.java:51 | The variable name has the length of the property key. |
| BackendApiClient.ReadSettingSpec | com.zalaris.codeBot/src/com/zalaris/codebot/api/BackendApiClient.java:48-54 | The property comes first, then the variable, each trimmed. A blank value falls back to the default. |
| BackendApiClient.FirstUsableSpec | com.zalaris.codeBot/src/com/zalaris/codebot/api/BackendApiClient.java:72-79 | The first non-blank candidate wins. |
| BackendApiClient.ResolveDeveloperIdentity | com.zalaris.codeBot/src/com/zalaris/codebot/api/BackendApiClient.java:56-81 | The loop returns `Identity`. |
| BackendApiClient.IdentitySpec | com.zalaris.codeBot/src/com/zalaris/codebot/api/BackendApiClient.java:56-81 | The identity is never empty. `codebot.user` comes first, then the six candidates in order, else "unknown-developer". |
| BackendApiClient.StripSlashesSpec | com.zalaris.codeBot/src/com/zalaris/codebot/api/BackendApiClient.java:91-93 | Only trailing `/` chars are removed, and all of them. |
| BackendApiClient.NormalizeBaseUrl | com.zalaris.codeBot/src/com/zalaris/codebot/api/BackendApiClient.java:83-104 | The method returns `NormalizedUrl`. |
| BackendApiClient.NormalizedUrlScheme | com.zalaris.codeBot/src/com/zalaris/codebot/api/BackendApiClient.java:83-104 | A blank URL gives the default. The result always has an http or https scheme, and https only when it was configured. A loopback host is never https. |
| BackendApiClient.NormalizedUrlEnd | com.zalaris.codeBot/src/com/zalaris/codebot/api/BackendApiClient.java:91-98 | A trailing `/` survives only when the URL ended in `//api`. |
| BackendApiClient.NormalizedBareHost | com.zalaris.codeBot/src/com/zalaris/codebot/api/BackendApiClient.java:83-104 | `h/API/` becomes `http://h`. |
| BackendApiClient.NormalizedTwice | com.zalaris.codeBot/src/com/zalaris/codebot/api/BackendApiClient.java:91-98 | Normalising is not idempotent: `h//api` gives `http://h/`, which normalises again to `http://h`. |
| BackendApiClient.SlashApiNormalized | com.zalaris.codeBot/src/com/zalaris/codebot/api/BackendApiClient.java:91-98 | `h//api` normalises to `http://h/`, because the slashes are stripped before `/api` is cut. |
| BackendApiClient.HostSlashNormalized | com.zalaris.codeBot/src/com/zalaris/codebot/api/BackendApiClient.java:86-98 | `http://h/` keeps its scheme and loses its trailing slash. |
| BackendApiClient.NewClient | com.zalaris.codeBot/src/com/zalaris/codebot/api/BackendApiClient.java:41-46 | Sets the base URL, the user, the project and the pack from the settings. |
| BackendApiClient.AssistPayloadSpec | com.zalaris.codeBot/src/com/zalaris/codebot/api/BackendApiClient.java:116-137 | Ten keys in source order, with `top_k` 6. The payload is one the codec round-trips. |
| BackendApiClient.ValidatePayloadSpec | com.zalaris.codeBot/src/com/zalaris/codebot/api/BackendApiClient.java:144-157 | Eight keys in source order, with `top_k` 30. The payload round-trips. |
| BackendApiClient.LogPayloadSpec | com.zalaris.codeBot/src/com/zalaris/codebot/api/BackendApiClient.java:164-174 | Six keys in source order. Pack, severity and status are never blank, and a given non-blank value is kept. The payload round-trips. |
| BackendApiClient.PostJson | com.zalaris.codeBot/src/com/zalaris/codebot/api/BackendApiClient.java:181-198 | The request sends the stringified payload, and the reply is judged by `Posted`. |
| BackendApiClient.PostedSpec | com.zalaris.codeBot/src/com/zalaris/codebot/api/BackendApiClient.java:192-197 | An answer is given iff the status is 2xx and the body parses. Any other status is an error "Backend API error ...: body". |
| BackendApiClient.PostedRoundTrip | com.zalaris.codeBot/src/com/zalaris/codebot/api/BackendApiClient.java:183-197 | A 2xx reply whose body is a written map gives back that map. |
| BackendApiClient.Assist | com.zalaris.codeBot/src/com/zalaris/codebot/api/BackendApiClient.java:116-137 | Posts the assist payload to `/api/bot/assist`. |
| BackendApiClient.Validate | com.zalaris.codeBot/src/com/zalaris/codebot/api/BackendApiClient.java:144-157 | Posts the validate payload to `/api/bot/validate`. |
| BackendApiClient.LogViolation | com.zalaris.codeBot/src/com/zalaris/codebot/api/BackendApiClient.java:164-174 | Posts the log payload to `/api/dashboard/violations`. |
| BackendApiClient.MarkViolationFixed | com.zalaris.codeBot/src/com/zalaris/codebot/api/BackendApiClient.java:176-179 | Logs "generic", "MAJOR", "fixed". |
| ActivationValidator.Validate | com.zalaris.codeBot/src/com/zalaris/codebot/validation/ActivationValidator.java:24-35 | Invalid iff the source is non-null and contains the case-sensitive `FORBIDDEN_KEYWORD`. The refusal names the object. Otherwise the result is `ok()`. |
| ActivationValidator.ValidateIgnoresType | com.zalaris.codeBot/src/com/zalaris/codebot/validation/ActivationValidator.java:24-35 | The object type never matters. |
| ActivationValidator.RefusalSurvivesEdits | com.zalaris.codeBot/src/com/zalaris/codebot/validation/ActivationValidator.java:26-30 | Adding code around a refused source keeps it refused. |
| ActivationValidator.ShortCodePasses | com.zalaris.codeBot/src/com/zalaris/codebot/validation/ActivationValidator.java:24-35 | A `null` source, or one shorter than the keyword, is OK. |
| ActivateWithValidationHandler.HasMajor | com.zalaris.codeBot/src/com/zalaris/codebot/handlers/ActivateWithValidationHandler.java:48-59 | True iff some severity, read as `""` when `null` and upper-cased without trimming, is "MAJOR". |
| ActivateWithValidationHandler.Execute | com.zalaris.codeBot/src/com/zalaris/codebot/handlers/ActivateWithValidationHandler.java:28-46 | Governance is updated with the full list before the decision. Activation is blocked, with the response's message, iff `hasMajor`. Both governance timestamps keep their values. |
| ActivateWithValidationHandler.UpperMajorIsMajor | com.zalaris.codeBot/src/com/zalaris/codebot/handlers/ActivateWithValidationHandler.java:53-54 | Whatever `hasMajor` counts as MAJOR, governance counts too. |
| ActivateWithValidationHandler.BlockedIsPending | com.zalaris.codeBot/src/com/zalaris/codebot/handlers/ActivateWithValidationHandler.java:31-40 | A blocked activation leaves pending governance majors. |
| ActivateWithValidationHandler.SeverityReadings | com.zalaris.codeBot/src/com/zalaris/codebot/handlers/ActivateWithValidationHandler.java:53 | The three files disagree. A `null` or `" major "` severity blocks for governance but not for `hasMajor`. A blank one ranks as MAJOR in the view but blocks nowhere. |
| ActivateWithValidationHandler.UnsetSeverityActivates | com.zalaris.codeBot/src/com/zalaris/codebot/handlers/ActivateWithValidationHandler.java:31-44 | A lone violation with no severity is activated, yet governance keeps it pending. |

## Left out

- Json.Serialize: a floating-point value is written as the token it was read from. Java writes `Double.toString(d)`, so `1e3` is written back as `1000.0`. Doubles are not modelled.
- SimpleRuleBot.ValueText: prints a floating-point value as its token, not as `String.valueOf(double)`.
- SimpleRuleBot.AsInt: a floating-point number gives the fallback. Java returns `intValue()` of the double, truncated toward zero and saturated, which needs doubles.
- Json.TokenValue: a token with `.`, `e` or `E` counts as a double only in decimal form. Hex floats such as `0x1.8p1`, which `Double.parseDouble` accepts, are kept as strings. A double's value is never computed.
- JsonRoundTrip.RoundTrip: covers only values without doubles and with integers within a `long`. The payloads the client sends are of that kind.
- JavaText.ToUpper: maps ASCII letters only. `toUpperCase(Locale.ROOT)` also maps other letters:
  - at ValidateHandler.java:92, 96 and 118, ViolationGovernanceService.java:207 and BotView.java:254;
  - `ß` becomes `SS` and changes the length;
  - `ſ` becomes `S` and `ı` becomes `I`.

  So a severity or a line that holds such letters is judged differently.
- JavaText.ToLower: maps ASCII letters only. At ViolationGovernanceService.java:214, BackendApiClient.java:94 and SimpleRuleBot.java:46 (the last with the default locale), Java also maps the Kelvin sign to `k` and other non-ASCII capitals.
- BackendApiClient.EnvName: upper-cases ASCII only. BackendApiClient.java:51 uses the default locale, so under a Turkish locale `i` becomes `İ` and the variable name differs.
- JavaText.CharCast: the escapes `\uD800`–`\uDFFF` append nothing. A surrogate pair written as two escapes, which Java joins into one character such as an emoji, is lost. Strings here are sequences of Unicode scalar values, not UTF-16 units. The same holds for the lengths Java counts in UTF-16.
- JavaText.ParseDecimal: accepts ASCII digits only. `Long.parseLong` and `Integer.parseInt` also accept other Unicode decimal digits, such as Arabic-Indic ones.
- JavaText.ParseHex: accepts ASCII hex digits only, for the same reason.
- HTTP: the `HttpClient`, the no-proxy selector, the 8 s connect timeout, the 20 s request timeout and the `Content-Type` header are not modelled. The exchange is the parameter `send`, and the user header travels in `Request.user`. A base URL that `URI.create` rejects is not modelled.
- Environment: system properties and environment variables are the `Environment` parameter.
- Clock: `System.currentTimeMillis` is the parameter `now`.
- Threads:
  - the background validation thread, `Display.syncExec`/`asyncExec` and volatile torn reads are not modelled;
  - an accepted trigger returns `started`, and the attempt is a separate call;
  - the 250 ms retry read of the editor is the parameter `retriedCode`.
- Editor: `AbapEditorUtil` is not part of this model. The active editor's name, content and resource, and whether `goToLine` or `insertTextAtCursor` succeeded, are parameters.
- Dialogs:
  - message dialogs become returned strings;
  - the forgotten-validation warning becomes the `WarnForgotValidation` effect;
  - the requests to the backend become `Effect` values;
  - console output is dropped.
- Markers:
  - a marker is a value holding its type, resource, source, message, severity and line;
  - marker ids and the other attributes are not modelled;
  - marker subtypes are not modelled, and types are compared exactly;
  - a failing `createMarker` is not modelled.
- ActivateWithValidationHandler.Execute: `performRealActivation` is an empty placeholder in the source, and the decision `Activated` stands for it. The dialogs are not modelled.
- BotView.ChatView.HandleChat: `violationsList.select(0)` is not modelled, because the model has no list selection. The `lastResponse == null` branch is not modelled, because `reply` never returns `null`.
- BotView.ChatView: `createPartControl`, `hookListeners` and `setFocus` are widget layout and wiring. Each listener is one of the view's methods.
- BotView.SortBy: `List.sort` (TimSort) is modelled as a stable insertion sort. A stable sort by a key has only one possible result.
- BackendApiClient: the shorter overloads of `assist`, `validate` and `logViolation` pass a fixed last argument, so only the full forms are modelled.
- JsonParser.Parser.ParseArray: a loop that never ends is the result `Diverges`. The memory that the ever-growing list would use up is not modelled.
- Not modelled, because they are outside the core:
  - the template handlers and repositories;
  - `chatView.java`;
  - `CodeBotStartup.java`.
