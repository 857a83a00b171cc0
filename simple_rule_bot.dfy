/**
 * `SimpleRuleBot`: turns a question into a backend call and the decoded
 * reply map into a `Response`, field by field with a default for each.
 */
module SimpleRuleBot {
  import opened Wrappers
  import opened JavaText
  import opened Json
  import opened BotResponse
  import opened BackendApiClient
  import opened Seqs

  const HelpText: string :=
    "Ask for validation, template, or wizard guidance. Example: 'validate current object' or 'template for singleton class'."
  const ConnectionFailed: string :=
    "Backend connection failed. Ensure API is running and reachable at codebot.backend.url.\nDetails: "
  const ValidationFailed: string := "Backend validation failed. "
  const NoResponse: string := "No response from backend."

  // ---------------------------------------------------------------------------
  // Reading a decoded map (`asMap`, `asList`, `asString`, `asInt`, `Map.get`)
  // ---------------------------------------------------------------------------

  /** `Map.get`: the value stored under `key`; an absent key reads as `null`. */
  function Get(m: seq<(string, Value)>, key: string): (r: Value)
    ensures KeyIndex(m, key).None? ==> r == Null
    ensures KeyIndex(m, key).Some? ==> (key, r) in m
  {
    match KeyIndex(m, key)
    case Some(i) => m[i].1
    case None => Null
  }

  /** `asMap`: the entries of a map, or none. */
  function AsMap(v: Value): seq<(string, Value)> {
    if v.Obj? then v.entries else []
  }

  /** `asList`: the items of a list, or none. */
  function AsList(v: Value): seq<Value> {
    if v.Arr? then v.items else []
  }

  /**
   * `String.valueOf` of a decoded value: `Long.toString` for integers, the
   * text itself for strings, and `{k=v, ...}` / `[a, b]` for maps and lists
   * as `AbstractMap.toString` and `AbstractCollection.toString` write them.
   * Only the empty string and an empty float token print as nothing.
   */
  function ValueText(v: Value): (r: string)
    ensures r == [] <==> v == Str([]) || v == Float([])
    decreases v, 1
  {
    match v
    case Null => "null"
    case Bool(b) => if b then "true" else "false"
    case Int(n) => DecimalString(n)
    case Float(t) => t
    case Str(s) => s
    case Obj(es) => "{" + EntriesText(es) + "}"
    case Arr(vs) => "[" + ItemsText(vs) + "]"
  }

  function EntriesText(es: seq<(string, Value)>): string
    decreases es, 0
  {
    if es == [] then ""
    else
      assert es[0] in es && es[0].1 < es[0];
      var entry := es[0].0 + "=" + ValueText(es[0].1);
      if |es| == 1 then entry else entry + ", " + EntriesText(es[1..])
  }

  function ItemsText(vs: seq<Value>): string
    decreases vs, 0
  {
    if vs == [] then ""
    else
      assert vs[0] in vs;
      if |vs| == 1 then ValueText(vs[0]) else ValueText(vs[0]) + ", " + ItemsText(vs[1..])
  }

  /** `asString`: the printed value, or `fallback` for `null` and for what prints as nothing. */
  function AsString(value: Value, fallback: string): (r: string)
    ensures r == fallback || r == ValueText(value)
    ensures value.Null? ==> r == fallback
    ensures value.Str? && value.s != [] ==> r == value.s
    ensures fallback != [] ==> r != []
  {
    if value.Null? then fallback
    else
      var text := ValueText(value);
      if text == [] then fallback else text
  }

  /**
   * `asInt`: a number's `intValue`, else `Integer.parseInt` of the printed
   * value, else `fallback`. A floating-point number is not converted (see README).
   */
  function AsInt(value: Value, fallback: int): (r: int)
    ensures IntMin <= fallback <= IntMax ==> IntMin <= r <= IntMax
    ensures value.Int? ==> r == ToInt32(value.n)
  {
    match value
    case Int(n) => ToInt32(n)
    case Float(_) => fallback
    case _ =>
      match ParseInt(ValueText(value))
      case Some(i) => i
      case None => fallback
  }

  /** A line number sent as text reads as that number. */
  lemma AsIntOfDecimalText(n: int, fallback: int)
    requires IntMin <= n <= IntMax
    ensures AsInt(Str(DecimalString(n)), fallback) == n
  {
    DecimalRoundTrip(n, IntMin, IntMax);
  }

  /** Neither a number nor a string: `null`, a boolean, a map or a list reads as the fallback. */
  lemma AsIntOfNonText(value: Value, fallback: int)
    requires value.Null? || value.Bool? || value.Obj? || value.Arr?
    ensures AsInt(value, fallback) == fallback
  {
    var text := ValueText(value);
    assert !IsDigit(text[0]) && text[0] != '-' && text[0] != '+';
  }

  // ---------------------------------------------------------------------------
  // Violations (`parseViolations`, `firstViolationFix`)
  // ---------------------------------------------------------------------------

  /** The violation every field of which took its default. */
  const DefaultViolation: RuleViolation :=
    RuleViolation("ADT", "generic", "unknown.rule", "Rule violation", "Violation detected.",
                  Some("MAJOR"), 1, Some(""))

  /** One list element decoded as a violation, each field from its key or its default. */
  function ParseViolation(item: Value): (r: RuleViolation)
    ensures r.severity.Some? && r.severity.value != []
    ensures r.correctCode.Some? && IntMin <= r.line <= IntMax
  {
    var v := AsMap(item);
    RuleViolation(
      AsString(Get(v, "project"), "ADT"),
      AsString(Get(v, "rule_pack"), "generic"),
      AsString(Get(v, "rule_id"), "unknown.rule"),
      AsString(Get(v, "title"), "Rule violation"),
      AsString(Get(v, "message"), AsString(Get(v, "description"), "Violation detected.")),
      Some(AsString(Get(v, "severity"), "MAJOR")),
      AsInt(Get(v, "line"), 1),
      Some(AsString(Get(v, "suggested_code"), AsString(Get(v, "fix"), ""))))
  }

  /** An element that is not a map, or an empty map, decodes as the all-defaults violation. */
  lemma ParseViolationOfNonMap(item: Value)
    requires !item.Obj? || item.entries == []
    ensures ParseViolation(item) == DefaultViolation
  {
    AsIntOfNonText(Null, 1);
  }

  /** Each element decoded, in order. */
  function DecodeAll(items: seq<Value>): (r: seq<RuleViolation>)
    ensures |r| == |items|
  {
    if items == [] then [] else DecodeAll(items[..|items| - 1]) + [ParseViolation(items[|items| - 1])]
  }

  /** The violations of a reply: one per element of the list, in order. */
  function ViolationsOf(raw: Value): seq<RuleViolation> {
    DecodeAll(AsList(raw))
  }

  /** Decoding one more element appends its violation. */
  lemma DecodeSnoc(items: seq<Value>, item: Value)
    ensures DecodeAll(items + [item]) == DecodeAll(items) + [ParseViolation(item)]
  {
    SnocTake(items, item);
  }

  /** `parseViolations`: decodes the list element by element into a new list. */
  method ParseViolations(raw: Value) returns (result: seq<RuleViolation>)
    ensures result == ViolationsOf(raw)
  {
    var items := AsList(raw);
    result := [];
    for i := 0 to |items|
      invariant result == DecodeAll(items[..i])
    {
      DecodeSnoc(items[..i], items[i]);
      TakeNext(items, i);
      result := result + [ParseViolation(items[i])];
    }
    TakeAll(items);
  }

  /** A violation carries a correction with something other than blanks in it. */
  predicate HasFix(v: RuleViolation) {
    v.correctCode.Some? && Trim(v.correctCode.value) != []
  }

  /** The first correction that is not blank, else `""`. */
  function FirstFix(vs: seq<RuleViolation>): string {
    if vs == [] then ""
    else if HasFix(vs[0]) then vs[0].correctCode.value
    else FirstFix(vs[1..])
  }

  /** `FirstFix` is empty exactly when no violation has a usable correction. */
  lemma {:induction false} FirstFixEmpty(vs: seq<RuleViolation>)
    ensures FirstFix(vs) == [] <==> forall i :: 0 <= i < |vs| ==> !HasFix(vs[i])
  {
    if vs != [] && !HasFix(vs[0]) {
      FirstFixEmpty(vs[1..]);
      assert forall i :: 1 <= i < |vs| ==> vs[i] == vs[1..][i - 1];
    }
  }

  /** A non-empty `FirstFix` is the correction of the first violation that has a usable one. */
  lemma {:induction false} FirstFixFound(vs: seq<RuleViolation>)
    requires FirstFix(vs) != []
    ensures exists i :: 0 <= i < |vs| && HasFix(vs[i]) && vs[i].correctCode.value == FirstFix(vs)
                        && forall j :: 0 <= j < i ==> !HasFix(vs[j])
  {
    if !HasFix(vs[0]) {
      var rest := vs[1..];
      FirstFixFound(rest);
      assert FirstFix(vs) == FirstFix(rest);
      var k :| 0 <= k < |rest| && HasFix(rest[k]) && rest[k].correctCode.value == FirstFix(rest)
               && forall j :: 0 <= j < k ==> !HasFix(rest[j]);
      assert vs[k + 1] == rest[k];
      forall j | 0 <= j < k + 1 ensures !HasFix(vs[j]) {
        if j > 0 {
          assert vs[j] == rest[j - 1];
        }
      }
    }
  }

  /** A correction `FirstFix` picks is never blank. */
  lemma {:induction false} FirstFixUsable(vs: seq<RuleViolation>)
    ensures FirstFix(vs) != [] ==> Trim(FirstFix(vs)) != []
  {
    if vs != [] && !HasFix(vs[0]) {
      FirstFixUsable(vs[1..]);
    }
  }

  /** `firstViolationFix`: scans the violations and returns at the first usable correction. */
  method FirstViolationFix(vs: seq<RuleViolation>) returns (fix: string)
    ensures fix == FirstFix(vs)
  {
    for i := 0 to |vs|
      invariant FirstFix(vs) == FirstFix(vs[i..])
    {
      assert vs[i..][1..] == vs[i + 1..];
      if HasFix(vs[i]) {
        return vs[i].correctCode.value;
      }
    }
    return "";
  }

  // ---------------------------------------------------------------------------
  // Classification (`firstSnippet`, `toBotResponse`)
  // ---------------------------------------------------------------------------

  /** `firstSnippet`: the `snippet` of the first suggestion under `key`, or `""`. */
  function FirstSnippet(suggestions: seq<(string, Value)>, key: string): (r: string)
    ensures AsList(Get(suggestions, key)) == [] ==> r == []
  {
    var entries := AsList(Get(suggestions, key));
    if entries == [] then "" else AsString(Get(AsMap(entries[0]), "snippet"), "")
  }

  /** The template of a reply: the first template snippet, else the first wizard snippet. */
  function TemplateOf(response: seq<(string, Value)>): (r: string)
    ensures var s := AsMap(Get(response, "suggestions"));
      r == (if FirstSnippet(s, "templates") != [] then FirstSnippet(s, "templates") else FirstSnippet(s, "wizards"))
  {
    var suggestions := AsMap(Get(response, "suggestions"));
    var template := FirstSnippet(suggestions, "templates");
    if template == [] then FirstSnippet(suggestions, "wizards") else template
  }

  /**
   * `toBotResponse`: violations make a validation result whose snippet is the
   * first usable correction or else the template; without violations a
   * template makes a template suggestion; anything else is information with
   * no snippet. The message is never empty.
   */
  function ToBotResponse(response: seq<(string, Value)>): (r: Response)
    ensures r.message == AsString(Get(response, "message"), NoResponse) && r.message != []
    ensures Get(response, "message").Null? ==> r.message == NoResponse
    ensures Get(response, "message").Str? && Get(response, "message").s != [] ==> r.message == Get(response, "message").s
    ensures r.violations == ViolationsOf(Get(response, "violations"))
    ensures r.kind == ValidationResult <==> r.HasViolations()
    ensures r.kind == TemplateSuggestion <==> !r.HasViolations() && TemplateOf(response) != []
    ensures r.kind == Info <==> !r.HasViolations() && TemplateOf(response) == []
    ensures r.kind == Info ==> r.templateCode.None?
    ensures r.kind == TemplateSuggestion ==> r.templateCode == Some(TemplateOf(response)) && r.HasTemplate()
    ensures r.kind == ValidationResult ==>
      r.templateCode == Some(if FirstFix(r.violations) != [] then FirstFix(r.violations) else TemplateOf(response))
  {
    var message := AsString(Get(response, "message"), NoResponse);
    var violations := ViolationsOf(Get(response, "violations"));
    var template := TemplateOf(response);
    var fix := FirstFix(violations);
    var paste := if fix != [] then fix else template;
    if violations != [] then NewResponse(ValidationResult, message, Some(paste), Some(violations))
    else if template != [] then NewResponse(TemplateSuggestion, message, Some(template), Some([]))
    else NewResponse(Info, message, None, Some([]))
  }

  // ---------------------------------------------------------------------------
  // Asking (`reply`, `isValidationQuery`, `validateCurrentEditor`)
  // ---------------------------------------------------------------------------

  /** `isValidationQuery`: the lower-cased query mentions validation. */
  predicate IsValidationQuery(query: string) {
    var q := ToLower(query);
    Contains(q, "validate") || Contains(q, "violation") || Contains(q, "check code")
  }

  /** The query the view sends for its Validate button asks for validation. */
  lemma ValidateButtonQuery()
    ensures IsValidationQuery("validate current object")
  {
    var q := ToLower("validate current object");
    assert q[..8] == "validate";
    assert OccursAt(q, "validate", 0);
  }

  /** What `reply` returns once the backend has answered or thrown. */
  function Answered(outcome: Outcome): (r: Response)
    ensures outcome.Failure? ==> r.kind == Info && !r.HasViolations() && r.message == ConnectionFailed + outcome.message
    ensures outcome.Answer? ==> r == ToBotResponse(outcome.response)
  {
    match outcome
    case Answer(m) => ToBotResponse(m)
    case Failure(msg) => WithMessage(Info, ConnectionFailed + msg)
  }

  /**
   * `reply`. The backend is the function `assist` from the trimmed query and
   * the logging flag to what the call gives. A missing or blank question is
   * answered with the help text without calling it.
   */
  function Reply(question: Option<string>, assist: (string, bool) -> Outcome): (r: Response)
    ensures question.None? || Trim(question.value) == [] ==> r == WithMessage(Info, HelpText)
    ensures question.Some? && Trim(question.value) != [] ==>
      var query := Trim(question.value);
      r == Answered(assist(query, IsValidationQuery(query)))
  {
    var query := if question.None? then "" else Trim(question.value);
    if query == [] then WithMessage(Info, HelpText)
    else Answered(assist(query, IsValidationQuery(query)))
  }

  /** A blank question gives the same answer whatever the backend would say. */
  lemma BlankQuestionSkipsBackend(question: Option<string>, a1: (string, bool) -> Outcome, a2: (string, bool) -> Outcome)
    requires question.None? || Trim(question.value) == []
    ensures Reply(question, a1) == Reply(question, a2)
    ensures Reply(question, a1).kind == Info && Reply(question, a1).message == HelpText
  {
  }

  /** `validateCurrentEditor`: the decoded reply, or information naming the failure. */
  function ValidateCurrentEditor(outcome: Outcome): (r: Response)
    ensures outcome.Failure? ==> r.kind == Info && !r.HasViolations() && r.message == ValidationFailed + outcome.message
    ensures outcome.Answer? ==> r == ToBotResponse(outcome.response)
  {
    match outcome
    case Answer(m) => ToBotResponse(m)
    case Failure(msg) => WithMessage(Info, ValidationFailed + msg)
  }
}
