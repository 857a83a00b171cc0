/**
 * `BotResponse`: what the assistant answers, and the rule violations it
 * carries. Every field is final, so both are values.
 */
module BotResponse {
  import opened Wrappers
  import opened JavaText

  /** The three kinds of answer. */
  datatype Kind = Info | ValidationResult | TemplateSuggestion

  /**
   * One violated rule as the dashboard reports it. `severity` is the field
   * every caller passes and reads (see README); `severity` and `correctCode`
   * may be `null`, so they are options. `line` is a Java `int`.
   */
  datatype RuleViolation = RuleViolation(
    projectName: string,
    rulePackName: string,
    ruleId: string,
    title: string,
    description: string,
    severity: Option<string>,
    line: int,
    correctCode: Option<string>)

  /** An answer: its kind, its text, an optional code snippet and the violations found. */
  datatype Response = Response(
    kind: Kind,
    message: string,
    templateCode: Option<string>,
    violations: seq<RuleViolation>)
  {
    /** `hasTemplate`: a snippet is present and not empty; whitespace counts as content. */
    predicate HasTemplate() {
      templateCode.Some? && templateCode.value != []
    }

    /** `hasViolations`. */
    predicate HasViolations() {
      violations != []
    }
  }

  /**
   * The four-argument constructor: a `null` violation list is stored as an
   * empty one, so `getViolations` never returns `null`.
   */
  function NewResponse(kind: Kind, message: string, templateCode: Option<string>,
                       violations: Option<seq<RuleViolation>>): (r: Response)
    ensures r.kind == kind && r.message == message && r.templateCode == templateCode
    ensures violations.None? ==> r.violations == [] && !r.HasViolations()
    ensures violations.Some? ==> r.violations == violations.value
  {
    Response(kind, message, templateCode, if violations.Some? then violations.value else [])
  }

  /** The three-argument constructor: a snippet and no violations. */
  function WithTemplate(kind: Kind, message: string, templateCode: Option<string>): (r: Response)
    ensures r.kind == kind && r.message == message
    ensures r.templateCode == templateCode && !r.HasViolations()
    ensures r.HasTemplate() <==> templateCode.Some? && templateCode.value != []
  {
    NewResponse(kind, message, templateCode, Some([]))
  }

  /** The two-argument constructor: no snippet and no violations. */
  function WithMessage(kind: Kind, message: string): (r: Response)
    ensures r.kind == kind && r.message == message
    ensures r.templateCode.None? && !r.HasTemplate() && !r.HasViolations()
  {
    WithTemplate(kind, message, None)
  }
}
