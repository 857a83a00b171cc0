/**
 * `ActivationValidator`: the one activation rule the plugin ships, which
 * refuses source code naming a forbidden keyword.
 */
module ActivationValidator {
  import opened Wrappers
  import opened JavaText

  /** `ValidationResult`: whether activation may go ahead, and why not. */
  datatype ValidationResult = ValidationResult(valid: bool, message: string)

  /** `ValidationResult.ok()`. */
  const Ok: ValidationResult := ValidationResult(true, "OK")

  const ForbiddenKeyword: string := "FORBIDDEN_KEYWORD"

  /** A string as string concatenation prints it: `null` as `null`. */
  function Printed(s: Option<string>): string {
    if s.None? then "null" else s.value
  }

  /** The message of a refusal for the object named `objectName`. */
  function Refusal(objectName: Option<string>): string {
    "Activation blocked: usage of FORBIDDEN_KEYWORD is not allowed in " + Printed(objectName) + "."
  }

  /**
   * `validate`: an error exactly when there is source code and it contains
   * the forbidden keyword; the object type is not looked at.
   */
  function Validate(objectName: Option<string>, objectType: Option<string>, sourceCode: Option<string>)
    : (r: ValidationResult)
    ensures !r.valid <==> sourceCode.Some? && Contains(sourceCode.value, ForbiddenKeyword)
    ensures r.valid ==> r == Ok
    ensures !r.valid ==> r.message == Refusal(objectName)
  {
    if sourceCode.Some? && Contains(sourceCode.value, ForbiddenKeyword) then
      ValidationResult(false, Refusal(objectName))
    else Ok
  }

  /** The object type never changes the verdict. */
  lemma ValidateIgnoresType(objectName: Option<string>, t1: Option<string>, t2: Option<string>, sourceCode: Option<string>)
    ensures Validate(objectName, t1, sourceCode) == Validate(objectName, t2, sourceCode)
  {
  }

  /** `s` occurs in any text that has it in the middle. */
  lemma ContainsWithin(s: string, part: string, before: string, after: string)
    requires Contains(s, part)
    ensures Contains(before + s + after, part)
  {
    var i :| 0 <= i <= |s| - |part| && OccursAt(s, part, i);
    var t := before + s + after;
    assert t[|before| + i..|before| + i + |part|] == s[i..i + |part|];
    assert OccursAt(t, part, |before| + i);
  }

  /** Refused code stays refused whatever is written around it. */
  lemma RefusalSurvivesEdits(objectName: Option<string>, objectType: Option<string>, code: string,
                             before: string, after: string)
    requires !Validate(objectName, objectType, Some(code)).valid
    ensures !Validate(objectName, objectType, Some(before + code + after)).valid
  {
    ContainsWithin(code, ForbiddenKeyword, before, after);
  }

  /** Code shorter than the keyword, and a missing source, always pass. */
  lemma ShortCodePasses(objectName: Option<string>, objectType: Option<string>, code: string)
    requires |code| < |ForbiddenKeyword|
    ensures Validate(objectName, objectType, Some(code)) == Ok
    ensures Validate(objectName, objectType, None) == Ok
  {
  }
}
