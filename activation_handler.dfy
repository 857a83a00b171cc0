/**
 * `ActivateWithValidationHandler`: validates the active editor, records the
 * result with governance, and activates only when no violation is MAJOR by
 * its own reading of the severity. The dialogs are the returned `Decision`.
 */
module ActivateWithValidationHandler {
  import opened Wrappers
  import opened JavaText
  import opened BotResponse
  import opened BackendApiClient
  import Bot = SimpleRuleBot
  import Gov = ViolationGovernanceService
  import View = BotView
  import Markers

  /** What the user is shown: the error dialog with the response's message, or the success dialog. */
  datatype Decision = Blocked(message: string) | Activated

  /** `hasMajor`'s test of one violation: the severity (`""` when missing) upper-cased, not trimmed. */
  predicate UpperMajor(v: RuleViolation) {
    ToUpper(v.severity.GetOr("")) == "MAJOR"
  }

  /** `hasMajor`: some violation passes the test. */
  method HasMajor(violations: seq<RuleViolation>) returns (b: bool)
    ensures b <==> exists v :: v in violations && UpperMajor(v)
  {
    if violations == [] {
      return false;
    }
    for i := 0 to |violations|
      invariant forall j :: 0 <= j < i ==> !UpperMajor(violations[j])
    {
      if UpperMajor(violations[i]) {
        return true;
      }
    }
    return false;
  }

  /** The decision `execute` takes on a validation response. */
  function Decided(response: Response): Decision {
    if exists v :: v in response.violations && UpperMajor(v) then Blocked(response.message) else Activated
  }

  /**
   * `execute`: `outcome` is what the validate call gives and `editorName`
   * the active editor's name. Governance records the violations before the
   * decision, whichever way it goes.
   */
  method Execute(governance: Gov.Governance, outcome: Outcome, editorName: string, activeResource: Option<string>)
    returns (d: Decision)
    modifies governance, governance.workspace
    ensures var response := Bot.ValidateCurrentEditor(outcome);
      && d == Decided(response)
      && governance.pendingObjectName == editorName
      && governance.pendingMajors == Gov.Majors(response.violations)
      && governance.lastLoggedAtMillis == old(governance.lastLoggedAtMillis)
      && governance.lastValidationRunMillis == old(governance.lastValidationRunMillis)
      && governance.workspace.markers ==
           if governance.pendingMajors == [] then Markers.Remove(old(governance.workspace.markers), Gov.Everywhere)
           else Gov.Published(old(governance.workspace.markers), activeResource, governance.pendingMajors)
  {
    var response := Bot.ValidateCurrentEditor(outcome);
    var violations := response.violations;
    governance.UpdateFromValidation(Some(editorName), Some(violations), activeResource);
    var major := HasMajor(violations);
    if major {
      return Blocked(response.message);
    }
    return Activated;
  }

  /** A severity that upper-cases to `MAJOR` is five letters, so trimming leaves it as it is. */
  lemma UpperMajorIsMajor(v: RuleViolation)
    requires UpperMajor(v)
    ensures Gov.IsMajor(v)
  {
    var s := v.severity.GetOr("");
    assert |s| == 5;
    assert s[0] > ' ' && s[4] > ' ' by {
      assert ToUpper(s)[0] == 'M' && ToUpper(s)[4] == 'R';
    }
    assert TrimStart(s) == s;
    assert TrimEnd(s) == s;
  }

  /**
   * A blocked activation always leaves governance holding the violations
   * that blocked it; the converse fails (see `SeverityReadings`).
   */
  lemma BlockedIsPending(response: Response)
    requires Decided(response).Blocked?
    ensures Gov.Majors(response.violations) != []
    ensures forall v :: v in response.violations && UpperMajor(v) ==> v in Gov.Majors(response.violations)
  {
    var v :| v in response.violations && UpperMajor(v);
    UpperMajorIsMajor(v);
    Gov.MajorsNonEmpty(response.violations);
    forall w | w in response.violations && UpperMajor(w) ensures w in Gov.Majors(response.violations) {
      UpperMajorIsMajor(w);
      Gov.MajorsSpec(response.violations, w);
    }
  }

  /**
   * The three readings of a severity disagree: a missing or padded `major`
   * is MAJOR to governance and the view but lets this handler activate, and
   * a blank one is MAJOR only to the view.
   */
  lemma SeverityReadings(v: RuleViolation)
    ensures v.severity.None? ==>
      Gov.IsMajor(v) && !UpperMajor(v) && View.NormalizeSeverity(v.severity) == "MAJOR"
    ensures v.severity == Some(" major ") ==>
      Gov.IsMajor(v) && !UpperMajor(v) && View.NormalizeSeverity(v.severity) == "MAJOR"
    ensures v.severity == Some("   ") ==>
      !Gov.IsMajor(v) && !UpperMajor(v) && View.NormalizeSeverity(v.severity) == "MAJOR"
  {
    if v.severity == Some(" major ") {
      assert TrimStart(" major ") == "major ";
      assert TrimEnd("major ") == "major";
      assert ToUpper(" major ")[0] == ' ';
      assert !IsBlank(" major ") by { assert !IsWhitespace(" major "[1]); }
    } else if v.severity == Some("   ") {
      assert TrimStart("   ") == "";
      assert ToUpper("   ")[0] == ' ';
    }
  }

  /**
   * So a validation whose one violation has no severity is activated, while
   * governance keeps that violation pending and marks it.
   */
  lemma UnsetSeverityActivates(response: Response, v: RuleViolation)
    requires response.violations == [v] && v.severity.None?
    ensures Decided(response) == Activated
    ensures Gov.Majors(response.violations) == [v]
  {
    SeverityReadings(v);
    assert Gov.Majors([v]) == Gov.Majors([]) + [v];
  }
}
