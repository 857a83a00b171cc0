/**
 * `ViolationGovernanceService`: remembers the MAJOR violations of the last
 * validation of an object, keeps the workspace's "CodeBot" problem markers in
 * step with them, and re-validates when an activation command is seen.
 * The service's static fields are the fields of one `Governance` object;
 * the clock is the parameter `now`.
 */
module ViolationGovernanceService {
  import opened Wrappers
  import opened JavaText
  import opened Json
  import opened Seqs
  import opened BotResponse
  import opened BackendApiClient
  import SimpleRuleBot
  import opened Markers

  const Source: string := "CodeBot"
  const ForgotValidation: string :=
    "You have activated the code without performing Zalaris Code governance validations and your code has Major Violations. Open  Zalcode  and fix the Violations."
  /** Milliseconds between two activation-triggered validations. */
  const ValidationDebounce: int := 1200
  /** Milliseconds between two logged activation attempts. */
  const LogDebounce: int := 3000

  // ---------------------------------------------------------------------------
  // Severity filter (`normalizeSeverity`, `filterMajorOnly`)
  // ---------------------------------------------------------------------------

  /** `normalizeSeverity`: a missing severity counts as MAJOR; otherwise trimmed and upper-cased. */
  function NormalizeSeverity(severity: Option<string>): string {
    match severity
    case None => "MAJOR"
    case Some(s) => ToUpper(Trim(s))
  }

  predicate IsMajor(v: RuleViolation) {
    NormalizeSeverity(v.severity) == "MAJOR"
  }

  /** The MAJOR violations, in their order. */
  function Majors(vs: seq<RuleViolation>): (r: seq<RuleViolation>)
    ensures |r| <= |vs|
  {
    if vs == [] then []
    else
      var last := vs[|vs| - 1];
      Majors(vs[..|vs| - 1]) + (if IsMajor(last) then [last] else [])
  }

  lemma MajorsSnoc(vs: seq<RuleViolation>, v: RuleViolation)
    ensures Majors(vs + [v]) == Majors(vs) + (if IsMajor(v) then [v] else [])
  {
    SnocTake(vs, v);
  }

  /** Exactly the MAJOR violations are kept. */
  lemma {:induction false} MajorsSpec(vs: seq<RuleViolation>, v: RuleViolation)
    ensures v in Majors(vs) <==> v in vs && IsMajor(v)
  {
    if vs != [] {
      var front := vs[..|vs| - 1];
      MajorsSpec(front, v);
      DropLast(vs);
    }
  }

  /** Something stays pending exactly when some violation is MAJOR. */
  lemma MajorsNonEmpty(vs: seq<RuleViolation>)
    ensures Majors(vs) != [] <==> exists v :: v in vs && IsMajor(v)
  {
    if exists v :: v in vs && IsMajor(v) {
      var v :| v in vs && IsMajor(v);
      MajorsSpec(vs, v);
    }
    if Majors(vs) != [] {
      MajorsSpec(vs, Majors(vs)[0]);
    }
  }

  /** A list of MAJOR violations only is kept whole, in order. */
  lemma {:induction false} MajorsOfMajors(vs: seq<RuleViolation>)
    requires forall i :: 0 <= i < |vs| ==> IsMajor(vs[i])
    ensures Majors(vs) == vs
  {
    if vs != [] {
      var front := vs[..|vs| - 1];
      MajorsOfMajors(front);
      DropLast(vs);
    }
  }

  /** `filterMajorOnly`: a missing or empty list gives an empty one; otherwise the loop keeps the MAJOR ones. */
  method FilterMajorOnly(violations: Option<seq<RuleViolation>>) returns (result: seq<RuleViolation>)
    ensures result == Majors(violations.GetOr([]))
  {
    if violations.None? || violations.value == [] {
      return [];
    }
    var vs := violations.value;
    result := [];
    for i := 0 to |vs|
      invariant result == Majors(vs[..i])
    {
      MajorsSnoc(vs[..i], vs[i]);
      TakeNext(vs, i);
      if IsMajor(vs[i]) {
        result := result + [vs[i]];
      }
    }
    TakeAll(vs);
  }

  // ---------------------------------------------------------------------------
  // Decoding (`parseViolations`, `asString`, `asInt`)
  // ---------------------------------------------------------------------------

  /** The elements that are maps, in order. */
  function MapItems(items: seq<Value>): (r: seq<Value>)
    ensures |r| <= |items|
    ensures forall i :: 0 <= i < |r| ==> r[i].Obj?
  {
    if items == [] then []
    else
      var last := items[|items| - 1];
      MapItems(items[..|items| - 1]) + (if last.Obj? then [last] else [])
  }

  lemma MapItemsSnoc(items: seq<Value>, item: Value)
    ensures MapItems(items + [item]) == MapItems(items) + (if item.Obj? then [item] else [])
  {
    SnocTake(items, item);
  }

  /** On a list of maps nothing is skipped. */
  lemma {:induction false} MapItemsOfMaps(items: seq<Value>)
    requires forall i :: 0 <= i < |items| ==> items[i].Obj?
    ensures MapItems(items) == items
  {
    if items != [] {
      var front := items[..|items| - 1];
      MapItemsOfMaps(front);
      DropLast(items);
    }
  }

  /**
   * The violations governance reads from a reply: the map elements decoded
   * exactly as the bot decodes them (the two `asString`/`asInt` are the same
   * code); elements that are not maps are skipped, where the bot decodes them
   * as all-defaults violations.
   */
  function GovernanceViolationsOf(raw: Value): seq<RuleViolation> {
    SimpleRuleBot.DecodeAll(MapItems(SimpleRuleBot.AsList(raw)))
  }

  /** On a list of maps the two decoders agree. */
  lemma DecodersAgreeOnMaps(raw: Value)
    requires forall i :: 0 <= i < |SimpleRuleBot.AsList(raw)| ==> SimpleRuleBot.AsList(raw)[i].Obj?
    ensures GovernanceViolationsOf(raw) == SimpleRuleBot.ViolationsOf(raw)
  {
    MapItemsOfMaps(SimpleRuleBot.AsList(raw));
  }

  /** One more element: a map adds its violation, anything else adds nothing. */
  lemma DecodeMapsNext(items: seq<Value>, i: nat)
    requires i < |items|
    ensures SimpleRuleBot.DecodeAll(MapItems(items[..i + 1]))
         == SimpleRuleBot.DecodeAll(MapItems(items[..i]))
            + (if items[i].Obj? then [SimpleRuleBot.ParseViolation(items[i])] else [])
  {
    var done := items[..i];
    var item := items[i];
    TakeNext(items, i);
    MapItemsSnoc(done, item);
    if item.Obj? {
      SimpleRuleBot.DecodeSnoc(MapItems(done), item);
    } else {
      assert MapItems(done) + [] == MapItems(done);
    }
  }

  /** `parseViolations`: anything but a list gives no violations; elements that are not maps are skipped. */
  method ParseViolations(raw: Value) returns (result: seq<RuleViolation>)
    ensures result == GovernanceViolationsOf(raw)
  {
    if !raw.Arr? {
      return [];
    }
    var items := raw.items;
    result := [];
    for i := 0 to |items|
      invariant result == SimpleRuleBot.DecodeAll(MapItems(items[..i]))
    {
      var item := items[i];
      DecodeMapsNext(items, i);
      if item.Obj? {
        result := result + [SimpleRuleBot.ParseViolation(item)];
      }
    }
    TakeAll(items);
    assert SimpleRuleBot.AsList(raw) == items;
  }

  // ---------------------------------------------------------------------------
  // Markers (`publishMarkers`, `clearMarkers`, `clearAllCodeBotMarkersInWorkspace`)
  // ---------------------------------------------------------------------------

  /** The CodeBot problem markers on one resource. */
  function OnResource(resource: string): Selection {
    Selection(Some(resource), ProblemMarker, Some(Source))
  }

  /** The CodeBot problem markers anywhere in the workspace. */
  const Everywhere: Selection := Selection(None, ProblemMarker, Some(Source))

  /** The marker published for one violation: at its line, but never before line 1. */
  function MarkerFor(resource: string, v: RuleViolation): (m: Marker)
    ensures m.line >= 1 && (v.line >= 1 ==> m.line == v.line)
    ensures Selects(OnResource(resource), m)
  {
    Marker(resource, ProblemMarker, Source, ForgotValidation, SeverityError, if v.line < 1 then 1 else v.line)
  }

  /** One marker per violation, in order. */
  function MarkersFor(resource: string, vs: seq<RuleViolation>): (r: seq<Marker>)
    ensures |r| == |vs|
  {
    if vs == [] then [] else MarkersFor(resource, vs[..|vs| - 1]) + [MarkerFor(resource, vs[|vs| - 1])]
  }

  lemma MarkersForSnoc(resource: string, vs: seq<RuleViolation>, v: RuleViolation)
    ensures MarkersFor(resource, vs + [v]) == MarkersFor(resource, vs) + [MarkerFor(resource, v)]
  {
    SnocTake(vs, v);
  }

  /** Every published marker is a CodeBot marker of the resource at a line of at least 1. */
  lemma {:induction false} MarkersForSelected(resource: string, vs: seq<RuleViolation>, i: int)
    requires 0 <= i < |vs|
    ensures MarkersFor(resource, vs)[i] == MarkerFor(resource, vs[i])
  {
    var front := vs[..|vs| - 1];
    if i < |vs| - 1 {
      MarkersForSelected(resource, front, i);
    }
  }

  /** `clearMarkers(resource)`: deletes the CodeBot problem markers of that resource only. */
  method ClearMarkers(workspace: Workspace, resource: string)
    modifies workspace
    ensures workspace.markers == Remove(old(workspace.markers), OnResource(resource))
  {
    workspace.Delete(OnResource(resource));
  }

  /** `clearAllCodeBotMarkersInWorkspace`: deletes every CodeBot problem marker. */
  method ClearAllCodeBotMarkers(workspace: Workspace)
    modifies workspace
    ensures workspace.markers == Remove(old(workspace.markers), Everywhere)
  {
    workspace.Delete(Everywhere);
  }

  /** The markers after publishing `violations` on `resource`, as `publishMarkers` leaves them. */
  function Published(ms: seq<Marker>, resource: Option<string>, violations: seq<RuleViolation>): seq<Marker> {
    if resource.None? then ms
    else Remove(ms, OnResource(resource.value)) + MarkersFor(resource.value, violations)
  }

  /**
   * `publishMarkers`: with no active resource nothing happens; otherwise the
   * resource's CodeBot markers are replaced by one marker per violation.
   */
  method PublishMarkers(workspace: Workspace, resource: Option<string>, violations: seq<RuleViolation>)
    modifies workspace
    ensures resource.None? ==> workspace.markers == old(workspace.markers)
    ensures resource.Some? ==>
      workspace.markers == Remove(old(workspace.markers), OnResource(resource.value)) + MarkersFor(resource.value, violations)
  {
    if resource.None? {
      return;
    }
    var r := resource.value;
    ClearMarkers(workspace, r);
    ghost var kept := workspace.markers;
    for i := 0 to |violations|
      invariant workspace.markers == kept + MarkersFor(r, violations[..i])
    {
      MarkersForSnoc(r, violations[..i], violations[i]);
      TakeNext(violations, i);
      workspace.Create(MarkerFor(r, violations[i]));
    }
    TakeAll(violations);
  }

  // ---------------------------------------------------------------------------
  // Activation heuristic (`isLikelyActivationCommand`)
  // ---------------------------------------------------------------------------

  /** The rule for ids outside `com.sap.adt`: a save in an ADT or ABAP context. */
  predicate SavesAbap(c: string) {
    Contains(c, "save") && (Contains(c, "adt") || Contains(c, "abap"))
  }

  /** `isLikelyActivationCommand`, on the lower-cased command id. */
  predicate IsLikelyActivationCommand(commandId: Option<string>) {
    commandId.Some? &&
    var c := ToLower(commandId.value);
    if Contains(c, "activ") then true
    else if StartsWith(c, "com.sap.adt") then
      Contains(c, "abap") || Contains(c, "source") || Contains(c, "object") || Contains(c, "workbench")
    else SavesAbap(c)
  }

  /**
   * An ADT command naming none of the four words is not an activation, even
   * when it is a save: every such id would pass the save rule, which it never
   * reaches.
   */
  lemma AdtPrefixShadowsSaveRule(id: string)
    requires var c := ToLower(id);
      StartsWith(c, "com.sap.adt") && !Contains(c, "activ") && !Contains(c, "abap")
      && !Contains(c, "source") && !Contains(c, "object") && !Contains(c, "workbench")
    ensures !IsLikelyActivationCommand(Some(id))
    ensures Contains(ToLower(id), "save") ==> SavesAbap(ToLower(id))
  {
    var c := ToLower(id);
    assert c[8..11] == c[..11][8..11] == "adt";
    assert OccursAt(c, "adt", 8);
  }

  // ---------------------------------------------------------------------------
  // The service
  // ---------------------------------------------------------------------------

  /** What the remote flow asks of the backend and the user, in order. */
  datatype Effect =
    | RequestValidation(code: string, objectName: string, transport: string, logViolations: bool)
    | RequestMarkFixed(objectName: string, transport: string)
    | RequestLog(rulePack: string, objectName: string, transport: string, severity: string, status: string)
    | WarnForgotValidation(count: int)

  /** The service's state: the static fields of `ViolationGovernanceService`. */
  class Governance {
    var pendingObjectName: string
    var pendingMajors: seq<RuleViolation>
    var lastLoggedAtMillis: int
    var lastValidationRunMillis: int
    const workspace: Workspace

    constructor(workspace: Workspace)
      ensures pendingObjectName == "" && pendingMajors == []
      ensures lastLoggedAtMillis == 0 && lastValidationRunMillis == 0
      ensures this.workspace == workspace
    {
      pendingObjectName := "";
      pendingMajors := [];
      lastLoggedAtMillis := 0;
      lastValidationRunMillis := 0;
      this.workspace := workspace;
    }

    /** `hasBlockingViolations`. */
    predicate HasBlockingViolations()
      reads this
    {
      pendingMajors != []
    }

    /**
     * `updateFromValidation`: keeps the MAJOR violations and the object name
     * (`ADT_OBJECT` when missing); with none left every CodeBot marker goes,
     * otherwise the active resource's markers are replaced.
     */
    method UpdateFromValidation(objectName: Option<string>, violations: Option<seq<RuleViolation>>,
                                activeResource: Option<string>)
      modifies this, workspace
      ensures pendingObjectName == objectName.GetOr(DefaultObjectName)
      ensures pendingMajors == Majors(violations.GetOr([]))
      ensures lastLoggedAtMillis == old(lastLoggedAtMillis) && lastValidationRunMillis == old(lastValidationRunMillis)
      ensures pendingMajors == [] ==> workspace.markers == Remove(old(workspace.markers), Everywhere)
      ensures pendingMajors != [] && activeResource.None? ==> workspace.markers == old(workspace.markers)
      ensures pendingMajors != [] && activeResource.Some? ==>
        workspace.markers == Remove(old(workspace.markers), OnResource(activeResource.value))
                             + MarkersFor(activeResource.value, pendingMajors)
    {
      var majors := FilterMajorOnly(violations);
      pendingObjectName := if objectName.None? then DefaultObjectName else objectName.value;
      pendingMajors := majors;
      if majors == [] {
        ClearAllCodeBotMarkers(workspace);
      } else {
        PublishMarkers(workspace, activeResource, majors);
        MajorsSpec(violations.GetOr([]), majors[0]);
      }
      forall v | v in violations.GetOr([]) && IsMajor(v) ensures majors != [] {
        MajorsSpec(violations.GetOr([]), v);
      }
    }

    /** `clear`: forgets the violations, not the object name, and deletes every CodeBot marker. */
    method Clear()
      modifies this, workspace
      ensures pendingMajors == [] && !HasBlockingViolations()
      ensures pendingObjectName == old(pendingObjectName)
      ensures lastLoggedAtMillis == old(lastLoggedAtMillis) && lastValidationRunMillis == old(lastValidationRunMillis)
      ensures workspace.markers == Remove(old(workspace.markers), Everywhere)
    {
      pendingMajors := [];
      ClearAllCodeBotMarkers(workspace);
    }

    /**
     * `onLikelyActivationCommand`: starts a validation (`started`) only for a
     * likely activation at least 1200 ms after the last one started; only a
     * start moves the timestamp.
     */
    method OnLikelyActivationCommand(commandId: Option<string>, now: int) returns (started: bool)
      modifies this
      ensures started <==> IsLikelyActivationCommand(commandId) && now - old(lastValidationRunMillis) >= ValidationDebounce
      ensures lastValidationRunMillis == if started then now else old(lastValidationRunMillis)
      ensures pendingObjectName == old(pendingObjectName) && pendingMajors == old(pendingMajors)
      ensures lastLoggedAtMillis == old(lastLoggedAtMillis)
    {
      if !IsLikelyActivationCommand(commandId) {
        return false;
      }
      if now - lastValidationRunMillis < ValidationDebounce {
        return false;
      }
      lastValidationRunMillis := now;
      return true;
    }

    /**
     * `logMajorsToBackend`: at most one log per 3000 ms, of the first MAJOR
     * violation's rule pack, as MAJOR and not fixed.
     */
    method LogMajorsToBackend(majors: seq<RuleViolation>, objectName: string, now: int) returns (effects: seq<Effect>)
      requires majors != []
      modifies this
      ensures now - old(lastLoggedAtMillis) < LogDebounce ==> effects == [] && lastLoggedAtMillis == old(lastLoggedAtMillis)
      ensures now - old(lastLoggedAtMillis) >= LogDebounce ==>
        effects == [RequestLog(majors[0].rulePackName, objectName, "ADT", "MAJOR", "not fixed")] && lastLoggedAtMillis == now
      ensures pendingObjectName == old(pendingObjectName) && pendingMajors == old(pendingMajors)
      ensures lastValidationRunMillis == old(lastValidationRunMillis)
    {
      if now - lastLoggedAtMillis < LogDebounce {
        return [];
      }
      lastLoggedAtMillis := now;
      var top := majors[0];
      effects := [RequestLog(top.rulePackName, objectName, "ADT", "MAJOR", "not fixed")];
    }

    /**
     * `validateOnActivationAttempt`, run in sequence: see `Attempted`.
     */
    method ValidateOnActivationAttempt(objectName: string, code: string, retriedCode: string, answer: Outcome,
                                       activeResource: Option<string>, now: int) returns (effects: seq<Effect>)
      modifies this, workspace
      ensures var a := Attempted(old(Snapshot(this)), objectName, AttemptSource(code, retriedCode), answer, activeResource, now);
        Snapshot(this) == a.state && effects == a.effects
    {
      ghost var before := Snapshot(this);
      var source := code;
      if IsBlank(source) {
        source := retriedCode;
      }
      if IsBlank(source) {
        return [];
      }
      var request := RequestValidation(source, objectName, "ADT", false);
      match answer
      case Failure(_) =>
        effects := [request];
      case Answer(response) =>
        var violations := ParseViolations(SimpleRuleBot.Get(response, "violations"));
        var majors := FilterMajorOnly(Some(violations));
        if majors == [] {
          ClearAllCodeBotMarkers(workspace);
          pendingObjectName := objectName;
          pendingMajors := majors;
          effects := [request, RequestMarkFixed(objectName, "ADT")];
        } else {
          PublishMarkers(workspace, activeResource, majors);
          pendingObjectName := objectName;
          pendingMajors := majors;
          var logged := LogMajorsToBackend(majors, objectName, now);
          effects := [request, WarnForgotValidation(|majors|)] + logged;
        }
        assert Snapshot(this) == Attempted(before, objectName, source, answer, activeResource, now).state;
    }
  }

  /** What governance holds: its fields and the workspace's markers. */
  datatype GovState = GovState(objectName: string, majors: seq<RuleViolation>,
                               loggedAt: int, validatedAt: int, markers: seq<Marker>)

  function Snapshot(g: Governance): GovState
    reads g, g.workspace
  {
    GovState(g.pendingObjectName, g.pendingMajors, g.lastLoggedAtMillis, g.lastValidationRunMillis, g.workspace.markers)
  }

  /** The code an activation attempt validates: the editor's, or the second read's when that is blank. */
  function AttemptSource(code: string, retriedCode: string): string {
    if IsBlank(code) then retriedCode else code
  }

  /** A governance state with the effects that produced it. */
  datatype Attempt = Attempt(state: GovState, effects: seq<Effect>)

  /**
   * An activation attempt on `source`, where `answer` is what the validate
   * call gives: blank code does nothing; a failed call only asks; otherwise
   * the MAJOR violations are stored under `objectName`, and either every
   * CodeBot marker is cleared and the object reported fixed, or the markers
   * are published, the user warned and (at most once per 3000 ms) the
   * attempt logged.
   */
  function Attempted(g: GovState, objectName: string, source: string, answer: Outcome,
                     activeResource: Option<string>, now: int): Attempt
  {
    if IsBlank(source) then Attempt(g, [])
    else
      var request := RequestValidation(source, objectName, "ADT", false);
      match answer
      case Failure(_) => Attempt(g, [request])
      case Answer(response) =>
        Answered(g, objectName, request, Majors(GovernanceViolationsOf(SimpleRuleBot.Get(response, "violations"))),
                 activeResource, now)
  }

  /** The rest of an attempt once the answer's MAJOR violations are known. */
  function Answered(g: GovState, objectName: string, request: Effect, majors: seq<RuleViolation>,
                    activeResource: Option<string>, now: int): Attempt
  {
    if majors == [] then
      Attempt(g.(objectName := objectName, majors := [], markers := Remove(g.markers, Everywhere)),
              [request, RequestMarkFixed(objectName, "ADT")])
    else
      var log := now - g.loggedAt >= LogDebounce;
      Attempt(g.(objectName := objectName, majors := majors, loggedAt := if log then now else g.loggedAt,
                 markers := Published(g.markers, activeResource, majors)),
              [request, WarnForgotValidation(|majors|)]
              + if log then [RequestLog(majors[0].rulePackName, objectName, "ADT", "MAJOR", "not fixed")] else [])
  }

  /**
   * An attempt on blank code, or whose call fails, changes nothing; any other
   * first asks for the validation. An answered one stores the object name and
   * leaves activation blocked exactly when the answer holds a MAJOR
   * violation. The validation timestamp never moves.
   */
  lemma AttemptBlocks(g: GovState, objectName: string, source: string, answer: Outcome,
                      activeResource: Option<string>, now: int)
    ensures var a := Attempted(g, objectName, source, answer, activeResource, now);
      && a.state.validatedAt == g.validatedAt
      && (IsBlank(source) || answer.Failure? ==> a.state == g)
      && (!IsBlank(source) ==> a.effects != [] && a.effects[0] == RequestValidation(source, objectName, "ADT", false))
      && (!IsBlank(source) && answer.Answer? ==>
            && a.state.objectName == objectName
            && (a.state.majors != [] <==>
                  exists v :: v in GovernanceViolationsOf(SimpleRuleBot.Get(answer.response, "violations")) && IsMajor(v))
            && (forall v :: v in a.state.majors ==>
                  v in GovernanceViolationsOf(SimpleRuleBot.Get(answer.response, "violations")) && IsMajor(v)))
  {
    if !IsBlank(source) && answer.Answer? {
      var vs := GovernanceViolationsOf(SimpleRuleBot.Get(answer.response, "violations"));
      MajorsNonEmpty(vs);
      forall v | v in Majors(vs) ensures v in vs && IsMajor(v) {
        MajorsSpec(vs, v);
      }
    }
  }

  /** Whether an attempt logs to the backend. */
  predicate Logs(effects: seq<Effect>) {
    exists i :: 0 <= i < |effects| && effects[i].RequestLog?
  }

  /**
   * Only an answered attempt that leaves activation blocked logs, and only
   * when the last log is at least 3000 ms old; logging moves the log
   * timestamp to `now`, and nothing else moves it.
   */
  lemma AttemptLogs(g: GovState, objectName: string, source: string, answer: Outcome,
                    activeResource: Option<string>, now: int)
    ensures var a := Attempted(g, objectName, source, answer, activeResource, now);
      && (Logs(a.effects) <==> !IsBlank(source) && answer.Answer? && a.state.majors != [] && now - g.loggedAt >= LogDebounce)
      && a.state.loggedAt == if Logs(a.effects) then now else g.loggedAt
  {
    var request := RequestValidation(source, objectName, "ADT", false);
    if IsBlank(source) {
    } else if answer.Failure? {
      NoLogIn([request], []);
    } else {
      var majors := Majors(GovernanceViolationsOf(SimpleRuleBot.Get(answer.response, "violations")));
      AnsweredLogs(g, objectName, request, majors, activeResource, now);
    }
  }

  /** `AttemptLogs` for an attempt the backend answered. */
  lemma AnsweredLogs(g: GovState, objectName: string, request: Effect, majors: seq<RuleViolation>,
                     activeResource: Option<string>, now: int)
    requires !request.RequestLog?
    ensures var a := Answered(g, objectName, request, majors, activeResource, now);
      && (Logs(a.effects) <==> majors != [] && now - g.loggedAt >= LogDebounce)
      && a.state.majors == majors
      && a.state.loggedAt == if Logs(a.effects) then now else g.loggedAt
  {
    var a := Answered(g, objectName, request, majors, activeResource, now);
    if majors == [] {
      NoLogIn([request, RequestMarkFixed(objectName, "ADT")], []);
    } else if now - g.loggedAt >= LogDebounce {
      assert a.effects[2].RequestLog?;
    } else {
      assert a.effects == [request, WarnForgotValidation(|majors|)] + [];
      NoLogIn([request, WarnForgotValidation(|majors|)], []);
    }
  }

  /** Two lists of effects without a log request join into one without. */
  lemma NoLogIn(xs: seq<Effect>, ys: seq<Effect>)
    requires forall i :: 0 <= i < |xs| ==> !xs[i].RequestLog?
    requires forall i :: 0 <= i < |ys| ==> !ys[i].RequestLog?
    ensures !Logs(xs + ys)
  {
    forall i | 0 <= i < |xs + ys| ensures !(xs + ys)[i].RequestLog? {
      if i >= |xs| {
        assert (xs + ys)[i] == ys[i - |xs|];
      }
    }
  }

  /** Two attempts less than 3000 ms apart log at most once between them. */
  lemma LogDebounced(g: GovState, objectName1: string, source1: string, answer1: Outcome, now1: int,
                     objectName2: string, source2: string, answer2: Outcome, now2: int,
                     activeResource: Option<string>)
    requires now1 <= now2 < now1 + LogDebounce
    ensures var a1 := Attempted(g, objectName1, source1, answer1, activeResource, now1);
      var a2 := Attempted(a1.state, objectName2, source2, answer2, activeResource, now2);
      !(Logs(a1.effects) && Logs(a2.effects))
  {
    var a1 := Attempted(g, objectName1, source1, answer1, activeResource, now1);
    AttemptLogs(g, objectName1, source1, answer1, activeResource, now1);
    AttemptLogs(a1.state, objectName2, source2, answer2, activeResource, now2);
  }

  /** Every published marker is a CodeBot marker of its resource. */
  lemma MarkersForSelect(resource: string, vs: seq<RuleViolation>, m: Marker)
    requires m in MarkersFor(resource, vs)
    ensures Selects(OnResource(resource), m)
  {
    var i :| 0 <= i < |MarkersFor(resource, vs)| && MarkersFor(resource, vs)[i] == m;
    MarkersForSelected(resource, vs, i);
  }

  /**
   * After an answered attempt with nothing MAJOR, no CodeBot marker is left
   * and every other marker stays. With MAJOR violations and an active
   * resource, that resource's CodeBot markers are exactly the pending
   * violations' markers and every marker not among them stays as it was.
   */
  lemma AttemptMarkers(g: GovState, objectName: string, source: string, answer: Outcome,
                       activeResource: Option<string>, now: int, m: Marker)
    requires !IsBlank(source) && answer.Answer?
    ensures var a := Attempted(g, objectName, source, answer, activeResource, now);
      && (a.state.majors == [] ==> (m in a.state.markers <==> m in g.markers && !Selects(Everywhere, m)))
      && (a.state.majors != [] && activeResource.Some? ==>
            && (m in a.state.markers && Selects(OnResource(activeResource.value), m)
                <==> m in MarkersFor(activeResource.value, a.state.majors))
            && (!Selects(OnResource(activeResource.value), m) ==> (m in a.state.markers <==> m in g.markers)))
      && (activeResource.None? ==> a.state.markers == if a.state.majors == [] then Remove(g.markers, Everywhere) else g.markers)
  {
    var a := Attempted(g, objectName, source, answer, activeResource, now);
    if a.state.majors == [] {
      RemoveSpec(g.markers, Everywhere, m);
    } else if activeResource.Some? {
      var r := activeResource.value;
      RemoveSpec(g.markers, OnResource(r), m);
      if m in MarkersFor(r, a.state.majors) {
        MarkersForSelect(r, a.state.majors, m);
      }
    }
  }
}
