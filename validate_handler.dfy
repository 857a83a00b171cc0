/**
 * `ValidateHandler`: the local harmonization check. The editor text is split
 * into lines and scanned by three rules (class names, `SELECT *`, method
 * names); each finding becomes a problem marker on the file, and any finding
 * blocks activation.
 */
module ValidateHandler {
  import opened Wrappers
  import opened JavaText
  import opened Seqs
  import opened Markers

  const MarkerType: string := "com.zalaris.harmonization.bot.marker"
  const SelectStarMessage: string := "ABAP.PERF.SELECT_STAR: Avoid 'SELECT *'. Select only required fields."
  const NotTextEditor: string := "Active editor is not text-based – cannot validate."
  const BlockedHead: string := "Activation blocked: harmonization rules failed ("
  const Permitted: string := "Activation permitted: no harmonization issues."

  // ---------------------------------------------------------------------------
  // Lines (`content.split("\\r?\\n")`)
  // ---------------------------------------------------------------------------

  /** The pieces between separators, a separator being `\n` or `\r\n`; empty pieces included. */
  function Pieces(s: string): (r: seq<string>)
    ensures |r| >= 1
    decreases |s|
  {
    if s == [] then [[]]
    else if s[0] == '\n' then [[]] + Pieces(s[1..])
    else if s[0] == '\r' && |s| > 1 && s[1] == '\n' then [[]] + Pieces(s[2..])
    else
      var rest := Pieces(s[1..]);
      [[s[0]] + rest[0]] + rest[1..]
  }

  /** `split` with limit 0 drops the empty strings at the end. */
  function DropTrailingEmpty(ps: seq<string>): (r: seq<string>)
    ensures |r| <= |ps| && r == ps[..|r|]
    ensures r == [] || r[|r| - 1] != []
  {
    if ps != [] && ps[|ps| - 1] == [] then DropTrailingEmpty(ps[..|ps| - 1]) else ps
  }

  /** `String.split("\\r?\\n")`: the whole text when there is no separator, else the pieces without the empty tail. */
  function SplitLines(content: string): seq<string> {
    if '\n' !in content then [content] else DropTrailingEmpty(Pieces(content))
  }

  /** No piece holds a line feed. */
  lemma {:induction false} PiecesHaveNoLineFeed(s: string, j: int)
    requires 0 <= j < |Pieces(s)|
    ensures '\n' !in Pieces(s)[j]
    decreases |s|
  {
    if s == [] {
    } else if s[0] == '\n' {
      if j > 0 { PiecesHaveNoLineFeed(s[1..], j - 1); }
    } else if s[0] == '\r' && |s| > 1 && s[1] == '\n' {
      if j > 0 { PiecesHaveNoLineFeed(s[2..], j - 1); }
    } else {
      var rest := Pieces(s[1..]);
      if j == 0 {
        PiecesHaveNoLineFeed(s[1..], 0);
        assert Pieces(s)[0] == [s[0]] + rest[0];
      } else {
        PiecesHaveNoLineFeed(s[1..], j);
      }
    }
  }

  /** No line holds a line feed. */
  lemma SplitLinesHaveNoLineFeed(content: string, i: int)
    requires 0 <= i < |SplitLines(content)|
    ensures '\n' !in SplitLines(content)[i]
  {
    if '\n' in content {
      PiecesHaveNoLineFeed(content, i);
    }
  }

  /** The separators `Pieces` consumes, in order: each `\n` or `\r\n`. */
  function Separators(s: string): (r: seq<string>)
    ensures forall i :: 0 <= i < |r| ==> r[i] == "\n" || r[i] == "\r\n"
    decreases |s|
  {
    if s == [] then []
    else if s[0] == '\n' then ["\n"] + Separators(s[1..])
    else if s[0] == '\r' && |s| > 1 && s[1] == '\n' then ["\r\n"] + Separators(s[2..])
    else Separators(s[1..])
  }

  /** The pieces joined again, each separator put back between its neighbours. */
  function Weave(ps: seq<string>, seps: seq<string>): string
    requires |ps| == |seps| + 1
    decreases |seps|
  {
    if seps == [] then ps[0] else ps[0] + seps[0] + Weave(ps[1..], seps[1..])
  }

  /** Putting the separators back between the pieces gives the text back. */
  lemma {:induction false} PiecesWeave(s: string)
    ensures |Pieces(s)| == |Separators(s)| + 1
    ensures Weave(Pieces(s), Separators(s)) == s
    decreases |s|
  {
    if s == [] {
    } else if s[0] == '\n' {
      PiecesWeave(s[1..]);
      assert s == "\n" + s[1..];
    } else if s[0] == '\r' && |s| > 1 && s[1] == '\n' {
      PiecesWeave(s[2..]);
      assert s == "\r\n" + s[2..];
    } else {
      PiecesWeave(s[1..]);
      var rest := Pieces(s[1..]);
      assert Pieces(s) == [[s[0]] + rest[0]] + rest[1..];
      WeaveFront(s[0], rest, Separators(s[1..]));
      assert s == [s[0]] + s[1..];
    }
  }

  /** A char put in front of the first piece goes in front of the woven text. */
  lemma WeaveFront(c: char, ps: seq<string>, seps: seq<string>)
    requires |ps| == |seps| + 1
    ensures Weave([[c] + ps[0]] + ps[1..], seps) == [c] + Weave(ps, seps)
  {
    var qs := [[c] + ps[0]] + ps[1..];
    assert qs[0] == [c] + ps[0] && qs[1..] == ps[1..];
  }

  /**
   * The lines `split` gives are the text's pieces up to the empty tail it
   * drops: line `i` (reported as line `i + 1`) is the text between the
   * `i`-th and the `i + 1`-st separator, and what follows the last line
   * holds only separators.
   */
  lemma SplitLinesRebuild(content: string)
    ensures '\n' !in content ==> SplitLines(content) == [content]
    ensures '\n' in content ==>
      var ps := Pieces(content);
      var lines := SplitLines(content);
      && |ps| == |Separators(content)| + 1 && Weave(ps, Separators(content)) == content
      && |lines| <= |ps| && lines == ps[..|lines|]
      && forall j :: |lines| <= j < |ps| ==> ps[j] == []
  {
    if '\n' in content {
      PiecesWeave(content);
      DropAllEmpty(Pieces(content));
    }
  }

  /** `DropTrailingEmpty` drops only empty pieces. */
  lemma {:induction false} DropAllEmpty(ps: seq<string>)
    ensures forall j :: |DropTrailingEmpty(ps)| <= j < |ps| ==> ps[j] == []
    decreases |ps|
  {
    if ps != [] && ps[|ps| - 1] == [] {
      DropAllEmpty(ps[..|ps| - 1]);
    }
  }

  /** A char other than a line break leaves a piece that is not empty. */
  lemma {:induction false} PiecesKeepText(s: string, k: int)
    requires 0 <= k < |s| && s[k] != '\n' && s[k] != '\r'
    ensures exists j :: 0 <= j < |Pieces(s)| && Pieces(s)[j] != []
    decreases |s|
  {
    if s[0] == '\n' {
      PiecesKeepText(s[1..], k - 1);
      var j :| 0 <= j < |Pieces(s[1..])| && Pieces(s[1..])[j] != [];
      assert Pieces(s)[j + 1] == Pieces(s[1..])[j];
    } else if s[0] == '\r' && |s| > 1 && s[1] == '\n' {
      PiecesKeepText(s[2..], k - 2);
      var j :| 0 <= j < |Pieces(s[2..])| && Pieces(s[2..])[j] != [];
      assert Pieces(s)[j + 1] == Pieces(s[2..])[j];
    } else {
      assert Pieces(s)[0] != [];
    }
  }

  /** Dropping the empty tail keeps every piece up to the last one that is not empty. */
  lemma {:induction false} DropKeeps(ps: seq<string>, j: int)
    requires 0 <= j < |ps| && ps[j] != []
    ensures |DropTrailingEmpty(ps)| > j
  {
    if ps[|ps| - 1] == [] {
      DropKeeps(ps[..|ps| - 1], j);
    }
  }

  /** Text that mentions `SELECT *` has a line 1, where that finding is reported. */
  lemma SelectStarHasALine(content: string)
    requires Contains(ToUpper(content), "SELECT *")
    ensures |SplitLines(content)| >= 1
  {
    if '\n' in content {
      var i :| 0 <= i <= |content| - 8 && OccursAt(ToUpper(content), "SELECT *", i);
      assert ToUpper(content)[i] == 'S';
      PiecesKeepText(content, i);
      var j :| 0 <= j < |Pieces(content)| && Pieces(content)[j] != [];
      DropKeeps(Pieces(content), j);
    }
  }

  // ---------------------------------------------------------------------------
  // The three rules (`validateContent`)
  // ---------------------------------------------------------------------------

  /** A char of the regular-expression class `\s`. */
  predicate IsSpace(c: char) {
    c == ' ' || c == '\t' || c == '\n' || c == 11 as char || c == 12 as char || c == '\r'
  }

  /** `split("\\s+")[0]` of a trimmed string: everything before the first `\s` char. */
  function FirstWord(s: string): (r: string)
    ensures |r| <= |s| && r == s[..|r|] && forall i :: 0 <= i < |r| ==> !IsSpace(r[i])
    ensures |r| < |s| ==> IsSpace(s[|r|])
  {
    if s == [] || IsSpace(s[0]) then []
    else
      var rest := FirstWord(s[1..]);
      [s[0]] + rest
  }

  datatype Rule = ClassRule | MethodRule

  /**
   * What a rule reports for one line, if anything. The line is trimmed and
   * upper-cased first. A class definition must be named `ZCL_…`; a method
   * implementation `Z_…`.
   */
  function Check(rule: Rule, line: string): Option<string> {
    var l := ToUpper(Trim(line));
    match rule
    case ClassRule =>
      if StartsWith(l, "CLASS ") && Contains(l, " DEFINITION") then
        var name := FirstWord(Trim(l[|"CLASS "|..]));
        if StartsWith(name, "ZCL_") then None
        else Some("ABAP.NAMING.CLASS: Class name should start with ZCL_. Found '" + name + "'.")
      else None
    case MethodRule =>
      if StartsWith(l, "METHOD ") then
        var name := FirstWord(Trim(l[|"METHOD "|..]));
        if StartsWith(name, "Z_") then None
        else Some("ABAP.NAMING.METHOD: Method name should start with Z_. Found '" + name + "'.")
      else None
  }

  /** A method declaration (`METHODS …`) or an `ENDMETHOD.` line is never checked as an implementation. */
  lemma MethodDeclarationsPass(line: string)
    requires var l := ToUpper(Trim(line)); StartsWith(l, "METHODS") || StartsWith(l, "ENDMETHOD")
    ensures Check(MethodRule, line).None?
  {
    var l := ToUpper(Trim(line));
    if StartsWith(l, "METHODS") {
      assert l[6] == "METHODS"[6] == 'S';
    } else {
      assert l[0] == 'E';
    }
    assert !StartsWith(l, "METHOD ");
  }

  /** Upper-casing commutes with trimming: the case mapping leaves chars up to U+0020 alone. */
  lemma UpperFirst(s: string)
    requires s != []
    ensures ToUpper(s) == [UpperChar(s[0])] + ToUpper(s[1..])
  {
    assert ToUpper(s)[1..] == ToUpper(s[1..]);
  }

  lemma {:induction false} UpperTrimStart(s: string)
    ensures ToUpper(TrimStart(s)) == TrimStart(ToUpper(s))
  {
    if s != [] {
      var u := ToUpper(s);
      UpperFirst(s);
      assert u[0] == UpperChar(s[0]) && u[1..] == ToUpper(s[1..]);
      if s[0] <= ' ' {
        UpperTrimStart(s[1..]);
        assert TrimStart(u) == TrimStart(u[1..]);
      } else {
        assert TrimStart(u) == u;
      }
    }
  }

  lemma UpperLast(s: string)
    requires s != []
    ensures ToUpper(s) == ToUpper(s[..|s| - 1]) + [UpperChar(s[|s| - 1])]
  {
    assert ToUpper(s)[..|s| - 1] == ToUpper(s[..|s| - 1]);
  }

  lemma {:induction false} UpperTrimEnd(s: string)
    ensures ToUpper(TrimEnd(s)) == TrimEnd(ToUpper(s))
  {
    if s != [] {
      var u := ToUpper(s);
      var n := |s|;
      UpperLast(s);
      assert u[n - 1] == UpperChar(s[n - 1]) && u[..n - 1] == ToUpper(s[..n - 1]);
      if s[n - 1] <= ' ' {
        UpperTrimEnd(s[..n - 1]);
        assert TrimEnd(u) == TrimEnd(u[..n - 1]);
      } else {
        assert TrimEnd(u) == u;
      }
    }
  }

  lemma UpperTwice(s: string)
    ensures ToUpper(ToUpper(s)) == ToUpper(s)
  {
  }

  /** The rules compare upper-cased text: a line and its upper-cased form get the same verdict (`zcl_foo` passes). */
  lemma CheckIgnoresCase(rule: Rule, line: string)
    ensures Check(rule, ToUpper(line)) == Check(rule, line)
  {
    UpperTrimStart(line);
    UpperTrimEnd(TrimStart(line));
    UpperTrimStart(ToUpper(line));
    UpperTrimEnd(TrimStart(ToUpper(line)));
    UpperTwice(Trim(line));
    assert Trim(ToUpper(line)) == ToUpper(Trim(line));
  }

  /** A finding: a 1-based line number and its message. */
  datatype Violation = Violation(line: int, message: string)

  /** One rule as a per-line check. */
  function RuleCheck(rule: Rule): string -> Option<string> {
    line => Check(rule, line)
  }

  /** The findings of a per-line check on the first `n` lines, numbered from 1, in line order. */
  function Reported(check: string -> Option<string>, lines: seq<string>, n: nat): (r: seq<Violation>)
    requires n <= |lines|
    ensures |r| <= n
  {
    if n == 0 then []
    else
      Reported(check, lines, n - 1)
      + match check(lines[n - 1]) case Some(msg) => [Violation(n, msg)] case None => []
  }

  /** The findings of one rule. */
  function RuleFindings(rule: Rule, lines: seq<string>): seq<Violation> {
    Reported(RuleCheck(rule), lines, |lines|)
  }

  /** Every finding points at a line in range on which the check gives its message. */
  lemma {:induction false} ReportedAreFlagged(check: string -> Option<string>, lines: seq<string>, n: nat, k: int)
    requires n <= |lines| && 0 <= k < |Reported(check, lines, n)|
    ensures var f := Reported(check, lines, n)[k];
      1 <= f.line <= n && check(lines[f.line - 1]) == Some(f.message)
  {
    var rf := Reported(check, lines, n - 1);
    if k < |rf| {
      ReportedAreFlagged(check, lines, n - 1, k);
      assert Reported(check, lines, n)[k] == rf[k];
    }
  }

  /** Every line on which the check fires has its finding. */
  lemma {:induction false} FlaggedAreReported(check: string -> Option<string>, lines: seq<string>, n: nat, i: int)
    requires n <= |lines| && 0 <= i < n && check(lines[i]).Some?
    ensures Violation(i + 1, check(lines[i]).value) in Reported(check, lines, n)
  {
    if i < n - 1 {
      FlaggedAreReported(check, lines, n - 1, i);
    }
  }

  /** Findings come in strictly ascending line order. */
  lemma {:induction false} ReportedAscend(check: string -> Option<string>, lines: seq<string>, n: nat, a: int, b: int)
    requires n <= |lines| && 0 <= a < b < |Reported(check, lines, n)|
    ensures Reported(check, lines, n)[a].line < Reported(check, lines, n)[b].line
  {
    var rf := Reported(check, lines, n - 1);
    var all := Reported(check, lines, n);
    assert all[a] == rf[a];
    if b < |rf| {
      ReportedAscend(check, lines, n - 1, a, b);
      assert all[b] == rf[b];
    } else {
      ReportedAreFlagged(check, lines, n - 1, a);
      assert all[b].line == n;
    }
  }

  /** The `SELECT *` rule: one finding at line 1 when the upper-cased text has `SELECT *`, else none. */
  function SelectStarFindings(content: string): seq<Violation> {
    if Contains(ToUpper(content), "SELECT *") then [Violation(1, SelectStarMessage)] else []
  }

  /** All findings: class names in line order, then `SELECT *`, then method names in line order. */
  function Findings(content: string): seq<Violation> {
    var lines := SplitLines(content);
    RuleFindings(ClassRule, lines) + SelectStarFindings(content) + RuleFindings(MethodRule, lines)
  }

  /** The messages of the findings, in order. */
  function Messages(vs: seq<Violation>): (r: seq<string>)
    ensures |r| == |vs| && forall i :: 0 <= i < |vs| ==> r[i] == vs[i].message
  {
    if vs == [] then [] else Messages(vs[..|vs| - 1]) + [vs[|vs| - 1].message]
  }

  lemma MessagesSnoc(vs: seq<Violation>, v: Violation)
    ensures Messages(vs + [v]) == Messages(vs) + [v.message]
  {
    SnocTake(vs, v);
  }

  /** Every reported line number is 1-based and within the line count. */
  lemma FindingsInRange(content: string, k: int)
    requires 0 <= k < |Findings(content)|
    ensures 1 <= Findings(content)[k].line <= |SplitLines(content)|
  {
    var lines := SplitLines(content);
    var cf := RuleFindings(ClassRule, lines);
    var sf := SelectStarFindings(content);
    var mf := RuleFindings(MethodRule, lines);
    var all := Findings(content);
    if k < |cf| {
      ReportedAreFlagged(RuleCheck(ClassRule), lines, |lines|, k);
      assert all[k] == cf[k];
    } else if k < |cf| + |sf| {
      SelectStarHasALine(content);
      assert all[k] == sf[k - |cf|];
    } else {
      ReportedAreFlagged(RuleCheck(MethodRule), lines, |lines|, k - |cf| - |sf|);
      assert all[k] == mf[k - |cf| - |sf|];
    }
  }

  /** One scan of `validateContent`: a per-line check over every line, appending to both shared lists. */
  method ScanRule(check: string -> Option<string>, lines: seq<string>, violations0: seq<Violation>, issues0: seq<string>)
    returns (violations: seq<Violation>, issues: seq<string>)
    requires issues0 == Messages(violations0)
    ensures violations == violations0 + Reported(check, lines, |lines|)
    ensures issues == Messages(violations)
  {
    violations, issues := violations0, issues0;
    ghost var found: seq<Violation> := [];
    for i := 0 to |lines|
      invariant found == Reported(check, lines, i)
      invariant violations == violations0 + found
      invariant issues == Messages(violations)
    {
      var finding := check(lines[i]);
      if finding.Some? {
        var v := Violation(i + 1, finding.value);
        MessagesSnoc(violations, v);
        AppendSnoc(violations0, found, v);
        found := found + [v];
        issues := issues + [finding.value];
        violations := violations + [v];
      }
    }
  }

  /** The `SELECT *` test of `validateContent`, appending to both shared lists. */
  method ScanSelectStar(content: string, upper: string, violations0: seq<Violation>, issues0: seq<string>)
    returns (violations: seq<Violation>, issues: seq<string>)
    requires upper == ToUpper(content) && issues0 == Messages(violations0)
    ensures violations == violations0 + SelectStarFindings(content)
    ensures issues == Messages(violations)
  {
    violations, issues := violations0, issues0;
    if Contains(upper, "SELECT *") {
      MessagesSnoc(violations, Violation(1, SelectStarMessage));
      issues := issues + [SelectStarMessage];
      violations := violations + [Violation(1, SelectStarMessage)];
    } else {
      assert violations + [] == violations;
    }
  }

  /**
   * `validateContent`: the class scan, the `SELECT *` test on the whole
   * upper-cased text, then the method scan, all appending to the returned
   * list and to `issuesOut` together, so `issues` holds exactly the findings'
   * messages.
   */
  method ValidateContent(content: string) returns (violations: seq<Violation>, issues: seq<string>)
    ensures violations == Findings(content)
    ensures issues == Messages(violations)
  {
    var lines := SplitLines(content);
    var upper := ToUpper(content);
    ghost var classes := RuleFindings(ClassRule, lines);
    violations, issues := ScanRule(RuleCheck(ClassRule), lines, [], []);
    assert [] + classes == classes;
    violations, issues := ScanSelectStar(content, upper, violations, issues);
    violations, issues := ScanRule(RuleCheck(MethodRule), lines, violations, issues);
    assert Findings(content) == classes + SelectStarFindings(content) + RuleFindings(MethodRule, lines);
  }

  // ---------------------------------------------------------------------------
  // The handler (`execute`)
  // ---------------------------------------------------------------------------

  /** The marker made for one finding: no source attribute, error severity, the finding's line. */
  function MarkerOf(file: string, v: Violation): Marker {
    Marker(file, MarkerType, "", v.message, SeverityError, v.line)
  }

  function MarkersOf(file: string, vs: seq<Violation>): (r: seq<Marker>)
    ensures |r| == |vs|
  {
    if vs == [] then [] else MarkersOf(file, vs[..|vs| - 1]) + [MarkerOf(file, vs[|vs| - 1])]
  }

  lemma MarkersOfSnoc(file: string, vs: seq<Violation>, v: Violation)
    ensures MarkersOf(file, vs + [v]) == MarkersOf(file, vs) + [MarkerOf(file, v)]
  {
    SnocTake(vs, v);
  }

  /** `createMarker` for each finding, in order. */
  method CreateMarkers(workspace: Workspace, file: string, violations: seq<Violation>)
    modifies workspace
    ensures workspace.markers == old(workspace.markers) + MarkersOf(file, violations)
  {
    ghost var kept := workspace.markers;
    for i := 0 to |violations|
      invariant workspace.markers == kept + MarkersOf(file, violations[..i])
    {
      MarkersOfSnoc(file, violations[..i], violations[i]);
      TakeNext(violations, i);
      workspace.Create(MarkerOf(file, violations[i]));
    }
    TakeAll(violations);
  }

  /** Every marker of this type on the file, whatever its source. */
  function OnFile(file: string): Selection {
    Selection(Some(file), MarkerType, None)
  }

  /** The verdict posted to the bot view. */
  function Verdict(issues: seq<string>): string {
    if issues != [] then BlockedHead + DecimalString(|issues|) + " issue(s))."
    else Permitted
  }

  /**
   * `execute`. `content` is the text of the active editor, `None` when it is
   * not a text editor; `file` is the workspace file behind it, if any. Old
   * markers of this type go first, then one marker per finding is created,
   * and activation is blocked exactly when there is a finding.
   */
  method Execute(workspace: Workspace, content: Option<string>, file: Option<string>)
    returns (issues: seq<string>, verdict: string)
    modifies workspace
    ensures content.None? ==> verdict == NotTextEditor && issues == [] && workspace.markers == old(workspace.markers)
    ensures content.Some? ==> issues == Messages(Findings(content.value)) && verdict == Verdict(issues)
    ensures content.Some? && file.None? ==> workspace.markers == old(workspace.markers)
    ensures content.Some? && file.Some? ==>
      workspace.markers == Remove(old(workspace.markers), OnFile(file.value)) + MarkersOf(file.value, Findings(content.value))
  {
    if content.None? {
      return [], NotTextEditor;
    }
    if file.Some? {
      workspace.Delete(OnFile(file.value));
    }
    var violations;
    violations, issues := ValidateContent(content.value);
    if file.Some? {
      CreateMarkers(workspace, file.value, violations);
    }
    verdict := Verdict(issues);
  }

  /** Activation is permitted exactly when there is no issue. */
  lemma PermittedIffNoIssues(issues: seq<string>)
    ensures Verdict(issues) == Permitted <==> issues == []
  {
    if issues != [] {
      var front := BlockedHead + DecimalString(|issues|);
      assert Verdict(issues)[11] == front[11] == BlockedHead[11] == 'b';
      assert Permitted[11] == 'p';
    }
  }
}
