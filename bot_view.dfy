/**
 * `BotView`: the chat window. It asks the bot, shows the answer, lists the
 * violations sorted by severity, previews the first findings, offers a
 * correction to paste, and hands the violations to governance.
 */
module BotView {
  import opened Wrappers
  import opened JavaText
  import opened Seqs
  import opened BotResponse
  import opened BackendApiClient
  import Json
  import Markers
  import Bot = SimpleRuleBot
  import Gov = ViolationGovernanceService

  // ---------------------------------------------------------------------------
  // Severity (`normalizeSeverity`, `severityRank`)
  // ---------------------------------------------------------------------------

  /** `normalizeSeverity`: a missing or blank severity reads as `MAJOR`; otherwise trimmed and upper-cased. */
  function NormalizeSeverity(severity: Option<string>): string {
    if severity.None? || IsBlank(severity.value) then "MAJOR" else ToUpper(Trim(severity.value))
  }

  /** `severityRank`: CRITICAL, MAJOR, MINOR, INFO, then everything else. */
  function SeverityRank(v: RuleViolation): (r: int)
    ensures 0 <= r <= 4
  {
    var sev := NormalizeSeverity(v.severity);
    if sev == "CRITICAL" then 0
    else if sev == "MAJOR" then 1
    else if sev == "MINOR" then 2
    else if sev == "INFO" then 3
    else 4
  }

  /** A violation without a severity, or with a blank one, ranks as MAJOR. */
  lemma UnsetSeverityRanksMajor(v: RuleViolation)
    requires v.severity.None? || IsBlank(v.severity.value)
    ensures SeverityRank(v) == 1
  {
  }

  /** The sort key: rank first, then the line, read as at least 1. */
  function SortKey(v: RuleViolation): (int, int) {
    (SeverityRank(v), if v.line < 1 then 1 else v.line)
  }

  // ---------------------------------------------------------------------------
  // Stable sorting by an integer-pair key (`List.sort` with a comparator)
  // ---------------------------------------------------------------------------

  /** Strict lexicographic order on keys. */
  predicate KeyLess(a: (int, int), b: (int, int)) {
    a.0 < b.0 || (a.0 == b.0 && a.1 < b.1)
  }

  /** Each element's key is no smaller than the one before it. */
  predicate Sorted<T>(key: T -> (int, int), s: seq<T>) {
    forall i :: 0 < i < |s| ==> !KeyLess(key(s[i]), key(s[i - 1]))
  }

  /** `x` placed after every element whose key is not greater than its own. */
  function Insert<T>(key: T -> (int, int), s: seq<T>, x: T): (r: seq<T>)
    ensures |r| == |s| + 1
  {
    if s == [] then [x]
    else if KeyLess(key(x), key(s[0])) then [x] + s
    else [s[0]] + Insert(key, s[1..], x)
  }

  /** Insertion sort, taking the elements in input order: the reference for a stable sort. */
  function SortBy<T>(key: T -> (int, int), s: seq<T>): (r: seq<T>)
    ensures |r| == |s|
  {
    if s == [] then [] else Insert(key, SortBy(key, s[..|s| - 1]), s[|s| - 1])
  }

  /** The elements whose key is `k`, in their order. */
  function WithKey<T>(key: T -> (int, int), s: seq<T>, k: (int, int)): seq<T> {
    if s == [] then [] else (if key(s[0]) == k then [s[0]] else []) + WithKey(key, s[1..], k)
  }

  /** The inserted list starts with `x` or with the list's own first element. */
  lemma InsertHead<T>(key: T -> (int, int), s: seq<T>, x: T)
    ensures var r := Insert(key, s, x); r[0] == x || (s != [] && r[0] == s[0])
  {
  }

  lemma {:induction false} InsertPermutes<T>(key: T -> (int, int), s: seq<T>, x: T)
    ensures multiset(Insert(key, s, x)) == multiset(s) + multiset{x}
  {
    if s != [] && !KeyLess(key(x), key(s[0])) {
      InsertPermutes(key, s[1..], x);
      assert s == [s[0]] + s[1..];
    }
  }

  lemma {:induction false} InsertSorted<T>(key: T -> (int, int), s: seq<T>, x: T)
    requires Sorted(key, s)
    ensures Sorted(key, Insert(key, s, x))
  {
    if s != [] && !KeyLess(key(x), key(s[0])) {
      var rest := s[1..];
      assert Sorted(key, rest) by {
        forall i | 0 < i < |rest| ensures !KeyLess(key(rest[i]), key(rest[i - 1])) {
          assert rest[i] == s[i + 1] && rest[i - 1] == s[i];
        }
      }
      InsertSorted(key, rest, x);
      InsertHead(key, rest, x);
      var r := Insert(key, s, x);
      var tail := Insert(key, rest, x);
      assert r == [s[0]] + tail;
      forall i | 0 < i < |r| ensures !KeyLess(key(r[i]), key(r[i - 1])) {
        if i == 1 {
          assert r[1] == tail[0];
          if rest != [] && tail[0] == rest[0] {
            assert rest[0] == s[1];
          }
        } else {
          assert r[i] == tail[i - 1] && r[i - 1] == tail[i - 2];
        }
      }
    }
  }

  /** In a sorted list whose first key is above `k`, no element has key `k`. */
  lemma {:induction false} NoneWithSmallerKey<T>(key: T -> (int, int), s: seq<T>, k: (int, int))
    requires Sorted(key, s) && s != [] && KeyLess(k, key(s[0]))
    ensures WithKey(key, s, k) == []
  {
    var rest := s[1..];
    if rest != [] {
      assert rest[0] == s[1];
      assert Sorted(key, rest) by {
        forall i | 0 < i < |rest| ensures !KeyLess(key(rest[i]), key(rest[i - 1])) {
          assert rest[i] == s[i + 1] && rest[i - 1] == s[i];
        }
      }
      NoneWithSmallerKey(key, rest, k);
    }
  }

  /** Inserting into a sorted list puts `x` after every element with the same key. */
  lemma {:induction false} InsertKeepsTies<T>(key: T -> (int, int), s: seq<T>, x: T, k: (int, int))
    requires Sorted(key, s)
    ensures WithKey(key, Insert(key, s, x), k)
         == WithKey(key, s, k) + (if key(x) == k then [x] else [])
  {
    if s == [] {
    } else if KeyLess(key(x), key(s[0])) {
      var r := Insert(key, s, x);
      assert r[1..] == s;
      if key(x) == k {
        NoneWithSmallerKey(key, s, k);
      }
    } else {
      var rest := s[1..];
      assert Sorted(key, rest) by {
        forall i | 0 < i < |rest| ensures !KeyLess(key(rest[i]), key(rest[i - 1])) {
          assert rest[i] == s[i + 1] && rest[i - 1] == s[i];
        }
      }
      InsertKeepsTies(key, rest, x, k);
      var r := Insert(key, s, x);
      assert r[0] == s[0] && r[1..] == Insert(key, rest, x);
      AppendAssoc((if key(s[0]) == k then [s[0]] else []), WithKey(key, rest, k), (if key(x) == k then [x] else []));
    }
  }

  lemma {:induction false} WithKeySnoc<T>(key: T -> (int, int), s: seq<T>, x: T, k: (int, int))
    ensures WithKey(key, s + [x], k) == WithKey(key, s, k) + (if key(x) == k then [x] else [])
  {
    if s != [] {
      assert (s + [x])[0] == s[0] && (s + [x])[1..] == s[1..] + [x];
      WithKeySnoc(key, s[1..], x, k);
      AppendAssoc((if key(s[0]) == k then [s[0]] else []), WithKey(key, s[1..], k), (if key(x) == k then [x] else []));
    }
  }

  /** The sort returns its input's elements, each as often. */
  lemma {:induction false} SortPermutes<T>(key: T -> (int, int), s: seq<T>)
    ensures multiset(SortBy(key, s)) == multiset(s)
  {
    if s != [] {
      var front := s[..|s| - 1];
      SortPermutes(key, front);
      InsertPermutes(key, SortBy(key, front), s[|s| - 1]);
      DropLast(s);
    }
  }

  /** The sort orders by key. */
  lemma {:induction false} SortOrders<T>(key: T -> (int, int), s: seq<T>)
    ensures Sorted(key, SortBy(key, s))
  {
    if s != [] {
      SortOrders(key, s[..|s| - 1]);
      InsertSorted(key, SortBy(key, s[..|s| - 1]), s[|s| - 1]);
    }
  }

  /** The sort is stable: elements with equal keys keep their input order. */
  lemma {:induction false} SortStable<T>(key: T -> (int, int), s: seq<T>, k: (int, int))
    ensures WithKey(key, SortBy(key, s), k) == WithKey(key, s, k)
  {
    if s != [] {
      var front := s[..|s| - 1];
      var last := s[|s| - 1];
      SortStable(key, front, k);
      SortOrders(key, front);
      InsertKeepsTies(key, SortBy(key, front), last, k);
      DropLast(s);
      WithKeySnoc(key, front, last, k);
    }
  }

  /** Sorted by the adjacent test means sorted between any two positions. */
  lemma {:induction false} SortedPairs<T>(key: T -> (int, int), s: seq<T>, i: int, j: int)
    requires Sorted(key, s) && 0 <= i <= j < |s|
    ensures !KeyLess(key(s[j]), key(s[i]))
    decreases j - i
  {
    if i < j {
      SortedPairs(key, s, i, j - 1);
    }
  }

  /** Splitting after the head and putting `x` at `p`. */
  lemma ConsSplit<T>(s: seq<T>, x: T, p: int)
    requires 0 < p <= |s|
    ensures [s[0]] + (s[1..][..p - 1] + [x] + s[1..][p - 1..]) == s[..p] + [x] + s[p..]
  {
    assert s[..p] == [s[0]] + s[1..][..p - 1];
    assert s[p..] == s[1..][p - 1..];
  }

  /** The insertion point found by a left-to-right scan: `Insert` places `x` just there. */
  lemma {:induction false} InsertAt<T>(key: T -> (int, int), s: seq<T>, x: T, p: int)
    requires 0 <= p <= |s|
    requires forall j :: 0 <= j < p ==> !KeyLess(key(x), key(s[j]))
    requires p == |s| || KeyLess(key(x), key(s[p]))
    ensures Insert(key, s, x) == s[..p] + [x] + s[p..]
  {
    if p > 0 {
      var rest := s[1..];
      forall j | 0 <= j < p - 1 ensures !KeyLess(key(x), key(rest[j])) {
        assert rest[j] == s[j + 1];
      }
      if p - 1 < |rest| {
        assert rest[p - 1] == s[p];
      }
      InsertAt(key, rest, x, p - 1);
      assert !KeyLess(key(x), key(s[0]));
      assert Insert(key, s, x) == [s[0]] + Insert(key, rest, x);
      ConsSplit(s, x, p);
    } else {
      assert s[..p] == [] && s[p..] == s;
    }
  }

  /** `List.sort` with a key comparator, as a stable insertion sort into a copy. */
  method StableSort<T>(key: T -> (int, int), s: seq<T>) returns (sorted: seq<T>)
    ensures sorted == SortBy(key, s)
  {
    sorted := [];
    for i := 0 to |s|
      invariant sorted == SortBy(key, s[..i])
    {
      var x := s[i];
      var p := 0;
      while p < |sorted| && !KeyLess(key(x), key(sorted[p]))
        invariant 0 <= p <= |sorted|
        invariant forall j :: 0 <= j < p ==> !KeyLess(key(x), key(sorted[j]))
      {
        p := p + 1;
      }
      InsertAt(key, sorted, x, p);
      TakeNext(s, i);
      SnocTake(s[..i], x);
      sorted := sorted[..p] + [x] + sorted[p..];
    }
    TakeAll(s);
  }

  /** `sortViolationsBySeverity`: a sorted copy; the input list is left as it is. */
  function SortBySeverity(violations: seq<RuleViolation>): seq<RuleViolation> {
    SortBy(SortKey, violations)
  }

  method SortViolationsBySeverity(violations: seq<RuleViolation>) returns (sorted: seq<RuleViolation>)
    ensures sorted == SortBySeverity(violations)
  {
    sorted := StableSort(SortKey, violations);
  }

  // ---------------------------------------------------------------------------
  // Texts shown for violations
  // ---------------------------------------------------------------------------

  /** `formatViolationListEntry`: one row of the violations list. */
  function ListEntry(v: RuleViolation): string {
    "[" + NormalizeSeverity(v.severity) + "] Line " + DecimalString(v.line) + " [" + v.ruleId + "] " + v.title
  }

  /** One line of the "Top findings" preview, newline included. */
  function PreviewLine(v: RuleViolation): string {
    "- " + NormalizeSeverity(v.severity) + " | Line " + DecimalString(v.line) + " [" + v.ruleId + "] " + v.title + "\n"
  }

  /** `f` applied to each element, in order. */
  function MapAll<T>(f: T -> string, s: seq<T>): (r: seq<string>)
    ensures |r| == |s|
  {
    if s == [] then [] else MapAll(f, s[..|s| - 1]) + [f(s[|s| - 1])]
  }

  /** Element `i` of the mapped sequence is `f` of element `i`. */
  lemma {:induction false} MapAllAt<T>(f: T -> string, s: seq<T>)
    ensures forall i :: 0 <= i < |s| ==> MapAll(f, s)[i] == f(s[i])
  {
    if s != [] {
      MapAllAt(f, s[..|s| - 1]);
    }
  }

  /** The texts `f` gives for each element, one after the other. */
  function ConcatAll<T>(f: T -> string, s: seq<T>): string {
    if s == [] then [] else ConcatAll(f, s[..|s| - 1]) + f(s[|s| - 1])
  }

  /** When every text ends in `c`, so does their concatenation. */
  lemma {:induction false} ConcatAllEnds<T>(f: T -> string, s: seq<T>, c: char)
    requires s != [] && f(s[|s| - 1]) != [] && f(s[|s| - 1])[|f(s[|s| - 1])| - 1] == c
    ensures var t := ConcatAll(f, s); t != [] && t[|t| - 1] == c
  {
    LastOfAppend(ConcatAll(f, s[..|s| - 1]), f(s[|s| - 1]));
  }

  /** The list rows of the violations, in order. */
  function ListEntries(vs: seq<RuleViolation>): seq<string> {
    MapAll(ListEntry, vs)
  }

  /** The preview lines of the violations, one after the other. */
  function PreviewText(vs: seq<RuleViolation>): string {
    ConcatAll(PreviewLine, vs)
  }

  /** At most this many findings are previewed in the conversation. */
  const PreviewLimit: int := 3

  /** The conversation text for a validation with violations, before the preview lines. */
  function SummaryHead(message: string, n: int): string {
    message + "\n\nTotal violations: " + DecimalString(n) + "\n"
    + "Use the violations panel to review and jump to each line.\n"
    + "\nTop findings:\n"
  }

  /** The closing remark naming how many findings the preview left out, if any. */
  function MoreText(n: int, shown: int): (r: string)
    ensures n <= shown <==> r == []
  {
    if n > shown then "...and " + DecimalString(n - shown) + " more." else ""
  }

  /** How many findings the preview shows. */
  function Shown(n: int): int {
    if n < PreviewLimit then n else PreviewLimit
  }

  /** What `handleChat` writes for a validation with violations. */
  function Summary(message: string, vs: seq<RuleViolation>): string {
    SummaryHead(message, |vs|) + PreviewText(vs[..Shown(|vs|)]) + MoreText(|vs|, Shown(|vs|))
  }

  /** The summary ends with "more." exactly when more than three findings exist. */
  lemma SummaryEndsWithMore(message: string, vs: seq<RuleViolation>)
    ensures var t := Summary(message, vs); t != [] && (t[|t| - 1] == '.' <==> |vs| > PreviewLimit)
  {
    var shown := Shown(|vs|);
    var head := SummaryHead(message, |vs|);
    var preview := PreviewText(vs[..shown]);
    var more := MoreText(|vs|, shown);
    LastOfAppend(message + "\n\nTotal violations: " + DecimalString(|vs|) + "\n"
                 + "Use the violations panel to review and jump to each line.\n", "\nTop findings:\n");
    if |vs| > PreviewLimit {
      LastOfAppend("...and " + DecimalString(|vs| - shown), " more.");
      LastOfAppend(head + preview, more);
    } else {
      assert head + preview + more == head + preview;
      if vs == [] {
        assert preview == [];
        assert head + preview == head;
      } else {
        var v := vs[..shown][shown - 1];
        LastOfAppend("- " + NormalizeSeverity(v.severity) + " | Line " + DecimalString(v.line) + " [" + v.ruleId + "] " + v.title, "\n");
        ConcatAllEnds(PreviewLine, vs[..shown], '\n');
        LastOfAppend(head, preview);
      }
    }
  }

  /**
   * The two loops of `handleChat` over the sorted violations: every element
   * gets a list row, the first `count` also get a preview line.
   */
  method ListAndPreview<T>(line: T -> string, entry: T -> string, text0: string, s: seq<T>, count: nat)
    returns (text: string, entries: seq<string>)
    requires count <= |s|
    ensures text == text0 + ConcatAll(line, s[..count])
    ensures entries == MapAll(entry, s)
  {
    text := text0;
    entries := [];
    for i := 0 to count
      invariant text == text0 + ConcatAll(line, s[..i])
      invariant entries == MapAll(entry, s[..i])
    {
      TakeNext(s, i);
      SnocTake(s[..i], s[i]);
      AppendAssoc(text0, ConcatAll(line, s[..i]), line(s[i]));
      text := text + line(s[i]);
      entries := entries + [entry(s[i])];
    }
    for i := count to |s|
      invariant entries == MapAll(entry, s[..i])
    {
      TakeNext(s, i);
      SnocTake(s[..i], s[i]);
      entries := entries + [entry(s[i])];
    }
    TakeAll(s);
  }

  /** The conversation text and list rows `handleChat` produces for violations. */
  method Preview(message: string, violations: seq<RuleViolation>) returns (text: string, entries: seq<string>)
    ensures text == Summary(message, violations)
    ensures entries == ListEntries(violations)
  {
    var n := |violations|;
    var previewCount := if n < PreviewLimit then n else PreviewLimit;
    text, entries := ListAndPreview(PreviewLine, ListEntry, SummaryHead(message, n), violations, previewCount);
    text := text + MoreText(n, previewCount);
  }

  /**
   * `showViolationDetails` and `showViolationPopup`: the detail text. A
   * missing severity prints as `null`, as string concatenation does in Java.
   */
  function DetailText(v: RuleViolation): string {
    "Rule: " + v.title + "\n"
    + "Severity: " + (if v.severity.None? then "null" else v.severity.value) + "\n"
    + "Line: " + DecimalString(v.line) + "\n"
    + "Rule ID: " + v.ruleId + "\n"
    + "Pack: " + v.rulePackName + "\n\n"
    + "Description:\n" + v.description
    + (if Bot.HasFix(v) then "\n\nSuggested correction:\n" + v.correctCode.value else "")
  }

  // ---------------------------------------------------------------------------
  // The paste suggestion (`getPasteableSuggestion`, `hasPasteableSuggestion`)
  // ---------------------------------------------------------------------------

  /** The template of a response, when it has one with something other than blanks. */
  predicate HasPasteableTemplate(r: Response) {
    r.HasTemplate() && Trim(r.templateCode.value) != []
  }

  /** The first usable correction, else a template that is not blank, else `""`. */
  function PasteSuggestion(response: Option<Response>): string {
    if response.None? then ""
    else
      var r := response.value;
      var fix := if r.HasViolations() then Bot.FirstFix(r.violations) else "";
      if fix != [] then fix
      else if HasPasteableTemplate(r) then r.templateCode.value
      else ""
  }

  /** The suggestion is empty exactly when no violation has a correction and the template is blank or missing. */
  lemma PasteSuggestionEmpty(response: Response)
    ensures PasteSuggestion(Some(response)) == []
        <==> (forall i :: 0 <= i < |response.violations| ==> !Bot.HasFix(response.violations[i]))
             && !HasPasteableTemplate(response)
  {
    Bot.FirstFixEmpty(response.violations);
  }

  /** A non-empty suggestion is a violation's correction or the response's template. */
  lemma PasteSuggestionSource(response: Response)
    requires PasteSuggestion(Some(response)) != []
    ensures (exists i :: 0 <= i < |response.violations| && Bot.HasFix(response.violations[i])
                         && response.violations[i].correctCode.value == PasteSuggestion(Some(response)))
         || (HasPasteableTemplate(response) && response.templateCode.value == PasteSuggestion(Some(response)))
  {
    var fix := if response.HasViolations() then Bot.FirstFix(response.violations) else "";
    if fix != [] {
      Bot.FirstFixFound(response.violations);
    }
  }

  /**
   * For a decoded reply the view's suggestion and the response's own snippet
   * agree, except that the view refuses a blank template.
   */
  lemma PasteMatchesSnippet(reply: seq<(string, Json.Value)>)
    ensures var r := Bot.ToBotResponse(reply);
      PasteSuggestion(Some(r)) == (if r.templateCode.Some? && Trim(r.templateCode.value) != [] then r.templateCode.value else "")
  {
    var r := Bot.ToBotResponse(reply);
    Bot.FirstFixUsable(r.violations);
  }

  /** `getPasteableSuggestion`: scans the violations, then looks at the template. */
  method GetPasteableSuggestion(response: Option<Response>) returns (paste: string)
    ensures paste == PasteSuggestion(response)
  {
    if response.None? {
      return "";
    }
    var r := response.value;
    if r.HasViolations() {
      var fix := Bot.FirstViolationFix(r.violations);
      if fix != [] {
        return fix;
      }
    }
    if r.HasTemplate() {
      var code := r.templateCode.value;
      if Trim(code) != [] {
        return code;
      }
    }
    return "";
  }

  // ---------------------------------------------------------------------------
  // The conversation (`appendConversation`)
  // ---------------------------------------------------------------------------

  /** One turn of the conversation as shown. */
  function Turn(role: string, content: string): string {
    role + ":\n" + content
  }

  /** Turns shown one after the other with a blank line between them. */
  function Joined(turns: seq<string>): string {
    if turns == [] then ""
    else if |turns| == 1 then turns[0]
    else Joined(turns[..|turns| - 1]) + "\n\n" + turns[|turns| - 1]
  }

  /** `appendConversation` on the current text. */
  function Appended(current: string, role: string, content: string): string {
    current + (if current == [] then "" else "\n\n") + Turn(role, content)
  }

  lemma {:induction false} JoinedEmpty(turns: seq<string>)
    requires forall i :: 0 <= i < |turns| ==> turns[i] != []
    ensures Joined(turns) == [] <==> turns == []
  {
    if |turns| > 1 {
      var j := Joined(turns[..|turns| - 1]) + "\n\n";
      assert |Joined(turns)| >= |j| > 0;
    }
  }

  /**
   * Appending a turn to the text of earlier turns gives the text of all of
   * them: the separator appears exactly between turns.
   */
  lemma AppendedJoins(turns: seq<string>, role: string, content: string)
    requires forall i :: 0 <= i < |turns| ==> turns[i] != []
    ensures Appended(Joined(turns), role, content) == Joined(turns + [Turn(role, content)])
  {
    JoinedEmpty(turns);
    var all := turns + [Turn(role, content)];
    SnocTake(turns, Turn(role, content));
    if turns == [] {
      assert all == [Turn(role, content)];
    }
  }

  // ---------------------------------------------------------------------------
  // The view (`handleChat`, `handleViolationClick`, `clearConversation`, `handlePaste`)
  // ---------------------------------------------------------------------------

  /** The query the Validate button sends. */
  const ValidateQuery: string := "validate current object"

  /** The question `handleChat` sends: the Validate button's query, or the typed text trimmed. */
  function Asked(forceValidate: bool, typed: string): string {
    if forceValidate then ValidateQuery else Trim(typed)
  }

  /** The violations the view lists for a response: sorted, and only for a validation result. */
  function Listed(r: Response): seq<RuleViolation> {
    if r.kind == ValidationResult && r.HasViolations() then SortBySeverity(r.violations) else []
  }

  /** The bot's part of the conversation for a response. */
  function ReplyText(r: Response): string {
    if r.kind == TemplateSuggestion && r.HasTemplate() then
      r.message + "\n\n--- Suggested Template ---\n" + r.templateCode.value
    else if r.kind == ValidationResult && r.HasViolations() then
      Summary(r.message, SortBySeverity(r.violations))
    else if r.kind == ValidationResult then
      r.message + "\n\nNo violations detected."
    else r.message
  }

  /** The status line after a response. */
  function StatusText(r: Response): string {
    if r.kind == TemplateSuggestion && r.HasTemplate() then "Template suggestion ready"
    else if r.kind == ValidationResult && r.HasViolations() then "Validation completed with violations"
    else if r.kind == ValidationResult then "Validation passed"
    else "Response ready"
  }

  /** The detail pane: the first listed violation, or nothing. */
  function DetailOf(listed: seq<RuleViolation>): string {
    if listed == [] then "" else DetailText(listed[0])
  }

  /** What the view shows: the question box, the conversation, the status line, the list and its details, and the paste button. */
  datatype Screen = Screen(question: string, conversation: string, status: string,
                           lastResponse: Option<Response>, currentViolations: seq<RuleViolation>,
                           entries: seq<string>, detail: string, pasteEnabled: bool)

  /**
   * What the view shows always follows from the last response: its sorted
   * violations, one list row each, the first one's details, and a paste
   * button enabled exactly when there is something to paste.
   */
  predicate Consistent(s: Screen) {
    && s.currentViolations == (if s.lastResponse.None? then [] else Listed(s.lastResponse.value))
    && s.entries == ListEntries(s.currentViolations)
    && s.detail == DetailOf(s.currentViolations)
    && (s.pasteEnabled <==> PasteSuggestion(s.lastResponse) != [])
  }

  /** The screen after a response: the bot's turn and status, the sorted violations and the paste button. */
  function Respond(s: Screen, r: Response): Screen {
    var listed := Listed(r);
    s.(conversation := Appended(s.conversation, "CodeBot", ReplyText(r)), status := StatusText(r),
       lastResponse := Some(r), currentViolations := listed, entries := ListEntries(listed),
       detail := DetailOf(listed), pasteEnabled := PasteSuggestion(Some(r)) != [])
  }

  /** Every response leaves a consistent screen, whatever was shown before. */
  lemma RespondConsistent(s: Screen, r: Response)
    ensures Consistent(Respond(s, r))
    ensures Respond(s, r).question == s.question
  {
  }

  /**
   * The screen a validation result with violations leaves: sorted by
   * severity, the first three previewed, all listed, the first one detailed.
   */
  method RenderFindings(s: Screen, r: Response) returns (t: Screen)
    requires r.kind == ValidationResult && r.HasViolations()
    ensures t == Respond(s, r)
  {
    var paste := GetPasteableSuggestion(Some(r));
    var sorted := SortViolationsBySeverity(r.violations);
    var text, rows := Preview(r.message, sorted);
    t := s.(conversation := Appended(s.conversation, "CodeBot", text),
            status := "Validation completed with violations",
            lastResponse := Some(r), currentViolations := sorted, entries := rows,
            detail := DetailText(sorted[0]), pasteEnabled := paste != []);
  }

  /** The screen a response leaves, computed as `handleChat` does. */
  method Render(s: Screen, r: Response) returns (t: Screen)
    ensures t == Respond(s, r)
  {
    if r.kind == ValidationResult && r.HasViolations() {
      t := RenderFindings(s, r);
      return;
    }
    var paste := GetPasteableSuggestion(Some(r));
    var reply, status;
    if r.kind == TemplateSuggestion && r.HasTemplate() {
      reply, status := r.message + "\n\n--- Suggested Template ---\n" + r.templateCode.value, "Template suggestion ready";
    } else if r.kind == ValidationResult {
      reply, status := r.message + "\n\nNo violations detected.", "Validation passed";
    } else {
      reply, status := r.message, "Response ready";
    }
    t := s.(conversation := Appended(s.conversation, "CodeBot", reply), status := status,
            lastResponse := Some(r), currentViolations := [], entries := [], detail := "",
            pasteEnabled := paste != []);
  }

  /**
   * The governance side of showing a response: a validation's sorted
   * violations are recorded as found in the editor named `editorName` (only
   * the MAJOR ones stay pending, and the active resource's markers follow
   * them); a validation without violations clears governance; anything else
   * leaves it alone. The timestamps never move.
   */
  function Notified(g: Gov.GovState, r: Response, editorName: string, activeResource: Option<string>): Gov.GovState {
    if Listed(r) != [] then
      var majors := Gov.Majors(Listed(r));
      g.(objectName := editorName, majors := majors,
         markers := if majors == [] then Markers.Remove(g.markers, Gov.Everywhere)
                    else Gov.Published(g.markers, activeResource, majors))
    else if r.kind == ValidationResult then
      g.(majors := [], markers := Markers.Remove(g.markers, Gov.Everywhere))
    else g
  }

  /**
   * After any response, governance blocks activation exactly when the
   * response was a validation with a MAJOR violation, and every pending
   * violation is one of the response's.
   */
  lemma NotifiedBlocks(g: Gov.GovState, r: Response, editorName: string, activeResource: Option<string>)
    ensures r.kind == ValidationResult ==>
      (Notified(g, r, editorName, activeResource).majors != [] <==> exists v :: v in r.violations && Gov.IsMajor(v))
    ensures r.kind != ValidationResult ==> Notified(g, r, editorName, activeResource) == g
    ensures forall v :: v in Notified(g, r, editorName, activeResource).majors && r.kind == ValidationResult ==>
      v in r.violations && Gov.IsMajor(v)
  {
    if r.kind == ValidationResult && r.HasViolations() {
      ListedKeepsMajors(r);
      SortPermutes(SortKey, r.violations);
      forall v | v in Gov.Majors(Listed(r)) ensures v in r.violations && Gov.IsMajor(v) {
        Gov.MajorsSpec(Listed(r), v);
        assert v in multiset(Listed(r));
      }
    }
  }

  class ChatView {
    var question: string
    var conversation: string
    var status: string
    var lastResponse: Option<Response>
    var currentViolations: seq<RuleViolation>
    var entries: seq<string>
    var detail: string
    var pasteEnabled: bool
    const governance: Gov.Governance

    /** The view's widgets as one value. */
    function Shown(): Screen
      reads this
    {
      Screen(question, conversation, status, lastResponse, currentViolations, entries, detail, pasteEnabled)
    }

    predicate Valid()
      reads this
    {
      Consistent(Shown())
    }

    constructor(governance: Gov.Governance)
      ensures Valid()
      ensures question == "" && conversation == "" && status == "Ready"
      ensures lastResponse.None? && this.governance == governance
    {
      question := "";
      conversation := "";
      status := "Ready";
      lastResponse := None;
      currentViolations := [];
      entries := [];
      detail := "";
      pasteEnabled := false;
      this.governance := governance;
    }

    /**
     * Shows a response: a validation result with violations is sorted by
     * severity, the first three previewed, all listed and the first one
     * detailed; governance is told.
     */
    method ShowResponse(r: Response, editorName: string, activeResource: Option<string>)
      modifies this, governance, governance.workspace
      ensures Shown() == Respond(old(Shown()), r)
      ensures Gov.Snapshot(governance) == Notified(old(Gov.Snapshot(governance)), r, editorName, activeResource)
    {
      var t := Render(Shown(), r);
      if r.kind == ValidationResult && r.HasViolations() {
        governance.UpdateFromValidation(Some(editorName), Some(t.currentViolations), activeResource);
      } else if r.kind == ValidationResult {
        governance.Clear();
      }
      conversation, status, lastResponse, currentViolations := t.conversation, t.status, t.lastResponse, t.currentViolations;
      entries, detail, pasteEnabled := t.entries, t.detail, t.pasteEnabled;
    }

    /**
     * The second half of `handleChat`: the question joins the conversation,
     * the status says the bot is at work, the bot answers, and the answer is
     * shown.
     */
    method Answer(q: string, assist: (string, bool) -> Outcome, editorName: string, activeResource: Option<string>)
      returns (r: Response)
      modifies this, governance, governance.workspace
      ensures r == Bot.Reply(Some(q), assist)
      ensures Shown() == Respond(old(Shown()).(status := "Processing...", conversation := Appended(old(conversation), "You", q)), r)
      ensures Gov.Snapshot(governance) == Notified(old(Gov.Snapshot(governance)), r, editorName, activeResource)
    {
      conversation := Appended(conversation, "You", q);
      status := "Processing...";
      ghost var asking := Shown();
      assert asking == old(Shown()).(status := "Processing...", conversation := Appended(old(conversation), "You", q));
      r := Bot.Reply(Some(q), assist);
      ShowResponse(r, editorName, activeResource);
      assert Shown() == Respond(asking, r);
    }

    /**
     * `handleChat`: an empty question only prompts for one (`response` is
     * `None`) and changes nothing else; otherwise the bot's answer to it is
     * shown.
     */
    method HandleChat(forceValidate: bool, assist: (string, bool) -> Outcome, editorName: string,
                      activeResource: Option<string>)
      returns (response: Option<Response>)
      requires Valid()
      modifies this, governance, governance.workspace
      ensures Valid()
      ensures response.None? <==> Asked(forceValidate, old(question)) == []
      ensures question == (if forceValidate then ValidateQuery else old(question))
      ensures response.None? ==> Shown() == old(Shown()).(question := question)
      ensures response.Some? ==>
        Shown() == Respond(old(Shown()).(question := question, status := "Processing...",
                                         conversation := Appended(old(conversation), "You", Asked(forceValidate, old(question)))),
                           response.value)
      ensures response.None? ==> Gov.Snapshot(governance) == old(Gov.Snapshot(governance))
      ensures response.Some? ==>
        && response.value == Bot.Reply(Some(Asked(forceValidate, old(question))), assist)
        && Gov.Snapshot(governance) == Notified(old(Gov.Snapshot(governance)), response.value, editorName, activeResource)
    {
      var q := Trim(question);
      if forceValidate {
        q := ValidateQuery;
        question := q;
      }
      if q == [] {
        return None;
      }
      ghost var asking := Shown().(status := "Processing...", conversation := Appended(conversation, "You", q));
      var r := Answer(q, assist, editorName, activeResource);
      RespondConsistent(asking, r);
      return Some(r);
    }

    /**
     * `handleViolationClick`: an index outside the list is ignored. Otherwise
     * the editor is asked to go to the violation's line (`navigated` is its
     * answer), the details pop up, and the status names the line, or an error
     * dialog explains that no editor is active.
     */
    method HandleViolationClick(index: int, navigated: bool) returns (popup: Option<string>, error: Option<string>)
      requires Valid()
      modifies this
      ensures Valid()
      ensures index < 0 || index >= |old(currentViolations)| ==>
        popup.None? && error.None? && status == old(status)
      ensures 0 <= index < |old(currentViolations)| ==>
        var v := old(currentViolations)[index];
        && popup == Some(DetailText(v))
        && (navigated ==> error.None? && status == "Jumped to line " + DecimalString(v.line))
        && (!navigated ==>
              status == old(status) && error == Some("Could not navigate to line " + DecimalString(v.line) + ". Ensure an ABAP editor is active."))
      ensures question == old(question) && conversation == old(conversation) && lastResponse == old(lastResponse)
      ensures currentViolations == old(currentViolations) && entries == old(entries)
      ensures detail == old(detail) && pasteEnabled == old(pasteEnabled)
    {
      if index < 0 || index >= |currentViolations| {
        return None, None;
      }
      var v := currentViolations[index];
      popup := Some(DetailText(v));
      if !navigated {
        error := Some("Could not navigate to line " + DecimalString(v.line) + ". Ensure an ABAP editor is active.");
        return;
      }
      error := None;
      status := "Jumped to line " + DecimalString(v.line);
    }

    /** `clearConversation`: empties every text and list and forgets the last response. */
    method ClearConversation()
      modifies this
      ensures Valid()
      ensures question == "" && conversation == "" && status == "Cleared"
      ensures lastResponse.None? && currentViolations == [] && entries == [] && detail == "" && !pasteEnabled
    {
      question := "";
      conversation := "";
      entries := [];
      detail := "";
      currentViolations := [];
      status := "Cleared";
      pasteEnabled := false;
      lastResponse := None;
    }

    /**
     * `handlePaste`: with nothing to paste a dialog says so; otherwise the
     * suggestion goes to the editor (`inserted` is whether it took it).
     */
    method HandlePaste(inserted: bool) returns (pasted: Option<string>, dialog: Option<string>)
      requires Valid()
      modifies this
      ensures Valid()
      ensures PasteSuggestion(lastResponse) == [] ==>
        pasted.None? && dialog == Some("There is no suggestion to paste for this response.")
      ensures PasteSuggestion(lastResponse) != [] ==> pasted == Some(PasteSuggestion(lastResponse))
      ensures PasteSuggestion(lastResponse) != [] && inserted ==> dialog.None? && status == "Suggestion pasted into editor"
      ensures PasteSuggestion(lastResponse) != [] && !inserted ==>
        dialog == Some("Could not insert template. Ensure an ABAP editor is active.")
      ensures (PasteSuggestion(lastResponse) == [] || !inserted) ==> status == old(status)
      ensures question == old(question) && conversation == old(conversation) && lastResponse == old(lastResponse)
      ensures currentViolations == old(currentViolations) && entries == old(entries)
      ensures detail == old(detail) && pasteEnabled == old(pasteEnabled)
    {
      var content := GetPasteableSuggestion(lastResponse);
      if content == [] {
        return None, Some("There is no suggestion to paste for this response.");
      }
      pasted := Some(content);
      if !inserted {
        dialog := Some("Could not insert template. Ensure an ABAP editor is active.");
        return;
      }
      dialog := None;
      status := "Suggestion pasted into editor";
    }
  }

  /** The paste button is enabled after a response exactly when it offers something to paste. */
  lemma PasteEnabledIff(view: ChatView)
    requires view.Valid()
    ensures view.pasteEnabled <==>
      view.lastResponse.Some? &&
      ((exists i :: 0 <= i < |view.lastResponse.value.violations| && Bot.HasFix(view.lastResponse.value.violations[i]))
       || HasPasteableTemplate(view.lastResponse.value))
  {
    if view.lastResponse.Some? {
      PasteSuggestionEmpty(view.lastResponse.value);
    }
  }

  /** The view lists every violation of a validation result, each once, as the sort keeps them. */
  lemma ListedPermutes(r: Response)
    requires r.kind == ValidationResult && r.HasViolations()
    ensures multiset(Listed(r)) == multiset(r.violations)
    ensures |ListEntries(Listed(r))| == |r.violations|
  {
    SortPermutes(SortKey, r.violations);
  }

  /** Governance blocks after a validation exactly when the response had a MAJOR violation. */
  lemma ListedKeepsMajors(r: Response)
    requires r.kind == ValidationResult && r.HasViolations()
    ensures Gov.Majors(Listed(r)) != [] <==> exists v :: v in r.violations && Gov.IsMajor(v)
  {
    SortPermutes(SortKey, r.violations);
    var sorted := Listed(r);
    if exists v :: v in r.violations && Gov.IsMajor(v) {
      var v :| v in r.violations && Gov.IsMajor(v);
      assert v in multiset(r.violations);
      assert v in sorted;
      Gov.MajorsSpec(sorted, v);
    }
    if Gov.Majors(sorted) != [] {
      var v := Gov.Majors(sorted)[0];
      Gov.MajorsSpec(sorted, v);
      assert v in multiset(sorted);
    }
  }
}
