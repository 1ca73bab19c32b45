/**
  The decisions the compatibility report makes before it renders anything:
  the letter grade and colour band of the score, the style of each severity,
  the per-severity counts and the heading, the baseline-status label, and the
  guards that decide which optional blocks are shown.
*/
module CompatibilityResults {
  import opened Wrappers
  import opened CompatibilityChecker

  // ---------------------------------------------------------------------------
  // Score grade and colour band

  /** Letter grades, declared from worst to best. */
  datatype Grade = F | D | C | B | A | APlus {
    function Label(): string {
      match this
      case F => "F"
      case D => "D"
      case C => "C"
      case B => "B"
      case A => "A"
      case APlus => "A+"
    }

    /** Position in the order F < D < C < B < A < A+. */
    function Rank(): nat {
      match this
      case F => 0
      case D => 1
      case C => 2
      case B => 3
      case A => 4
      case APlus => 5
    }
  }

  function ScoreGrade(score: real): (g: Grade)
    ensures g == APlus <==> 95.0 <= score
    ensures g == A <==> 90.0 <= score < 95.0
    ensures g == B <==> 80.0 <= score < 90.0
    ensures g == C <==> 70.0 <= score < 80.0
    ensures g == D <==> 60.0 <= score < 70.0
    ensures g == F <==> score < 60.0
  {
    if score >= 95.0 then APlus
    else if score >= 90.0 then A
    else if score >= 80.0 then B
    else if score >= 70.0 then C
    else if score >= 60.0 then D
    else F
  }

  /** A higher score never earns a worse grade. */
  lemma GradeMonotone(lo: real, hi: real)
    requires lo <= hi
    ensures ScoreGrade(lo).Rank() <= ScoreGrade(hi).Rank()
  {
  }

  /** The labels shown for the six grades are pairwise different. */
  lemma GradeLabelsDistinct(g: Grade, h: Grade)
    requires g != h
    ensures g.Label() != h.Label()
  {
  }

  const GreenScoreClass: string := "text-green-700 bg-green-100"
  const AmberScoreClass: string := "text-amber-700 bg-amber-100"
  const RedScoreClass: string := "text-red-700 bg-red-100"

  function ScoreColor(score: real): (c: string)
    ensures c == GreenScoreClass <==> 90.0 <= score
    ensures c == AmberScoreClass <==> 70.0 <= score < 90.0
    ensures c == RedScoreClass <==> score < 70.0
  {
    assert GreenScoreClass[5] != AmberScoreClass[5];
    assert |RedScoreClass| != |GreenScoreClass|;
    if score >= 90.0 then GreenScoreClass
    else if score >= 70.0 then AmberScoreClass
    else RedScoreClass
  }

  /** The colour band agrees with the grade: green exactly for A and A+,
      amber exactly for B and C, red exactly for D and F. */
  lemma ColorMatchesGrade(score: real)
    ensures ScoreColor(score) == GreenScoreClass <==> ScoreGrade(score) in {A, APlus}
    ensures ScoreColor(score) == AmberScoreClass <==> ScoreGrade(score) in {B, C}
    ensures ScoreColor(score) == RedScoreClass <==> ScoreGrade(score) in {D, F}
  {
  }

  // ---------------------------------------------------------------------------
  // Severity style

  const HighClass: string := "text-red-700 bg-red-50 border-red-200"
  const MediumClass: string := "text-amber-700 bg-amber-50 border-amber-200"
  const LowClass: string := "text-blue-700 bg-blue-50 border-blue-200"
  const DefaultClass: string := "text-slate-700 bg-slate-50 border-slate-200"

  /** The three severities the report knows; anything else falls to the default style. */
  predicate KnownSeverity(severity: string) {
    severity == "high" || severity == "medium" || severity == "low"
  }

  function SeverityColor(severity: string): (c: string)
    ensures c == HighClass <==> severity == "high"
    ensures c == MediumClass <==> severity == "medium"
    ensures c == LowClass <==> severity == "low"
    ensures c == DefaultClass <==> !KnownSeverity(severity)
  {
    assert HighClass[5] != MediumClass[5] && HighClass[5] != LowClass[5] && HighClass[5] != DefaultClass[5];
    assert MediumClass[5] != LowClass[5] && MediumClass[5] != DefaultClass[5] && LowClass[5] != DefaultClass[5];
    match severity
    case "high" => HighClass
    case "medium" => MediumClass
    case "low" => LowClass
    case _ => DefaultClass
  }

  // ---------------------------------------------------------------------------
  // Per-severity counts

  /** The number of issues whose severity is `severity` (a `filter(...).length`). */
  function CountSeverity(issues: seq<CompatibilityIssue>, severity: string): (n: nat)
    ensures n <= |issues|
    ensures n == 0 <==> forall i :: 0 <= i < |issues| ==> issues[i].severity != severity
    ensures n == |issues| <==> forall i :: 0 <= i < |issues| ==> issues[i].severity == severity
  {
    if |issues| == 0 then 0
    else
      var rest := CountSeverity(issues[1..], severity);
      assert forall i :: 1 <= i < |issues| ==> issues[i] == issues[1..][i - 1];
      (if issues[0].severity == severity then 1 else 0) + rest
  }

  /** The three badges never count more issues than there are, and count all
      of them when every severity is one of the three. */
  lemma {:induction false} SeverityCountsCover(issues: seq<CompatibilityIssue>)
    ensures CountSeverity(issues, "high") + CountSeverity(issues, "medium") + CountSeverity(issues, "low") <= |issues|
    ensures (forall i :: 0 <= i < |issues| ==> KnownSeverity(issues[i].severity)) ==>
              CountSeverity(issues, "high") + CountSeverity(issues, "medium") + CountSeverity(issues, "low") == |issues|
  {
    if |issues| > 0 {
      SeverityCountsCover(issues[1..]);
      assert forall i :: 1 <= i < |issues| ==> issues[i] == issues[1..][i - 1];
    }
  }

  lemma {:induction false} CountSeverityConcat(a: seq<CompatibilityIssue>, b: seq<CompatibilityIssue>, severity: string)
    ensures CountSeverity(a + b, severity) == CountSeverity(a, severity) + CountSeverity(b, severity)
  {
    if |a| > 0 {
      assert (a + b)[1..] == a[1..] + b;
      CountSeverityConcat(a[1..], b, severity);
    } else {
      assert a + b == b;
    }
  }

  /** Taking one issue out lowers its severity's count by one and leaves every other count alone. */
  lemma CountSeverityRemove(issues: seq<CompatibilityIssue>, k: nat, severity: string)
    requires k < |issues|
    ensures CountSeverity(issues, severity) ==
              (if issues[k].severity == severity then 1 else 0) + CountSeverity(issues[..k] + issues[k + 1..], severity)
  {
    var pre, post := issues[..k], issues[k + 1..];
    var mid := [issues[k]] + post;
    assert issues == pre + mid;
    assert mid[1..] == post;
    assert CountSeverity(mid, severity) == (if issues[k].severity == severity then 1 else 0) + CountSeverity(post, severity);
    CountSeverityConcat(pre, post, severity);
    CountSeverityConcat(pre, mid, severity);
  }

  // ---------------------------------------------------------------------------
  // Numbers as text, the heading and the copy-button id

  /** The value of a decimal digit character. */
  function DigitValue(c: char): int {
    c as int - '0' as int
  }

  function DigitChar(d: nat): (c: char)
    requires d < 10
    ensures '0' <= c <= '9'
    ensures DigitValue(c) == d
  {
    ('0' as int + d) as char
  }

  /** The number a string of decimal digits denotes, most significant digit first. */
  function DecimalValue(s: string): int {
    if |s| == 0 then 0 else 10 * DecimalValue(s[..|s| - 1]) + DigitValue(s[|s| - 1])
  }

  /** The decimal text JavaScript gives a non-negative integer: it reads back
      as that integer, uses digits only and has no leading zero. */
  function NatToString(n: nat): (s: string)
    ensures 1 <= |s|
    ensures DecimalValue(s) == n
    ensures n < 10 <==> |s| == 1
    ensures forall i :: 0 <= i < |s| ==> '0' <= s[i] <= '9'
    ensures s[0] == '0' ==> n == 0
    decreases n
  {
    if n < 10 then
      assert [DigitChar(n)][..0] == [];
      [DigitChar(n)]
    else
      var s := NatToString(n / 10) + [DigitChar(n % 10)];
      assert s[..|s| - 1] == NatToString(n / 10);
      s
  }

  /** "issue" for exactly one issue, "issues" otherwise. */
  function IssueNoun(count: nat): (w: string)
    ensures w == "issue" <==> count == 1
    ensures w == "issues" <==> count != 1
  {
    "issue" + (if count != 1 then "s" else "")
  }

  /** "Found ", the decimal count, a space and the noun agreeing with the count. */
  function IssueHeading(count: nat): (h: string)
    ensures 6 < |h| && h[..6] == "Found "
    ensures var w := IssueNoun(count);
              && 6 + 1 + |w| < |h|
              && h[6..|h| - |w| - 1] == NatToString(count)
              && DecimalValue(h[6..|h| - |w| - 1]) == count
              && h[|h| - |w| - 1] == ' '
              && h[|h| - |w|..] == w
    ensures h[|h| - 1] == 's' <==> count != 1
  {
    var digits, w := NatToString(count), IssueNoun(count);
    var h := "Found " + digits + " " + w;
    assert h == ("Found " + digits) + (" " + w);
    assert |h| - |w| - 1 == 6 + |digits|;
    assert ("Found " + digits)[6..] == digits;
    assert h[6..|h| - |w| - 1] == digits;
    h
  }

  /** The key under which a card's fix is remembered as copied: "issue-"
      followed by digits that read back as the card's index. */
  function IssueId(index: nat): (id: string)
    ensures 6 < |id| && id[..6] == "issue-"
    ensures DecimalValue(id[6..]) == index
    ensures forall i :: 6 <= i < |id| ==> '0' <= id[i] <= '9'
  {
    "issue-" + NatToString(index)
  }

  lemma IssueIdInjective(i: nat, j: nat)
    requires IssueId(i) == IssueId(j)
    ensures i == j
  {
  }

  // ---------------------------------------------------------------------------
  // Baseline-status label

  /** Position of the first `c` in `s`, or `|s|` when there is none. */
  function FirstIndexOf(s: string, c: char): (k: nat)
    ensures k <= |s|
    ensures k < |s| ==> s[k] == c
    ensures forall i :: 0 <= i < k ==> s[i] != c
  {
    if |s| == 0 then 0
    else if s[0] == c then 0
    else 1 + FirstIndexOf(s[1..], c)
  }

  /** JavaScript's `s.replace(pattern, replacement)` for a one-character
      string pattern: only the first occurrence is replaced. */
  function ReplaceFirst(s: string, pattern: char, replacement: char): (r: string)
    ensures |r| == |s|
    ensures pattern !in s ==> r == s
    ensures pattern in s ==>
              var k := FirstIndexOf(s, pattern);
              k < |s| && r == s[..k] + [replacement] + s[k + 1..]
  {
    if |s| == 0 then s
    else if s[0] == pattern then [replacement] + s[1..]
    else
      var rest := ReplaceFirst(s[1..], pattern, replacement);
      assert pattern in s ==> pattern in s[1..];
      [s[0]] + rest
  }

  /** Every position other than the first occurrence keeps its character. */
  lemma ReplaceFirstKeepsOthers(s: string, pattern: char, replacement: char, i: nat)
    requires i < |s| && i != FirstIndexOf(s, pattern)
    ensures ReplaceFirst(s, pattern, replacement)[i] == s[i]
  {
  }

  /** The label shown for a baseline status: its first underscore becomes a space. */
  function StatusLabel(baselineStatus: string): (shown: string)
    ensures |shown| == |baselineStatus|
    ensures '_' !in baselineStatus ==> shown == baselineStatus
    ensures '_' in baselineStatus ==>
              var k := FirstIndexOf(baselineStatus, '_');
              shown[k] == ' ' && shown[..k] == baselineStatus[..k] && shown[k + 1..] == baselineStatus[k + 1..]
  {
    ReplaceFirst(baselineStatus, '_', ' ')
  }

  // ---------------------------------------------------------------------------
  // What the report shows

  /** The list header shown when there are issues. */
  datatype IssueListing = IssueListing(heading: string, high: nat, medium: nat, low: nat)

  datatype ReportView = ReportView(
    grade: Grade,
    scoreClass: string,
    listing: Option<IssueListing>,  // None: the "no compatibility issues" banner
    fixedCode: Option<string>)      // Some: the auto-fixed block

  /** JavaScript truthiness of an optional string: present and non-empty. */
  predicate Truthy(s: Option<string>) {
    s.Some? && s.value != ""
  }

  function RenderReport(result: CompatibilityResult): (v: ReportView)
    ensures v.grade == ScoreGrade(result.score) && v.scoreClass == ScoreColor(result.score)
    ensures v.grade.Rank() >= 4 <==> v.scoreClass == GreenScoreClass
    ensures v.listing.None? <==> |result.issues| == 0
    ensures v.listing.Some? ==>
              && v.listing.value.heading == IssueHeading(|result.issues|)
              && v.listing.value.high == CountSeverity(result.issues, "high")
              && v.listing.value.medium == CountSeverity(result.issues, "medium")
              && v.listing.value.low == CountSeverity(result.issues, "low")
              && v.listing.value.high + v.listing.value.medium + v.listing.value.low <= |result.issues|
    ensures v.listing.Some? && (forall i :: 0 <= i < |result.issues| ==> KnownSeverity(result.issues[i].severity)) ==>
              v.listing.value.high + v.listing.value.medium + v.listing.value.low == |result.issues|
    ensures v.fixedCode.Some? <==> Truthy(result.fixedCode)
    ensures v.fixedCode.Some? ==> v.fixedCode == result.fixedCode
  {
    ColorMatchesGrade(result.score);
    SeverityCountsCover(result.issues);
    var issues := result.issues;
    ReportView(
      ScoreGrade(result.score),
      ScoreColor(result.score),
      if |issues| == 0 then None
      else Some(IssueListing(
        IssueHeading(|issues|),
        CountSeverity(issues, "high"),
        CountSeverity(issues, "medium"),
        CountSeverity(issues, "low"))),
      if Truthy(result.fixedCode) then result.fixedCode else None)
  }

  datatype CardView = CardView(
    severityClass: string,
    statusLabel: string,
    lineBadge: Option<int>,
    zeroText: bool,                  // a line number of 0 is itself rendered as the text "0"
    browserList: seq<BrowserEntry>,  // the "Browser Support Issues" block; empty: not shown
    copied: bool,                    // "Copied!" instead of "Copy"
    mdnLink: Option<string>)

  function RenderIssueCard(issue: CompatibilityIssue, index: nat, copiedFix: Option<string>): (v: CardView)
    ensures v.lineBadge.Some? <==> issue.lineNumber.Some? && issue.lineNumber.value != 0
    ensures v.lineBadge.Some? ==> v.lineBadge == issue.lineNumber
    ensures v.zeroText <==> issue.lineNumber == Some(0)
    ensures v.browserList == issue.browsersUnsupported
    ensures v.copied <==> copiedFix == Some(IssueId(index))
    ensures v.mdnLink.Some? <==> Truthy(issue.mdnLink)
    ensures v.mdnLink.Some? ==> v.mdnLink == issue.mdnLink
    ensures v.statusLabel == StatusLabel(issue.baselineStatus)
    ensures v.severityClass == SeverityColor(issue.severity)
    ensures v.severityClass == DefaultClass <==> !KnownSeverity(issue.severity)
  {
    CardView(
      SeverityColor(issue.severity),
      StatusLabel(issue.baselineStatus),
      if issue.lineNumber.Some? && issue.lineNumber.value != 0 then issue.lineNumber else None,
      issue.lineNumber == Some(0),
      issue.browsersUnsupported,
      copiedFix == Some(IssueId(index)),
      if Truthy(issue.mdnLink) then issue.mdnLink else None)
  }

  /** At most one card of a report is in the copied state at a time. */
  lemma AtMostOneCopied(issues: seq<CompatibilityIssue>, copiedFix: Option<string>, i: nat, j: nat)
    requires i < |issues| && j < |issues|
    requires RenderIssueCard(issues[i], i, copiedFix).copied
    requires RenderIssueCard(issues[j], j, copiedFix).copied
    ensures i == j
  {
    IssueIdInjective(i, j);
  }
}
