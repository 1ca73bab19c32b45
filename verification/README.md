# Baseline Buddy user interface: decision logic

Baseline Buddy checks a snippet of JavaScript, TypeScript, CSS or HTML for web
features with limited browser support. A compatibility engine analyses the
code. A React user interface sends it the code and renders its report. This
project models the decision logic in that interface:

- **Code editor** (`CodeEditor`): the editor state (text and selected language),
  its change handlers, and the guard that sends the untrimmed text and the
  language for analysis only when the text has a non-whitespace character.
  `String.prototype.trim` is modelled with the exact ECMAScript whitespace and
  line-terminator set.
- **Session** (`App`): the page state (`result`, `isAnalyzing` and four
  statistics) and how one analysis moves it forward. A ghost history of
  successful scores shows that `averageScore` is always their mean.
- **Compatibility report** (`CompatibilityResults`): the letter grade and
  colour band of the score, the style for each severity, the per-severity
  counts, the heading text, the baseline-status label (first `_` replaced by a
  space), and the truthiness guards for optional blocks. A card shows
  "Copied!" only when its own id is the copied one, so at most one card does.
- **Browser support overview** (`BrowserVisualizer`): the tally for Chrome,
  Firefox, Safari and Edge. The lemmas show that the tally ignores issue order
  and ignores entries for other browsers. They also give the count identities
  and bounds.
- **Progress panel** (`StatsPanel`): the cumulative, ordered badge rule and the
  first-scan prompt.

The engine (`services/compatibilityChecker`) is not part of this model. Its
result is an input record (`CompatibilityChecker.CompatibilityResult`). An
analysis is an input value `App.Analysis`: it either completed with a result
or threw. JavaScript numbers are modelled as `real` or as integers, with no
NaN or infinities. The overview counts the entries of `browsersUnsupported`
whose status is `unsupported` (BrowserVisualizer.tsx:25).

## Model

| member | source | states |
|---|---|---|
| `CompatibilityResults.ScoreGrade` | CompatibilityResults.tsx:44-51 | A+ at 95 or more, A in [90,95), B in [80,90), C in [70,80), D in [60,70), F below 60 |
| `CompatibilityResults.GradeMonotone` | CompatibilityResults.tsx:44-51 | a higher score never gets a lower grade |
| `CompatibilityResults.GradeLabelsDistinct` | CompatibilityResults.tsx:44-51 | no two grades share a label |
| `CompatibilityResults.ScoreColor` | CompatibilityResults.tsx:38-42 | green iff score ≥ 90, amber iff 70 ≤ score < 90, red iff score < 70 |
| `CompatibilityResults.ColorMatchesGrade` | CompatibilityResults.tsx:38-51 | green exactly for A and A+, amber exactly for B and C, red exactly for D and F |
| `CompatibilityResults.SeverityColor` | CompatibilityResults.tsx:12-23 | distinct styles for 'high', 'medium' and 'low', and the slate default iff the severity is none of them |
| `CompatibilityResults.CountSeverity` | CompatibilityResults.tsx:93-99 | the count is at most the number of issues; it is 0 iff no issue has that severity; it equals the number of issues iff every issue has it |
| `CompatibilityResults.SeverityCountsCover` | CompatibilityResults.tsx:93-99 | high + medium + low ≤ the number of issues, with equality when every severity is one of the three |
| `CompatibilityResults.CountSeverityConcat` | CompatibilityResults.tsx:93-99 | the count of a severity adds over concatenation of issue lists |
| `CompatibilityResults.CountSeverityRemove` | CompatibilityResults.tsx:93-99 | taking one issue out lowers its own severity's count by exactly one and leaves the count of every other severity unchanged, which fixes each badge count issue by issue |
| `CompatibilityResults.NatToString` | CompatibilityResults.tsx:89 | the text reads back as the number (decimal value round trip); decimal digits only, one digit exactly below 10, no leading zero |
| `CompatibilityResults.IssueNoun` | CompatibilityResults.tsx:89 | "issue" iff there is exactly one issue, "issues" otherwise |
| `CompatibilityResults.IssueHeading` | CompatibilityResults.tsx:89 | "Found ", then the count's canonical decimal text (`NatToString`, which reads back as the count), a space, and the noun for that count; ends in 's' iff the count is not 1 |
| `CompatibilityResults.IssueId` | CompatibilityResults.tsx:151 | "issue-" followed by digits only, which read back as the card's index |
| `CompatibilityResults.IssueIdInjective` | CompatibilityResults.tsx:151-152 | two cards never share an id |
| `CompatibilityResults.FirstIndexOf` | CompatibilityResults.tsx:163 | the position of the first occurrence, or the length when there is none |
| `CompatibilityResults.ReplaceFirst` | CompatibilityResults.tsx:163 | same length; unchanged when the pattern is absent; otherwise only the first occurrence is replaced |
| `CompatibilityResults.ReplaceFirstKeepsOthers` | CompatibilityResults.tsx:163 | every position except the first occurrence keeps its character |
| `CompatibilityResults.StatusLabel` | CompatibilityResults.tsx:163 | the first '_' becomes a space; everything before and after it is preserved; a status without '_' is unchanged |
| `CompatibilityResults.RenderReport` | CompatibilityResults.tsx:65-131 | grade and band are those of the score; no-issues banner iff the list is empty; otherwise the heading for that count and the high, medium and low badges each counting issues of that severity, covering the list when severities are known; auto-fixed block iff `fixedCode` is a non-empty string; green band iff grade A or A+ |
| `CompatibilityResults.RenderIssueCard` | CompatibilityResults.tsx:151-224 | style of the issue's severity (default iff unknown); status label with its first '_' replaced; line badge iff `lineNumber` is present and non-zero, and a bare "0" text iff it is 0; every browser entry listed; "Copied!" iff `copiedFix` is this card's id; MDN link iff non-empty |
| `CompatibilityResults.AtMostOneCopied` | CompatibilityResults.tsx:151-152 | at most one card is in the copied state |
| `BrowserVisualizer.EntriesFor` | BrowserVisualizer.tsx:21 | keeps only entries of the issue that name the browser |
| `BrowserVisualizer.EntriesForExact` | BrowserVisualizer.tsx:21 | each entry naming the browser is kept exactly as often as it occurs; every other entry is dropped |
| `BrowserVisualizer.AllEntries` | BrowserVisualizer.tsx:20-22 | every entry of every issue is in the unfiltered flattening |
| `BrowserVisualizer.BrowserIssues` | BrowserVisualizer.tsx:20-22 | every flattened entry names the browser |
| `BrowserVisualizer.BrowserIssuesExact` | BrowserVisualizer.tsx:20-22 | the flattening holds each entry of any issue that names the browser, as often as it occurs across the issues, and nothing else |
| `BrowserVisualizer.CountStatus` | BrowserVisualizer.tsx:25-26 | never more than the entries; 0 iff no entry has one of the statuses; all iff every entry has one |
| `BrowserVisualizer.Support` | BrowserVisualizer.tsx:19-39 | supported + matched entries = number of issues; `unsupported` counts the matched 'unsupported' entries and `partial` the matched 'partial' or 'flagged' ones; unsupported + partial ≤ matched entries |
| `BrowserVisualizer.BrowserData` | BrowserVisualizer.tsx:17-40 | exactly four tallies, the tally of Chrome, Firefox, Safari, Edge in that order |
| `BrowserVisualizer.TotalFeatures` | BrowserVisualizer.tsx:42 | the number of issues, or 1 when there are none; never zero |
| `BrowserVisualizer.SupportPercentage` | BrowserVisualizer.tsx:55 | percentage × total = 100 × supported; in [0,100] when supported is within [0, total]; 100 when every feature is supported |
| `BrowserVisualizer.StatusCountsCover` | BrowserVisualizer.tsx:25-26 | unsupported + partial ≤ matched, with equality when every status is unsupported, partial or flagged |
| `BrowserVisualizer.SupportSplitExact` | BrowserVisualizer.tsx:24-26 | with known statuses, unsupported + partial = the matched entries of the browser |
| `BrowserVisualizer.EntriesForNone` | BrowserVisualizer.tsx:21 | no entry names the browser, so none is kept |
| `BrowserVisualizer.EntriesForAtMostOne` | BrowserVisualizer.tsx:21 | an issue naming each browser once contributes at most one entry |
| `BrowserVisualizer.BrowserIssuesAtMostIssues` | BrowserVisualizer.tsx:20-22 | with no repeated browser in an issue, matched entries ≤ number of issues |
| `BrowserVisualizer.SupportedWithinBounds` | BrowserVisualizer.tsx:24 | with no repeated browser in an issue, 0 ≤ supported ≤ number of issues for every browser |
| `BrowserVisualizer.EntriesForConcat` | BrowserVisualizer.tsx:21 | the filter distributes over concatenation |
| `BrowserVisualizer.BrowserIssuesAgree` | BrowserVisualizer.tsx:20-22 | issue lists that agree on one browser's entries flatten alike |
| `BrowserVisualizer.OnlyTrackedEntriesMatter` | BrowserVisualizer.tsx:17-26 | only entries naming the four browsers influence the tallies |
| `BrowserVisualizer.EntriesForInsertOther` | BrowserVisualizer.tsx:21 | inserting an entry for another browser leaves the filter unchanged |
| `BrowserVisualizer.UntrackedEntryIgnored` | BrowserVisualizer.tsx:17-26 | adding an entry for a browser outside the four changes no count |
| `BrowserVisualizer.BrowserIssuesConcat` | BrowserVisualizer.tsx:20-22 | the flattening distributes over concatenation |
| `BrowserVisualizer.BrowserIssuesRemove` | BrowserVisualizer.tsx:20-22 | removing one issue removes exactly its own matching entries |
| `BrowserVisualizer.BrowserIssuesPermutation` | BrowserVisualizer.tsx:20-22 | reordering issues gives the same matched entries, counted with multiplicity |
| `BrowserVisualizer.CountStatusConcat` | BrowserVisualizer.tsx:25-26 | status counts add over concatenation |
| `BrowserVisualizer.CountStatusRemove` | BrowserVisualizer.tsx:25-26 | removing one entry lowers the count by that entry's contribution |
| `BrowserVisualizer.CountStatusPermutation` | BrowserVisualizer.tsx:25-26 | reordering entries leaves a status count unchanged |
| `BrowserVisualizer.BrowserDataPermutation` | BrowserVisualizer.tsx:19-40 | reordering issues leaves every tally unchanged |
| `StatsPanel.BadgesForStats` | StatsPanel.tsx:99-110 | exactly the earned badges, each once, in push order; at most five; empty iff scans < 1 and average < 90 |
| `StatsPanel.ScanBadgesCumulative` | StatsPanel.tsx:102-104 | Expert implies Regular User, and Regular User implies First Scan |
| `StatsPanel.ScoreBadgesCumulative` | StatsPanel.tsx:106-107 | Perfect Score Master implies High Compatibility |
| `StatsPanel.BadgesReadOwnStatistic` | StatsPanel.tsx:102-107 | scan badges depend only on the scan count, score badges only on the average |
| `StatsPanel.BadgesMonotone` | StatsPanel.tsx:102-107 | raising the scan count or the average never removes a badge |
| `StatsPanel.RenderStatsPanel` | StatsPanel.tsx:11-72 | exactly the earned badges, in push order; badge block iff scans ≥ 1 or average ≥ 90; first-scan prompt iff scans = 0 and average < 90; never both |
| `App.Mean` | App.tsx:26-27 | mean × count = sum of the scores; 0 when there are no scores, the initial average |
| `App.SumAppend` | App.tsx:26-27 | one more score adds exactly that score to the sum |
| `App.SumBounds` | App.tsx:26-27 | scores in [0,100] give a sum within [0, 100 × count] |
| `App.MeanBounds` | App.tsx:26-27 | scores in [0,100] give a mean in [0,100] |
| `App.NextAverage` | App.tsx:26-27 | after no scans the new average is the score; otherwise it lies between the old average and the score, and stays put iff the score equals the old average |
| `App.NextAverageIsMean` | App.tsx:25-27 | the update turns the mean of the old scores into the mean of the old scores plus the new one |
| `App.Session.ShownPanelHasScans` | App.tsx:88-95 | whenever a result is set, and so the progress panel is mounted, at least one scan has completed, so the panel's first-scan prompt (StatsPanel.tsx:68) cannot show |
| `App.Session.constructor` | App.tsx:10-17 | no result, not analysing, all four statistics 0, no scores |
| `App.Session.HandleAnalyze` | App.tsx:19-40 | on success: result replaced, scans + 1, average updated to the running mean, current score and issue count from the result; on a throw: result and statistics unchanged; not analysing afterwards on both paths; the average stays in [0,100] when every score is |
| `CodeEditor.KeptStart` | CodeEditor.tsx:30 | the first non-whitespace position from a given one on, or the length when there is none; only whitespace is skipped |
| `CodeEditor.KeptEnd` | CodeEditor.tsx:30 | scanning back over whitespace only, never below the start: the end of the kept part, just after a non-whitespace character unless nothing is kept |
| `CodeEditor.Trim` | CodeEditor.tsx:30 | a slice of the text, with only whitespace removed before and after it, and starting and ending with a non-whitespace character when not empty |
| `CodeEditor.TrimNonEmptyIff` | CodeEditor.tsx:30 | trimming leaves text iff the code has a non-whitespace character |
| `CodeEditor.ExampleCodeIsAnalyzable` | CodeEditor.tsx:10-26 | the initial example text has a non-whitespace character, so it can be analysed |
| `CodeEditor.Editor.constructor` | CodeEditor.tsx:10-27 | starts with the example text and 'javascript' |
| `CodeEditor.Editor.SetCode` | CodeEditor.tsx:75 | replaces the text, keeps the language, so the language stays one of the four options |
| `CodeEditor.Editor.SetLanguage` | CodeEditor.tsx:45-51 | the language becomes the chosen option, one of javascript, typescript, css, html; the text is kept |
| `CodeEditor.Editor.HandleAnalyze` | CodeEditor.tsx:29-33 | one request iff the code has a non-whitespace character, carrying the untrimmed code and the selected language |
| `CodeEditor.Editor.Click` | CodeEditor.tsx:54-55 | nothing while an analysis runs; otherwise as `HandleAnalyze`; the language sent is one of the four options |

## Left out

- The compatibility engine (`analyzeCodeCompatibility` in `services/compatibilityChecker`) is not part of this model. Its outcome is the argument of `App.Session.HandleAnalyze`. The code and language handed to it do not affect the page state.
- Asynchrony: `HandleAnalyze` models one call at a time. The moment when `isAnalyzing` is true is internal to the call. Overlapping analyses and the possibly stale `stats` closure are not modelled.
- The `console.error` call on the failure path (I/O).
- Copying a fix: the clipboard write and the 2-second timer that clears `copiedFix` (CompatibilityResults.tsx:53-57). `copiedFix` is an input of `RenderIssueCard`.
- `getSeverityIcon` and all icons, JSX markup and CSS classes other than the three mapping functions. The summary, score and description text are shown verbatim. The `StatCard` and `FeatureCard` components and the page chrome are also left out.
- Badge labels: their text is emoji with a broken encoding, so badges are an enumeration.
- The empty-state message of the browser overview (BrowserVisualizer.tsx:48) and the page's choice between report and welcome panel (App.tsx:88, 103) are left out. Both are plain guards on an empty list or a missing result.
- `SupportPercentage`: computed over the reals. `Math.round` is not modelled.
- `toFixed(0)` on the average (StatsPanel.tsx:31) is not modelled.
- `ScoreGrade`, `ScoreColor`, `NextAverage`: JavaScript numbers are modelled as mathematical reals. NaN, infinities and IEEE rounding of the running mean are not modelled.
- `NatToString`: only non-negative integers are converted, as for the issue count and the card index. Exponent notation for very large numbers is not modelled.
- `RenderIssueCard`: `lineNumber` is an integer, so a NaN line number is not modelled.
