/**
  The records that the compatibility engine (services/compatibilityChecker)
  hands to the user interface. The engine itself is not part of this model:
  every component below takes its result as an input value.
*/
module CompatibilityChecker {
  import opened Wrappers

  /** One browser in which a feature has a support problem. */
  datatype BrowserEntry = BrowserEntry(name: string, version: string, supportStatus: string)

  /** One reported feature. `severity` and `baselineStatus` are free strings, as in the engine's `CompatibilityIssue` interface. */
  datatype CompatibilityIssue = CompatibilityIssue(
    featureName: string,
    description: string,
    severity: string,
    baselineStatus: string,
    browsersUnsupported: seq<BrowserEntry>,
    suggestedFix: string,
    lineNumber: Option<int>,
    mdnLink: Option<string>)

  /** What one analysis returns. */
  datatype CompatibilityResult = CompatibilityResult(
    score: real,
    summary: string,
    issues: seq<CompatibilityIssue>,
    fixedCode: Option<string>)
}
