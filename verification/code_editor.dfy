/**
  The code editor: its two pieces of state (the text and the selected
  language), the handlers that set them, and the guard that decides whether
  a click on "Analyze Code" hands the text to the analysis.
*/
module CodeEditor {
  import opened Wrappers

  /** The values of the four options of the language selector. */
  const LanguageOptions: seq<string> := ["javascript", "typescript", "css", "html"]

  /** The text the editor starts with. */
  const ExampleCode: string := "// Example: Using modern JavaScript features\nconst data = await fetch('/api/data');\nconst result = await data.json();\n\n// Optional chaining\nconst userName = user?.profile?.name;\n\n// Nullish coalescing\nconst count = items ?? 0;\n\n// Array.at()\nconst lastItem = array.at(-1);\n\n// Private class fields\nclass MyClass {\n  #privateField = 'secret';\n}"

  /** The characters `String.prototype.trim` removes: the ECMAScript
      WhiteSpace and LineTerminator code points. */
  predicate IsWhitespace(c: char) {
    || c == '\t' || c == '\n' || c == '\U{000B}' || c == '\U{000C}' || c == '\r' || c == ' '
    || c == '\U{00A0}' || c == '\U{1680}' || ('\U{2000}' <= c <= '\U{200A}')
    || c == '\U{2028}' || c == '\U{2029}' || c == '\U{202F}' || c == '\U{205F}'
    || c == '\U{3000}' || c == '\U{FEFF}'
  }

  /** The text has a character that trimming keeps. */
  predicate HasNonWhitespace(s: string) {
    exists i :: 0 <= i < |s| && !IsWhitespace(s[i])
  }

  /** Where what `trim` keeps begins: the first non-whitespace character at
      or after `k`, or `|s|` when there is none. */
  function KeptStart(s: string, k: nat): (lo: nat)
    requires k <= |s|
    ensures k <= lo <= |s|
    ensures forall i :: k <= i < lo ==> IsWhitespace(s[i])
    ensures lo < |s| ==> !IsWhitespace(s[lo])
    decreases |s| - k
  {
    if k < |s| && IsWhitespace(s[k]) then KeptStart(s, k + 1) else k
  }

  /** Where what `trim` keeps ends: scanning back from `k` over whitespace,
      but never below `lo`. */
  function KeptEnd(s: string, lo: nat, k: nat): (hi: nat)
    requires lo <= k <= |s|
    ensures lo <= hi <= k
    ensures forall i :: hi <= i < k ==> IsWhitespace(s[i])
    ensures lo < hi ==> !IsWhitespace(s[hi - 1])
    decreases k
  {
    if lo < k && IsWhitespace(s[k - 1]) then KeptEnd(s, lo, k - 1) else k
  }

  /** `String.prototype.trim`: the slice of `s` that starts after its leading
      whitespace, with only whitespace after it and no whitespace left at
      either end. */
  function Trim(s: string): (r: string)
    ensures var lo := KeptStart(s, 0);  // the leading whitespace removed
              && lo + |r| <= |s| && r == s[lo..lo + |r|]
              && (forall i :: 0 <= i < lo ==> IsWhitespace(s[i]))
              && (forall i :: lo + |r| <= i < |s| ==> IsWhitespace(s[i]))
    ensures r != [] ==> !IsWhitespace(r[0]) && !IsWhitespace(r[|r| - 1])
  {
    var lo := KeptStart(s, 0);
    s[lo..KeptEnd(s, lo, |s|)]
  }

  /** Trimming leaves something exactly when the text has a non-whitespace character. */
  lemma TrimNonEmptyIff(s: string)
    ensures Trim(s) != [] <==> HasNonWhitespace(s)
  {
  }

  /** The text ends with '}', so a click on the untouched editor starts an analysis. */
  lemma ExampleCodeIsAnalyzable()
    ensures HasNonWhitespace(ExampleCode)
  {
    assert ExampleCode[|ExampleCode| - 1] == '}';
  }

  /** The arguments of one `onAnalyze` call. */
  datatype AnalyzeRequest = AnalyzeRequest(code: string, language: string)

  class Editor {
    var code: string
    var language: string

    ghost predicate Valid()
      reads this
    {
      language in LanguageOptions
    }

    constructor ()
      ensures Valid()
      ensures code == ExampleCode && language == "javascript"
    {
      code := ExampleCode;
      language := "javascript";
    }

    /** The text area's change handler. */
    method SetCode(text: string)
      requires Valid()
      modifies this
      ensures Valid()
      ensures code == text && language == old(language)
    {
      code := text;
    }

    /** The selector's change handler; the selector only ever reports one of its options. */
    method SetLanguage(value: string)
      requires value in LanguageOptions
      modifies this
      ensures Valid()
      ensures language == value && code == old(code)
    {
      language := value;
    }

    /** The click handler: at most one `onAnalyze` call, made exactly when the
        text has a non-whitespace character, with the untrimmed text and the
        selected language. */
    method HandleAnalyze() returns (request: Option<AnalyzeRequest>)
      ensures request.Some? <==> HasNonWhitespace(code)
      ensures request.Some? ==> request.value == AnalyzeRequest(code, language)
    {
      TrimNonEmptyIff(code);
      if Trim(code) != [] {
        request := Some(AnalyzeRequest(code, language));
      } else {
        request := None;
      }
    }

    /** A click on the button, which is disabled while an analysis is running. */
    method Click(isAnalyzing: bool) returns (request: Option<AnalyzeRequest>)
      ensures isAnalyzing ==> request == None
      ensures !isAnalyzing ==> (request.Some? <==> HasNonWhitespace(code))
      ensures request.Some? ==> request.value == AnalyzeRequest(code, language)
      ensures Valid() && request.Some? ==> request.value.language in LanguageOptions
    {
      if isAnalyzing {
        request := None;
      } else {
        request := HandleAnalyze();
      }
    }
  }
}
