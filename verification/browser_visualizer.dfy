/**
  The per-browser tally behind the browser support overview: for each of the
  four tracked browsers, how many reported issues leave it unaffected, how
  many list it as partially supported or flagged, and how many as unsupported.
*/
module BrowserVisualizer {
  import opened CompatibilityChecker

  /** The tracked browsers, in display order. */
  const Browsers: seq<string> := ["Chrome", "Firefox", "Safari", "Edge"]

  const UnsupportedStatuses: set<string> := {"unsupported"}
  const PartialStatuses: set<string> := {"partial", "flagged"}

  datatype BrowserSupport = BrowserSupport(name: string, supported: int, partial: nat, unsupported: nat)

  /** The entries of one issue that name `browser` (the inner `filter`). */
  function EntriesFor(entries: seq<BrowserEntry>, browser: string): (r: seq<BrowserEntry>)
    ensures |r| <= |entries|
    ensures forall e :: e in r ==> e in entries && e.name == browser
  {
    if |entries| == 0 then []
    else (if entries[0].name == browser then [entries[0]] else []) + EntriesFor(entries[1..], browser)
  }

  /** Every entry of every issue, in order (the `flatMap` without its filter). */
  function AllEntries(issues: seq<CompatibilityIssue>): (r: seq<BrowserEntry>)
    ensures forall k, e :: 0 <= k < |issues| && e in issues[k].browsersUnsupported ==> e in r
  {
    if |issues| == 0 then []
    else
      assert forall k :: 1 <= k < |issues| ==> issues[k] == issues[1..][k - 1];
      issues[0].browsersUnsupported + AllEntries(issues[1..])
  }

  /** All entries naming `browser`, across all issues (the `flatMap`). */
  function BrowserIssues(issues: seq<CompatibilityIssue>, browser: string): (r: seq<BrowserEntry>)
    ensures forall e :: e in r ==> e.name == browser
  {
    if |issues| == 0 then []
    else EntriesFor(issues[0].browsersUnsupported, browser) + BrowserIssues(issues[1..], browser)
  }

  /** The filter keeps each entry naming the browser as often as it occurs
      and drops every other entry. */
  lemma {:induction false} EntriesForExact(entries: seq<BrowserEntry>, browser: string, e: BrowserEntry)
    ensures multiset(EntriesFor(entries, browser))[e] == if e.name == browser then multiset(entries)[e] else 0
  {
    if |entries| > 0 {
      assert entries == [entries[0]] + entries[1..];
      EntriesForExact(entries[1..], browser, e);
    }
  }

  /** The flattened list holds each entry of any issue that names the browser,
      as often as it occurs there, and nothing else. */
  lemma {:induction false} BrowserIssuesExact(issues: seq<CompatibilityIssue>, browser: string, e: BrowserEntry)
    ensures multiset(BrowserIssues(issues, browser))[e] == if e.name == browser then multiset(AllEntries(issues))[e] else 0
  {
    if |issues| > 0 {
      EntriesForExact(issues[0].browsersUnsupported, browser, e);
      BrowserIssuesExact(issues[1..], browser, e);
    }
  }

  /** The number of entries whose status is one of `statuses` (a `filter(...).length`). */
  function CountStatus(entries: seq<BrowserEntry>, statuses: set<string>): (n: nat)
    ensures n <= |entries|
    ensures n == 0 <==> forall i :: 0 <= i < |entries| ==> entries[i].supportStatus !in statuses
    ensures n == |entries| <==> forall i :: 0 <= i < |entries| ==> entries[i].supportStatus in statuses
  {
    if |entries| == 0 then 0
    else
      assert forall i :: 1 <= i < |entries| ==> entries[i] == entries[1..][i - 1];
      (if entries[0].supportStatus in statuses then 1 else 0) + CountStatus(entries[1..], statuses)
  }

  /** One browser's tally. */
  function Support(issues: seq<CompatibilityIssue>, browser: string): (s: BrowserSupport)
    ensures s.name == browser
    ensures s.supported + |BrowserIssues(issues, browser)| == |issues|
    ensures s.unsupported == CountStatus(BrowserIssues(issues, browser), UnsupportedStatuses)
    ensures s.partial == CountStatus(BrowserIssues(issues, browser), PartialStatuses)
    ensures s.unsupported + s.partial <= |BrowserIssues(issues, browser)|
  {
    var matched := BrowserIssues(issues, browser);
    StatusCountsCover(matched);
    BrowserSupport(
      browser,
      |issues| - |matched|,
      CountStatus(matched, PartialStatuses),
      CountStatus(matched, UnsupportedStatuses))
  }

  /** The tallies of the four tracked browsers, in order. */
  function BrowserData(issues: seq<CompatibilityIssue>): (data: seq<BrowserSupport>)
    ensures |data| == 4
    ensures forall i :: 0 <= i < 4 ==> data[i].name == Browsers[i]
    ensures forall i :: 0 <= i < 4 ==> data[i].supported + |BrowserIssues(issues, Browsers[i])| == |issues|
    ensures forall i :: 0 <= i < 4 ==> data[i] == Support(issues, Browsers[i])
  {
    seq(|Browsers|, i requires 0 <= i < |Browsers| => Support(issues, Browsers[i]))
  }

  /** The denominator of the support percentage: never zero. */
  function TotalFeatures(issues: seq<CompatibilityIssue>): (total: nat)
    ensures 1 <= total
    ensures |issues| != 0 ==> total == |issues|
    ensures |issues| == 0 ==> total == 1
  {
    if |issues| != 0 then |issues| else 1
  }

  /** The support percentage of one browser, over the reals (without `Math.round`). */
  function SupportPercentage(s: BrowserSupport, totalFeatures: nat): (p: real)
    requires 1 <= totalFeatures
    ensures 0 <= s.supported <= totalFeatures ==> 0.0 <= p <= 100.0
    ensures s.supported == totalFeatures ==> p == 100.0
    ensures p * totalFeatures as real == 100.0 * s.supported as real
  {
    FractionBounds(s.supported as real, totalFeatures as real);
    (s.supported as real / totalFeatures as real) * 100.0
  }

  lemma FractionBounds(part: real, whole: real)
    requires 0.0 < whole
    ensures 0.0 <= part <= whole ==> 0.0 <= part / whole <= 1.0
    ensures part == whole ==> part / whole == 1.0
    ensures (part / whole) * whole == part
  {
  }

  // ---------------------------------------------------------------------------
  // Status split

  /** The known statuses: one of the two filters matches each of them. */
  predicate KnownStatus(status: string) {
    status in UnsupportedStatuses || status in PartialStatuses
  }

  /** `unsupported` and `partial` never overlap and, when every status is
      known, together count every matched entry. */
  lemma {:induction false} StatusCountsCover(entries: seq<BrowserEntry>)
    ensures CountStatus(entries, UnsupportedStatuses) + CountStatus(entries, PartialStatuses) <= |entries|
    ensures (forall i :: 0 <= i < |entries| ==> KnownStatus(entries[i].supportStatus)) ==>
              CountStatus(entries, UnsupportedStatuses) + CountStatus(entries, PartialStatuses) == |entries|
  {
    if |entries| > 0 {
      StatusCountsCover(entries[1..]);
      assert forall i :: 1 <= i < |entries| ==> entries[i] == entries[1..][i - 1];
    }
  }

  /** When every matched entry has a known status, the two counts add up to the matched entries. */
  lemma SupportSplitExact(issues: seq<CompatibilityIssue>, browser: string)
    requires forall e :: e in BrowserIssues(issues, browser) ==> KnownStatus(e.supportStatus)
    ensures Support(issues, browser).unsupported + Support(issues, browser).partial == |BrowserIssues(issues, browser)|
  {
    StatusCountsCover(BrowserIssues(issues, browser));
  }

  // ---------------------------------------------------------------------------
  // Bounds of `supported`

  /** No browser is named twice in one issue's list. */
  predicate ListsBrowserOnce(entries: seq<BrowserEntry>) {
    forall i, j :: 0 <= i < j < |entries| ==> entries[i].name != entries[j].name
  }

  lemma {:induction false} EntriesForNone(entries: seq<BrowserEntry>, browser: string)
    requires forall i :: 0 <= i < |entries| ==> entries[i].name != browser
    ensures EntriesFor(entries, browser) == []
  {
    if |entries| > 0 {
      assert forall i :: 1 <= i < |entries| ==> entries[i] == entries[1..][i - 1];
      EntriesForNone(entries[1..], browser);
    }
  }

  lemma {:induction false} EntriesForAtMostOne(entries: seq<BrowserEntry>, browser: string)
    requires ListsBrowserOnce(entries)
    ensures |EntriesFor(entries, browser)| <= 1
  {
    if |entries| > 0 {
      assert forall i :: 1 <= i < |entries| ==> entries[i] == entries[1..][i - 1];
      if entries[0].name == browser {
        EntriesForNone(entries[1..], browser);
      } else {
        EntriesForAtMostOne(entries[1..], browser);
      }
    }
  }

  lemma {:induction false} BrowserIssuesAtMostIssues(issues: seq<CompatibilityIssue>, browser: string)
    requires forall k :: 0 <= k < |issues| ==> ListsBrowserOnce(issues[k].browsersUnsupported)
    ensures |BrowserIssues(issues, browser)| <= |issues|
  {
    if |issues| > 0 {
      EntriesForAtMostOne(issues[0].browsersUnsupported, browser);
      assert forall k :: 1 <= k < |issues| ==> issues[k] == issues[1..][k - 1];
      BrowserIssuesAtMostIssues(issues[1..], browser);
    }
  }

  /** When no issue names a browser twice, every `supported` lies in [0, |issues|]. */
  lemma SupportedWithinBounds(issues: seq<CompatibilityIssue>)
    requires forall k :: 0 <= k < |issues| ==> ListsBrowserOnce(issues[k].browsersUnsupported)
    ensures forall i :: 0 <= i < 4 ==> 0 <= BrowserData(issues)[i].supported <= |issues|
  {
    forall i | 0 <= i < 4
      ensures 0 <= BrowserData(issues)[i].supported
    {
      BrowserIssuesAtMostIssues(issues, Browsers[i]);
    }
  }

  // ---------------------------------------------------------------------------
  // Entries for browsers outside the four

  lemma {:induction false} EntriesForConcat(a: seq<BrowserEntry>, b: seq<BrowserEntry>, browser: string)
    ensures EntriesFor(a + b, browser) == EntriesFor(a, browser) + EntriesFor(b, browser)
  {
    if |a| > 0 {
      assert (a + b)[1..] == a[1..] + b;
      EntriesForConcat(a[1..], b, browser);
    } else {
      assert a + b == b;
    }
  }

  lemma {:induction false} BrowserIssuesAgree(a: seq<CompatibilityIssue>, b: seq<CompatibilityIssue>, browser: string)
    requires |a| == |b|
    requires forall k :: 0 <= k < |a| ==>
               EntriesFor(a[k].browsersUnsupported, browser) == EntriesFor(b[k].browsersUnsupported, browser)
    ensures BrowserIssues(a, browser) == BrowserIssues(b, browser)
  {
    if |a| > 0 {
      assert forall k :: 1 <= k < |a| ==> a[k] == a[1..][k - 1] && b[k] == b[1..][k - 1];
      BrowserIssuesAgree(a[1..], b[1..], browser);
    }
  }

  /** Two issue lists that agree, issue by issue, on the entries naming each
      tracked browser give the same tallies: nothing else is looked at. */
  lemma OnlyTrackedEntriesMatter(a: seq<CompatibilityIssue>, b: seq<CompatibilityIssue>)
    requires |a| == |b|
    requires forall k, browser :: 0 <= k < |a| && browser in Browsers ==>
               EntriesFor(a[k].browsersUnsupported, browser) == EntriesFor(b[k].browsersUnsupported, browser)
    ensures BrowserData(a) == BrowserData(b)
  {
    forall i | 0 <= i < 4
      ensures BrowserData(a)[i] == BrowserData(b)[i]
    {
      assert Browsers[i] in Browsers;
      BrowserIssuesAgree(a, b, Browsers[i]);
    }
  }

  lemma EntriesForInsertOther(list: seq<BrowserEntry>, j: nat, e: BrowserEntry, browser: string)
    requires j <= |list| && e.name != browser
    ensures EntriesFor(list[..j] + [e] + list[j..], browser) == EntriesFor(list, browser)
  {
    var pre, post := list[..j], list[j..];
    assert pre + post == list;
    calc {
      EntriesFor(pre + [e] + post, browser);
      { EntriesForConcat(pre + [e], post, browser); }
      EntriesFor(pre + [e], browser) + EntriesFor(post, browser);
      { EntriesForConcat(pre, [e], browser); }
      EntriesFor(pre, browser) + EntriesFor([e], browser) + EntriesFor(post, browser);
      { assert EntriesFor([e], browser) == [] by { assert [e][1..] == []; } }
      EntriesFor(pre, browser) + EntriesFor(post, browser);
      { EntriesForConcat(pre, post, browser); }
      EntriesFor(list, browser);
    }
  }

  /** Inserting an entry for a browser outside the four into any issue changes no count. */
  lemma UntrackedEntryIgnored(issues: seq<CompatibilityIssue>, k: nat, j: nat, e: BrowserEntry)
    requires k < |issues| && j <= |issues[k].browsersUnsupported|
    requires e.name !in Browsers
    ensures
      var list := issues[k].browsersUnsupported;
      BrowserData(issues[k := issues[k].(browsersUnsupported := list[..j] + [e] + list[j..])]) == BrowserData(issues)
  {
    var list := issues[k].browsersUnsupported;
    var issues' := issues[k := issues[k].(browsersUnsupported := list[..j] + [e] + list[j..])];
    forall k', browser | 0 <= k' < |issues| && browser in Browsers
      ensures EntriesFor(issues'[k'].browsersUnsupported, browser) == EntriesFor(issues[k'].browsersUnsupported, browser)
    {
      if k' == k {
        EntriesForInsertOther(list, j, e, browser);
      }
    }
    OnlyTrackedEntriesMatter(issues', issues);
  }

  // ---------------------------------------------------------------------------
  // Order of the issues does not matter

  lemma PermutationSplit<T>(x: T, rest: seq<T>, b: seq<T>) returns (k: nat)
    requires multiset([x] + rest) == multiset(b)
    ensures k < |b| && b[k] == x
    ensures multiset(rest) == multiset(b[..k] + b[k + 1..])
  {
    assert x in multiset([x] + rest);
    assert x in multiset(b);
    k :| 0 <= k < |b| && b[k] == x;
    var pre, post := b[..k], b[k + 1..];
    assert b == pre + [x] + post;
    assert multiset(b) == multiset(pre) + multiset{x} + multiset(post);
    assert multiset(pre + post) == multiset(pre) + multiset(post) == multiset(b) - multiset{x};
    assert multiset([x] + rest) == multiset{x} + multiset(rest);
    assert multiset(rest) == multiset([x] + rest) - multiset{x};
  }

  lemma {:induction false} BrowserIssuesConcat(a: seq<CompatibilityIssue>, b: seq<CompatibilityIssue>, browser: string)
    ensures BrowserIssues(a + b, browser) == BrowserIssues(a, browser) + BrowserIssues(b, browser)
  {
    if |a| > 0 {
      assert (a + b)[1..] == a[1..] + b;
      BrowserIssuesConcat(a[1..], b, browser);
    } else {
      assert a + b == b;
    }
  }

  /** Taking one issue out of the list takes exactly its own entries out of the flattened list. */
  lemma BrowserIssuesRemove(b: seq<CompatibilityIssue>, k: nat, browser: string)
    requires k < |b|
    ensures multiset(BrowserIssues(b, browser)) ==
              multiset(EntriesFor(b[k].browsersUnsupported, browser)) + multiset(BrowserIssues(b[..k] + b[k + 1..], browser))
  {
    var pre, post := b[..k], b[k + 1..];
    BrowserIssuesConcat(pre, post, browser);
    BrowserIssuesConcat(pre, [b[k]] + post, browser);
    assert b == pre + ([b[k]] + post);
    assert ([b[k]] + post)[1..] == post;
  }

  lemma {:induction false} BrowserIssuesPermutation(a: seq<CompatibilityIssue>, b: seq<CompatibilityIssue>, browser: string)
    requires multiset(a) == multiset(b)
    ensures multiset(BrowserIssues(a, browser)) == multiset(BrowserIssues(b, browser))
    decreases |a|
  {
    if |a| == 0 {
      assert |b| == |multiset(b)| == 0;
    } else {
      assert a == [a[0]] + a[1..];
      var k := PermutationSplit(a[0], a[1..], b);
      BrowserIssuesPermutation(a[1..], b[..k] + b[k + 1..], browser);
      BrowserIssuesRemove(b, k, browser);
    }
  }

  lemma {:induction false} CountStatusConcat(a: seq<BrowserEntry>, b: seq<BrowserEntry>, statuses: set<string>)
    ensures CountStatus(a + b, statuses) == CountStatus(a, statuses) + CountStatus(b, statuses)
  {
    if |a| > 0 {
      assert (a + b)[1..] == a[1..] + b;
      CountStatusConcat(a[1..], b, statuses);
    } else {
      assert a + b == b;
    }
  }

  lemma CountStatusRemove(b: seq<BrowserEntry>, k: nat, statuses: set<string>)
    requires k < |b|
    ensures CountStatus(b, statuses) ==
              (if b[k].supportStatus in statuses then 1 else 0) + CountStatus(b[..k] + b[k + 1..], statuses)
  {
    var pre, post := b[..k], b[k + 1..];
    var mid := [b[k]] + post;
    assert b == pre + mid;
    assert mid[1..] == post;
    assert CountStatus(mid, statuses) == (if b[k].supportStatus in statuses then 1 else 0) + CountStatus(post, statuses);
    CountStatusConcat(pre, post, statuses);
    CountStatusConcat(pre, mid, statuses);
  }

  lemma {:induction false} CountStatusPermutation(a: seq<BrowserEntry>, b: seq<BrowserEntry>, statuses: set<string>)
    requires multiset(a) == multiset(b)
    ensures CountStatus(a, statuses) == CountStatus(b, statuses)
    decreases |a|
  {
    if |a| == 0 {
      assert |b| == |multiset(b)| == 0;
    } else {
      assert a == [a[0]] + a[1..];
      var k := PermutationSplit(a[0], a[1..], b);
      CountStatusPermutation(a[1..], b[..k] + b[k + 1..], statuses);
      CountStatusRemove(b, k, statuses);
    }
  }

  /** Reordering the issues leaves every tally unchanged. */
  lemma BrowserDataPermutation(a: seq<CompatibilityIssue>, b: seq<CompatibilityIssue>)
    requires multiset(a) == multiset(b)
    ensures BrowserData(a) == BrowserData(b)
  {
    assert |a| == |multiset(a)| == |multiset(b)| == |b|;
    forall i | 0 <= i < 4
      ensures BrowserData(a)[i] == BrowserData(b)[i]
    {
      var ma, mb := BrowserIssues(a, Browsers[i]), BrowserIssues(b, Browsers[i]);
      BrowserIssuesPermutation(a, b, Browsers[i]);
      assert |ma| == |multiset(ma)| == |multiset(mb)| == |mb|;
      CountStatusPermutation(ma, mb, UnsupportedStatuses);
      CountStatusPermutation(ma, mb, PartialStatuses);
    }
  }
}
