/**
  The "Your Progress" panel: which badges the session statistics earn, in
  which order they are listed, and when the first-scan prompt is shown.
*/
module StatsPanel {

  /** The five badges, declared in the order they are pushed. */
  datatype Badge = FirstScan | RegularUser | Expert | HighCompatibility | PerfectScoreMaster {
    /** Position in the list of pushes. */
    function Position(): nat {
      match this
      case FirstScan => 0
      case RegularUser => 1
      case Expert => 2
      case HighCompatibility => 3
      case PerfectScoreMaster => 4
    }

    /** Scan badges are earned by the number of scans, the others by the average score. */
    predicate IsScanBadge() {
      this in {FirstScan, RegularUser, Expert}
    }
  }

  /** The threshold each badge stands for. */
  predicate Earned(badge: Badge, totalScans: int, averageScore: real) {
    match badge
    case FirstScan => totalScans >= 1
    case RegularUser => totalScans >= 10
    case Expert => totalScans >= 50
    case HighCompatibility => averageScore >= 90.0
    case PerfectScoreMaster => averageScore >= 95.0
  }

  /** Builds the badge list by successive pushes, as `getBadgesForStats` does. The
      result holds exactly the earned badges, each once, in push order. */
  method BadgesForStats(totalScans: int, averageScore: real) returns (badges: seq<Badge>)
    ensures forall b :: b in badges <==> Earned(b, totalScans, averageScore)
    ensures forall i, j :: 0 <= i < j < |badges| ==> badges[i].Position() < badges[j].Position()
    ensures |badges| <= 5
    ensures |badges| > 0 <==> totalScans >= 1 || averageScore >= 90.0
  {
    badges := [];
    if totalScans >= 1 { badges := badges + [FirstScan]; }
    if totalScans >= 10 { badges := badges + [RegularUser]; }
    if totalScans >= 50 { badges := badges + [Expert]; }
    if averageScore >= 90.0 { badges := badges + [HighCompatibility]; }
    if averageScore >= 95.0 { badges := badges + [PerfectScoreMaster]; }
  }

  /** Scan badges are cumulative: Expert implies Regular User implies First Scan. */
  lemma ScanBadgesCumulative(totalScans: int, averageScore: real)
    ensures Earned(Expert, totalScans, averageScore) ==> Earned(RegularUser, totalScans, averageScore)
    ensures Earned(RegularUser, totalScans, averageScore) ==> Earned(FirstScan, totalScans, averageScore)
  {
  }

  /** Perfect Score Master implies High Compatibility. */
  lemma ScoreBadgesCumulative(totalScans: int, averageScore: real)
    ensures Earned(PerfectScoreMaster, totalScans, averageScore) ==> Earned(HighCompatibility, totalScans, averageScore)
  {
  }

  /** A scan badge looks only at the scan count, a score badge only at the average. */
  lemma BadgesReadOwnStatistic(badge: Badge, totalScans: int, averageScore: real, otherScans: int, otherAverage: real)
    ensures badge.IsScanBadge() ==> Earned(badge, totalScans, averageScore) == Earned(badge, totalScans, otherAverage)
    ensures !badge.IsScanBadge() ==> Earned(badge, totalScans, averageScore) == Earned(badge, otherScans, averageScore)
  {
  }

  /** Raising the scan count or the average never takes a badge away. */
  lemma BadgesMonotone(badge: Badge, totalScans: int, averageScore: real, moreScans: int, higherAverage: real)
    requires totalScans <= moreScans && averageScore <= higherAverage
    ensures Earned(badge, totalScans, averageScore) ==> Earned(badge, moreScans, higherAverage)
  {
  }

  /** What the panel shows besides the four statistic cards. */
  datatype PanelView = PanelView(badges: seq<Badge>, showBadges: bool, showFirstScanPrompt: bool)

  method RenderStatsPanel(totalScans: int, averageScore: real) returns (v: PanelView)
    ensures forall b :: b in v.badges <==> Earned(b, totalScans, averageScore)
    ensures forall i, j :: 0 <= i < j < |v.badges| ==> v.badges[i].Position() < v.badges[j].Position()
    ensures v.showBadges <==> totalScans >= 1 || averageScore >= 90.0
    ensures v.showFirstScanPrompt <==> totalScans == 0 && averageScore < 90.0
    ensures !(v.showBadges && v.showFirstScanPrompt)
  {
    var badges := BadgesForStats(totalScans, averageScore);
    v := PanelView(badges, |badges| > 0, |badges| == 0 && totalScans == 0);
  }
}
