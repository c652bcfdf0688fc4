/** Community health and analytics of the backend (backend/main.py,
    `get_community_health` and `get_analytics`), computed over an in-memory
    copy of the posts table in place of the SQL aggregate queries. */
module Health {
  import opened Labels
  import opened Scoring

  /** `SELECT COUNT(*) ... GROUP BY sentiment_label`, one label at a time. */
  function CountLabel(posts: seq<Post>, l: Label): (n: nat)
    ensures n <= |posts|
    ensures n == |posts| <==> forall i :: 0 <= i < |posts| ==> posts[i].sentimentLabel == l
    ensures n == 0 <==> forall i :: 0 <= i < |posts| ==> posts[i].sentimentLabel != l
  {
    if |posts| == 0 then 0
    else
      var rest := CountLabel(posts[1..], l);
      assert forall i :: 1 <= i < |posts| ==> posts[i] == posts[1..][i - 1];
      (if posts[0].sentimentLabel == l then 1 else 0) + rest
  }

  /** A post is counted as a misinformation alert when its risk exceeds 0.5. */
  predicate Risky(p: Post) {
    p.misinformationRisk > 0.5
  }

  /** `SELECT COUNT(*) FROM posts WHERE misinformation_risk > 0.5`. */
  function CountRisky(posts: seq<Post>): (n: nat)
    ensures n <= |posts|
    ensures n == 0 <==> forall i :: 0 <= i < |posts| ==> !Risky(posts[i])
  {
    if |posts| == 0 then 0
    else
      var rest := CountRisky(posts[1..]);
      assert forall i :: 1 <= i < |posts| ==> posts[i] == posts[1..][i - 1];
      (if Risky(posts[0]) then 1 else 0) + rest
  }

  /** Every post carries exactly one of the three labels. */
  lemma {:induction false} LabelCountsPartition(posts: seq<Post>)
    ensures CountLabel(posts, Positive) + CountLabel(posts, Negative) + CountLabel(posts, Neutral) == |posts|
  {
    if |posts| > 0 {
      LabelCountsPartition(posts[1..]);
    }
  }

  function Clamp(x: real, lo: real, hi: real): real
    requires lo <= hi
  {
    if x < lo then lo else if x > hi then hi else x
  }

  /** The health formula both endpoints share: 50 plus 30 times the
      positive-minus-negative ratio minus 20 times the misinformation ratio,
      clamped to [0, 100]; an empty table keeps the base score 50. */
  function HealthScore(positive: nat, negative: nat, risky: nat, total: nat): (h: real)
    ensures 0.0 <= h <= 100.0
    ensures total == 0 ==> h == 50.0
  {
    var score :=
      if total > 0 then
        50.0 + ((positive as real) / (total as real) - (negative as real) / (total as real)) * 30.0
        - (risky as real) / (total as real) * 20.0
      else 50.0;
    Clamp(score, 0.0, 100.0)
  }

  /** Facts about a count divided by a positive total. */
  lemma ShareFacts(a: nat, total: nat)
    requires total > 0
    ensures 0.0 <= (a as real) / (total as real)
    ensures a <= total ==> (a as real) / (total as real) <= 1.0
    ensures (a as real) / (total as real) == 1.0 <==> a == total
    ensures (a as real) / (total as real) == 0.0 <==> a == 0
  {
    var t := total as real;
    var q := (a as real) / t;
    assert q * t == a as real;
    if q < 0.0 {
      ProductPositive(-q, t);
    }
    if a <= total && q > 1.0 {
      ProductPositive(q - 1.0, t);
    }
    if q == 1.0 {
      assert a as real == t;
    }
    if a == total {
      assert q == 1.0;
    }
  }

  lemma ShareSum(a: nat, b: nat, total: nat)
    requires total > 0
    ensures (a as real) / (total as real) + (b as real) / (total as real) == ((a + b) as real) / (total as real)
  {
  }

  /** With consistent counts the clamp never acts: the formula already lies in
      [0, 80], and it reaches 80 exactly when every post is positive and none
      is risky. */
  lemma HealthScoreUnclamped(positive: nat, negative: nat, risky: nat, total: nat)
    requires total > 0 && positive + negative <= total && risky <= total
    ensures 0.0 <= HealthScore(positive, negative, risky, total) <= 80.0
    ensures HealthScore(positive, negative, risky, total) == 80.0 <==> positive == total && risky == 0
  {
    var t := total as real;
    var p := (positive as real) / t;
    var n := (negative as real) / t;
    var m := (risky as real) / t;
    ShareFacts(positive, total);
    ShareFacts(negative, total);
    ShareFacts(risky, total);
    ShareFacts(positive + negative, total);
    ShareSum(positive, negative, total);
    assert p + n <= 1.0;
    var raw := 50.0 + (p - n) * 30.0 - m * 20.0;
    assert 0.0 <= raw <= 80.0;
    assert HealthScore(positive, negative, risky, total) == raw;
  }

  /** More positive posts, all else fixed, never lower the score. */
  lemma HealthMonotoneInPositive(p1: nat, p2: nat, negative: nat, risky: nat, total: nat)
    requires p1 <= p2
    ensures HealthScore(p1, negative, risky, total) <= HealthScore(p2, negative, risky, total)
  {
    if total > 0 {
      var t := total as real;
      ShareFacts(p2 - p1, total);
      ShareSum(p1, p2 - p1, total);
    }
  }

  datatype HealthStatus = NoData | Excellent | Good | Fair | Poor {
    /** Position on the Poor-to-Excellent scale. */
    function Rank(): nat {
      match this
      case NoData => 0
      case Poor => 0
      case Fair => 1
      case Good => 2
      case Excellent => 3
    }
  }

  /** The status banding of `get_community_health`. */
  function StatusOf(score: real): (s: HealthStatus)
    ensures s != NoData
    ensures s == Excellent <==> score >= 80.0
    ensures s == Good <==> 60.0 <= score < 80.0
    ensures s == Fair <==> 40.0 <= score < 60.0
    ensures s == Poor <==> score < 40.0
  {
    if score >= 80.0 then Excellent
    else if score >= 60.0 then Good
    else if score >= 40.0 then Fair
    else Poor
  }

  lemma StatusMonotone(a: real, b: real)
    requires a <= b
    ensures StatusOf(a).Rank() <= StatusOf(b).Rank()
  {
  }

  /** The recommendations attached to each status. */
  function Recommendations(s: HealthStatus): (recs: seq<string>)
    ensures |recs| == (if s == Poor then 4 else if s == NoData then 1 else 3)
  {
    match s
    case NoData => [StartCollecting]
    case Excellent => [MaintainStrategies, KeepMonitoring, ExpandInitiatives]
    case Good => [AddressNegative, IncreaseEngagement, MonitorMisinformation]
    case Fair => [ImproveNow, AddressPromptly, FeedbackSessions]
    case Poor => [UrgentAction, ImprovementPlan, AddressAll, ExternalSupport]
  }

  const StartCollecting: string := "Start collecting community posts to get health insights"
  const MaintainStrategies: string := "Maintain current community engagement strategies"
  const KeepMonitoring: string := "Continue monitoring for any emerging issues"
  const ExpandInitiatives: string := "Consider expanding positive community initiatives"
  const AddressNegative: string := "Address negative sentiment issues proactively"
  const IncreaseEngagement: string := "Increase positive community engagement activities"
  const MonitorMisinformation: string := "Monitor misinformation trends closely"
  const ImproveNow: string := "Implement immediate community improvement initiatives"
  const AddressPromptly: string := "Address high-priority concerns promptly"
  const FeedbackSessions: string := "Consider community feedback sessions"
  const UrgentAction: string := "Urgent action required for community health"
  const ImprovementPlan: string := "Implement comprehensive community improvement plan"
  const AddressAll: string := "Address all high-priority issues immediately"
  const ExternalSupport: string := "Consider external community management support"

  function Share(a: nat, total: nat): real {
    if total == 0 then 0.0 else (a as real) / (total as real)
  }

  datatype HealthReport = HealthReport(
    score: real, totalPosts: nat,
    positiveRatio: real, negativeRatio: real, misinformationRatio: real,
    status: HealthStatus, recommendations: seq<string>)

  /** `get_community_health`. */
  function CommunityHealth(posts: seq<Post>): (r: HealthReport)
    ensures r.totalPosts == |posts|
    ensures |posts| == 0 ==> r.score == 50.0 && r.status == NoData && |r.recommendations| == 1
    ensures |posts| > 0 ==> 0.0 <= r.score <= 80.0 && r.status != NoData
    ensures r.status == Excellent <==>
      |posts| > 0 && forall i :: 0 <= i < |posts| ==> posts[i].sentimentLabel == Positive && !Risky(posts[i])
    ensures |r.recommendations| == (if r.status == Poor then 4 else if r.status == NoData then 1 else 3)
    ensures |posts| > 0 ==>
      r.score == HealthScore(CountLabel(posts, Positive), CountLabel(posts, Negative), CountRisky(posts), |posts|)
    ensures |posts| > 0 ==> r.status == StatusOf(r.score)
    ensures r.recommendations == Recommendations(r.status)
    ensures r.positiveRatio == Share(CountLabel(posts, Positive), |posts|)
    ensures r.negativeRatio == Share(CountLabel(posts, Negative), |posts|)
    ensures r.misinformationRatio == Share(CountRisky(posts), |posts|)
  {
    var total := |posts|;
    if total == 0 then
      HealthReport(50.0, 0, 0.0, 0.0, 0.0, NoData, Recommendations(NoData))
    else
      var positive := CountLabel(posts, Positive);
      var negative := CountLabel(posts, Negative);
      var risky := CountRisky(posts);
      LabelCountsPartition(posts);
      var score := HealthScore(positive, negative, risky, total);
      HealthScoreUnclamped(positive, negative, risky, total);
      var status := StatusOf(score);
      HealthReport(score, total, Share(positive, total), Share(negative, total), Share(risky, total),
                   status, Recommendations(status))
  }

  function SumSentiment(posts: seq<Post>): real {
    if |posts| == 0 then 0.0 else posts[0].sentimentScore + SumSentiment(posts[1..])
  }

  predicate ScoresInRange(posts: seq<Post>) {
    forall i :: 0 <= i < |posts| ==> -1.0 <= posts[i].sentimentScore <= 1.0
  }

  lemma {:induction false} SumSentimentBounded(posts: seq<Post>)
    requires ScoresInRange(posts)
    ensures -(|posts| as real) <= SumSentiment(posts) <= |posts| as real
  {
    if |posts| > 0 {
      assert ScoresInRange(posts[1..]) by {
        assert forall i :: 0 <= i < |posts| - 1 ==> posts[1..][i] == posts[i + 1];
      }
      SumSentimentBounded(posts[1..]);
    }
  }

  datatype Analytics = Analytics(
    totalPosts: nat, avgSentiment: real,
    positivePosts: nat, negativePosts: nat, neutralPosts: nat,
    misinformationAlerts: nat, healthScore: real)

  /** `SELECT AVG(sentiment_score) FROM posts`, with 0 for an empty table. */
  function AverageSentiment(posts: seq<Post>): (avg: real)
    ensures |posts| == 0 ==> avg == 0.0
    ensures |posts| > 0 ==> avg * (|posts| as real) == SumSentiment(posts)
    ensures ScoresInRange(posts) ==> -1.0 <= avg <= 1.0
  {
    if |posts| == 0 then 0.0
    else
      var total := |posts| as real;
      (if ScoresInRange(posts) then
         SumSentimentBounded(posts);
         AverageBounded(SumSentiment(posts), total);
         SumSentiment(posts) / total
       else SumSentiment(posts) / total)
  }

  /** The aggregate figures of `get_analytics` (the daily trend list is not
      part of this model). */
  function GetAnalytics(posts: seq<Post>): (a: Analytics)
    ensures a.totalPosts == |posts|
    ensures a.positivePosts + a.negativePosts + a.neutralPosts == a.totalPosts
    ensures a.misinformationAlerts <= a.totalPosts
    ensures |posts| == 0 ==> a.avgSentiment == 0.0 && a.healthScore == 50.0
    ensures ScoresInRange(posts) ==> -1.0 <= a.avgSentiment <= 1.0
    ensures 0.0 <= a.healthScore <= 100.0
    ensures a.positivePosts == CountLabel(posts, Positive) && a.negativePosts == CountLabel(posts, Negative)
    ensures a.neutralPosts == CountLabel(posts, Neutral) && a.misinformationAlerts == CountRisky(posts)
    ensures a.avgSentiment == AverageSentiment(posts)
    ensures a.healthScore == HealthScore(a.positivePosts, a.negativePosts, a.misinformationAlerts, |posts|)
  {
    var total := |posts|;
    var positive := CountLabel(posts, Positive);
    var negative := CountLabel(posts, Negative);
    var risky := CountRisky(posts);
    LabelCountsPartition(posts);
    Analytics(total, AverageSentiment(posts), positive, negative, CountLabel(posts, Neutral),
              risky, HealthScore(positive, negative, risky, total))
  }

  lemma AverageBounded(sum: real, n: real)
    requires n > 0.0 && -n <= sum <= n
    ensures -1.0 <= sum / n <= 1.0
  {
    var q := sum / n;
    assert q * n == sum;
    if q > 1.0 {
      ProductPositive(q - 1.0, n);
    }
    if q < -1.0 {
      ProductPositive(-1.0 - q, n);
    }
  }

  /** A sum of `n` scores each within [lo, hi] lies within [n * lo, n * hi]. */
  lemma {:induction false} SumSentimentWithin(posts: seq<Post>, lo: real, hi: real)
    requires forall i :: 0 <= i < |posts| ==> lo <= posts[i].sentimentScore <= hi
    ensures (|posts| as real) * lo <= SumSentiment(posts) <= (|posts| as real) * hi
  {
    if |posts| > 0 {
      assert forall i :: 0 <= i < |posts| - 1 ==> posts[1..][i] == posts[i + 1];
      SumSentimentWithin(posts[1..], lo, hi);
      var n := (|posts| - 1) as real;
      assert SumSentiment(posts) == posts[0].sentimentScore + SumSentiment(posts[1..]);
      assert (|posts| as real) * lo == lo + n * lo;
      assert (|posts| as real) * hi == hi + n * hi;
    }
  }

  lemma MeanWithin(sum: real, n: real, lo: real, hi: real)
    requires n > 0.0 && n * lo <= sum <= n * hi
    ensures lo <= sum / n <= hi
  {
    var q := sum / n;
    assert q * n == sum;
    if q < lo {
      ProductPositive(lo - q, n);
    }
    if q > hi {
      ProductPositive(q - hi, n);
    }
  }

  /** The average lies between the least and the greatest score. */
  lemma AverageWithin(posts: seq<Post>, lo: real, hi: real)
    requires |posts| > 0
    requires forall i :: 0 <= i < |posts| ==> lo <= posts[i].sentimentScore <= hi
    ensures lo <= AverageSentiment(posts) <= hi
  {
    SumSentimentWithin(posts, lo, hi);
    MeanWithin(SumSentiment(posts), |posts| as real, lo, hi);
  }

  /** Posts that all share one score average to that score. */
  lemma AverageOfConstant(posts: seq<Post>, c: real)
    requires |posts| > 0
    requires forall i :: 0 <= i < |posts| ==> posts[i].sentimentScore == c
    ensures AverageSentiment(posts) == c
  {
    AverageWithin(posts, c, c);
  }

  /** Both endpoints report the same health score for the same table. */
  lemma AnalyticsAgreesWithHealth(posts: seq<Post>)
    ensures GetAnalytics(posts).healthScore == CommunityHealth(posts).score
  {
  }
}
