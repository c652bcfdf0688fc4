/** The top-issues list of the dashboard (backend/main.py `get_dashboard`):
    posts grouped by category with their count and mean sentiment, largest
    group first. */
module TopIssues {
  import opened Scoring
  import opened Ranking
  import Health

  datatype Issue = Issue(category: string, count: nat, avgSentiment: real)

  predicate DistinctStrings(cs: seq<string>) {
    forall i, j :: 0 <= i < j < |cs| ==> cs[i] != cs[j]
  }

  /** The categories in use, each once, in order of first appearance. */
  function Categories(posts: seq<Post>): (cs: seq<string>)
    ensures DistinctStrings(cs)
    ensures forall c :: c in cs <==> exists i :: 0 <= i < |posts| && posts[i].category == c
  {
    if |posts| == 0 then []
    else
      var init := posts[..|posts| - 1];
      var last := posts[|posts| - 1].category;
      var earlier := Categories(init);
      assert forall i :: 0 <= i < |init| ==> init[i] == posts[i];
      if last in earlier then earlier else earlier + [last]
  }

  /** `COUNT(*)` of one group. */
  function CountCategory(posts: seq<Post>, c: string): (n: nat)
    ensures n <= |posts|
    ensures n > 0 <==> exists i :: 0 <= i < |posts| && posts[i].category == c
  {
    if |posts| == 0 then 0
    else
      var rest := CountCategory(posts[1..], c);
      assert forall i :: 1 <= i < |posts| ==> posts[i] == posts[1..][i - 1];
      (if posts[0].category == c then 1 else 0) + rest
  }

  /** Sum of the sentiment scores of one group. */
  function SumCategory(posts: seq<Post>, c: string): real {
    if |posts| == 0 then 0.0
    else (if posts[0].category == c then posts[0].sentimentScore else 0.0) + SumCategory(posts[1..], c)
  }

  lemma {:induction false} SumCategoryBounded(posts: seq<Post>, c: string)
    requires Health.ScoresInRange(posts)
    ensures -(CountCategory(posts, c) as real) <= SumCategory(posts, c) <= CountCategory(posts, c) as real
  {
    if |posts| > 0 {
      assert Health.ScoresInRange(posts[1..]) by {
        assert forall i :: 0 <= i < |posts| - 1 ==> posts[1..][i] == posts[i + 1];
      }
      SumCategoryBounded(posts[1..], c);
    }
  }

  /** `AVG(sentiment_score)` of one non-empty group. */
  function AverageCategory(posts: seq<Post>, c: string): (avg: real)
    requires CountCategory(posts, c) > 0
    ensures avg * (CountCategory(posts, c) as real) == SumCategory(posts, c)
    ensures Health.ScoresInRange(posts) ==> -1.0 <= avg <= 1.0
  {
    var n := CountCategory(posts, c) as real;
    var avg := SumCategory(posts, c) / n;
    assert avg * n == SumCategory(posts, c);
    if Health.ScoresInRange(posts) then
      assert -1.0 <= avg <= 1.0 by {
        SumCategoryBounded(posts, c);
        Health.AverageBounded(SumCategory(posts, c), n);
      }
      avg
    else avg
  }

  /** The posts of one group, in table order. */
  function InCategory(posts: seq<Post>, c: string): (r: seq<Post>)
    ensures |r| == CountCategory(posts, c)
    ensures forall k :: 0 <= k < |r| ==> r[k].category == c
    ensures forall p :: p in r <==> p in posts && p.category == c
  {
    if |posts| == 0 then []
    else
      assert posts == [posts[0]] + posts[1..];
      (if posts[0].category == c then [posts[0]] else []) + InCategory(posts[1..], c)
  }

  lemma {:induction false} SumCategoryIsGroupSum(posts: seq<Post>, c: string)
    ensures SumCategory(posts, c) == Health.SumSentiment(InCategory(posts, c))
  {
    if |posts| > 0 {
      SumCategoryIsGroupSum(posts[1..], c);
      var rest := InCategory(posts[1..], c);
      if posts[0].category == c {
        assert InCategory(posts, c) == [posts[0]] + rest;
        assert ([posts[0]] + rest)[1..] == rest;
        assert Health.SumSentiment([posts[0]] + rest) == posts[0].sentimentScore + Health.SumSentiment(rest);
      } else {
        assert InCategory(posts, c) == [] + rest == rest;
      }
    }
  }

  /** `AVG` over a group is the plain average of the group's posts. */
  lemma AverageCategoryIsGroupAverage(posts: seq<Post>, c: string)
    requires CountCategory(posts, c) > 0
    ensures AverageCategory(posts, c) == Health.AverageSentiment(InCategory(posts, c))
  {
    SumCategoryIsGroupSum(posts, c);
  }

  /** One issue per category in `cs`. */
  function IssuesFor(posts: seq<Post>, cs: seq<string>): (r: seq<Issue>)
    requires forall k :: 0 <= k < |cs| ==> CountCategory(posts, cs[k]) > 0
    ensures |r| == |cs|
    ensures forall k :: 0 <= k < |r| ==> r[k].category == cs[k] && r[k].count == CountCategory(posts, cs[k])
    ensures forall k :: 0 <= k < |r| ==> r[k].avgSentiment == AverageCategory(posts, cs[k])
    ensures Health.ScoresInRange(posts) ==> forall k :: 0 <= k < |r| ==> -1.0 <= r[k].avgSentiment <= 1.0
  {
    if |cs| == 0 then []
    else [Issue(cs[0], CountCategory(posts, cs[0]), AverageCategory(posts, cs[0]))] + IssuesFor(posts, cs[1..])
  }

  /** `GROUP BY category`: one issue per category in use. */
  function Issues(posts: seq<Post>): (r: seq<Issue>)
    ensures |r| == |Categories(posts)|
    ensures forall k :: 0 <= k < |r| ==> r[k].category == Categories(posts)[k]
    ensures forall k :: 0 <= k < |r| ==> r[k].count == CountCategory(posts, r[k].category) >= 1
    ensures forall k :: 0 <= k < |r| ==> r[k].avgSentiment == AverageCategory(posts, r[k].category)
    ensures Health.ScoresInRange(posts) ==> forall k :: 0 <= k < |r| ==> -1.0 <= r[k].avgSentiment <= 1.0
  {
    var cs := Categories(posts);
    assert forall k :: 0 <= k < |cs| ==> cs[k] in cs;
    IssuesFor(posts, cs)
  }

  function CountKey(i: Issue): real { i.count as real }
  function NoKey(i: Issue): real { 0.0 }

  /** `ORDER BY count DESC`. */
  function TopIssues(posts: seq<Post>): (r: seq<Issue>)
    ensures forall i, j :: 0 <= i < j < |r| ==> r[i].count >= r[j].count
    ensures multiset(r) == multiset(Issues(posts))
  {
    Rank(Issues(posts), CountKey, NoKey)
  }

  function Total(issues: seq<Issue>): nat {
    if |issues| == 0 then 0 else issues[0].count + Total(issues[1..])
  }

  function SumCounts(posts: seq<Post>, cs: seq<string>): nat {
    if |cs| == 0 then 0 else CountCategory(posts, cs[0]) + SumCounts(posts, cs[1..])
  }

  /** Dropping the first post lowers the summed counts by one exactly when
      its category is listed. */
  lemma {:induction false} SumCountsStep(posts: seq<Post>, cs: seq<string>)
    requires |posts| > 0 && DistinctStrings(cs)
    ensures SumCounts(posts, cs) == SumCounts(posts[1..], cs) + (if posts[0].category in cs then 1 else 0)
  {
    if |cs| > 0 {
      assert DistinctStrings(cs[1..]) by {
        assert forall i :: 0 <= i < |cs| - 1 ==> cs[1..][i] == cs[i + 1];
      }
      SumCountsStep(posts, cs[1..]);
      assert cs == [cs[0]] + cs[1..];
      assert posts[0].category in cs <==> posts[0].category == cs[0] || posts[0].category in cs[1..];
      assert cs[0] !in cs[1..];
    }
  }

  /** Distinct categories covering every post count each post once. */
  lemma {:induction false} SumCountsCovers(posts: seq<Post>, cs: seq<string>)
    requires DistinctStrings(cs)
    requires forall i :: 0 <= i < |posts| ==> posts[i].category in cs
    ensures SumCounts(posts, cs) == |posts|
  {
    if |posts| == 0 {
      SumCountsEmpty(cs);
    } else {
      SumCountsStep(posts, cs);
      assert forall i :: 0 <= i < |posts| - 1 ==> posts[1..][i] == posts[i + 1];
      SumCountsCovers(posts[1..], cs);
    }
  }

  lemma {:induction false} SumCountsEmpty(cs: seq<string>)
    ensures SumCounts([], cs) == 0
  {
    if |cs| > 0 {
      SumCountsEmpty(cs[1..]);
    }
  }

  lemma {:induction false} TotalOfIssuesFor(posts: seq<Post>, cs: seq<string>)
    requires forall k :: 0 <= k < |cs| ==> CountCategory(posts, cs[k]) > 0
    ensures Total(IssuesFor(posts, cs)) == SumCounts(posts, cs)
  {
    if |cs| > 0 {
      TotalOfIssuesFor(posts, cs[1..]);
    }
  }

  /** The group counts add up to the number of posts. */
  lemma IssueCountsCoverPosts(posts: seq<Post>)
    ensures Total(Issues(posts)) == |posts|
  {
    var cs := Categories(posts);
    assert forall k :: 0 <= k < |cs| ==> cs[k] in cs;
    assert Issues(posts) == IssuesFor(posts, cs);
    TotalOfIssuesFor(posts, cs);
    assert forall i :: 0 <= i < |posts| ==> posts[i].category in cs;
    SumCountsCovers(posts, cs);
  }
}
