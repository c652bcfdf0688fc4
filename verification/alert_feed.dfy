/** The alert feed of the backend (backend/main.py `get_alerts`): posts with
    a notable misinformation risk or priority, ranked by priority then risk,
    cut to ten, and classified. */
module AlertFeed {
  import opened Scoring
  import opened Ranking

  /** `WHERE misinformation_risk > 0.3 OR priority_score > 0.7`. */
  predicate Flagged(p: Post) {
    p.misinformationRisk > 0.3 || p.priorityScore > 0.7
  }

  function PriorityKey(p: Post): real { p.priorityScore }
  function RiskKey(p: Post): real { p.misinformationRisk }

  const MaxAlerts: nat := 10

  function FlaggedPosts(posts: seq<Post>): (r: seq<Post>)
    ensures forall i :: 0 <= i < |r| ==> Flagged(r[i])
    ensures forall p :: p in multiset(r) <==> p in multiset(posts) && Flagged(p)
    ensures multiset(r) <= multiset(posts)
  {
    if |posts| == 0 then []
    else
      assert posts == [posts[0]] + posts[1..];
      (if Flagged(posts[0]) then [posts[0]] else []) + FlaggedPosts(posts[1..])
  }

  /** Order of the feed: priority descending, then risk descending. */
  predicate FeedOrder(a: Post, b: Post) {
    NotBelow(a, b, PriorityKey, RiskKey)
  }

  /** The rows the query returns, in order. */
  function Selection(posts: seq<Post>): (sel: seq<Post>)
    ensures |sel| <= MaxAlerts
    ensures |sel| == if |FlaggedPosts(posts)| < MaxAlerts then |FlaggedPosts(posts)| else MaxAlerts
    ensures forall i :: 0 <= i < |sel| ==> Flagged(sel[i])
    ensures multiset(sel) <= multiset(posts)
    ensures forall i, j :: 0 <= i < j < |sel| ==> FeedOrder(sel[i], sel[j])
    ensures forall p | p in multiset(FlaggedPosts(posts)) - multiset(sel) ::
      forall i :: 0 <= i < |sel| ==> FeedOrder(sel[i], p)
  {
    var flagged := FlaggedPosts(posts);
    var ranked := Rank(flagged, PriorityKey, RiskKey);
    var sel := Top(ranked, MaxAlerts, PriorityKey, RiskKey);
    SubFlagged(flagged, sel);
    sel
  }

  /** Whatever is drawn from flagged posts is flagged. */
  lemma SubFlagged(flagged: seq<Post>, sel: seq<Post>)
    requires forall i :: 0 <= i < |flagged| ==> Flagged(flagged[i])
    requires multiset(sel) <= multiset(flagged)
    ensures forall i :: 0 <= i < |sel| ==> Flagged(sel[i])
  {
    forall i | 0 <= i < |sel| ensures Flagged(sel[i]) {
      assert sel[i] in multiset(flagged);
    }
  }

  datatype AlertType = Misinformation | HighPriority {
    function Name(): string {
      match this
      case Misinformation => "misinformation"
      case HighPriority => "high_priority"
    }
  }

  datatype Severity = High | Medium {
    function Name(): string {
      match this
      case High => "high"
      case Medium => "medium"
    }
  }

  datatype Alert = Alert(id: nat, postId: int, alertType: AlertType, severity: Severity, description: string, timestamp: string)

  /** `content[:50]`. */
  function Preview(content: string): (r: string)
    ensures |r| == if |content| < 50 then |content| else 50
    ensures r <= content
  {
    if |content| < 50 then content else content[..50]
  }

  const MisinformationLead: string := "Potential misinformation detected in post by "
  const HighPriorityLead: string := "High priority community concern: "

  /** The alert built from one selected row. */
  function Classify(p: Post, id: nat): (a: Alert)
    ensures a.id == id && a.postId == p.id && a.timestamp == p.timestamp
    ensures a.alertType == Misinformation <==> p.misinformationRisk > 0.5
    ensures a.alertType == Misinformation ==> (a.severity == High <==> p.misinformationRisk > 0.7)
    ensures a.alertType == HighPriority ==> (a.severity == High <==> p.priorityScore > 0.8)
    ensures a.description ==
      (if a.alertType == Misinformation then MisinformationLead else HighPriorityLead) + Preview(p.content) + "..."
  {
    if p.misinformationRisk > 0.5 then
      Alert(id, p.id, Misinformation, if p.misinformationRisk > 0.7 then High else Medium,
            MisinformationLead + Preview(p.content) + "...", p.timestamp)
    else
      Alert(id, p.id, HighPriority, if p.priorityScore > 0.8 then High else Medium,
            HighPriorityLead + Preview(p.content) + "...", p.timestamp)
  }

  /** Classifies `rows`, numbering the alerts from `next`. */
  function ClassifyFrom(rows: seq<Post>, next: nat): (alerts: seq<Alert>)
    ensures |alerts| == |rows|
    ensures forall i :: 0 <= i < |rows| ==> alerts[i] == Classify(rows[i], next + i)
  {
    if |rows| == 0 then [] else [Classify(rows[0], next)] + ClassifyFrom(rows[1..], next + 1)
  }

  /** `get_alerts`. */
  function GetAlerts(posts: seq<Post>): (alerts: seq<Alert>)
    ensures |alerts| <= MaxAlerts
    ensures |alerts| == |Selection(posts)|
    ensures forall i :: 0 <= i < |alerts| ==> alerts[i].id == i + 1
    ensures forall i :: 0 <= i < |alerts| ==> alerts[i] == Classify(Selection(posts)[i], i + 1)
  {
    ClassifyFrom(Selection(posts), 1)
  }

  /** Every alert comes from a flagged post of the table. */
  lemma AlertsComeFromFlaggedPosts(posts: seq<Post>, i: nat)
    requires i < |GetAlerts(posts)|
    ensures exists j :: 0 <= j < |posts| && posts[j].id == GetAlerts(posts)[i].postId && Flagged(posts[j])
  {
    var sel := Selection(posts);
    assert sel[i] in multiset(sel);
    assert sel[i] in multiset(posts);
    var j :| 0 <= j < |posts| && posts[j] == sel[i];
  }

  /** Without any flagged post the feed is empty, and every flagged post
      appears when there are at most ten. */
  lemma FeedCompleteWhenShort(posts: seq<Post>)
    requires |FlaggedPosts(posts)| <= MaxAlerts
    ensures multiset(Selection(posts)) == multiset(FlaggedPosts(posts))
  {
    var flagged := FlaggedPosts(posts);
    var sel := Selection(posts);
    assert |sel| == |flagged|;
    assert Rank(flagged, PriorityKey, RiskKey)[..|flagged|] == Rank(flagged, PriorityKey, RiskKey);
  }

  /** A post at risk 0.4 with priority 0.5 passes the filter and is reported
      as a medium `high_priority` concern although its priority is below the
      0.7 priority threshold. */
  lemma ModerateRiskReportedAsHighPriority(p: Post)
    requires p.misinformationRisk == 0.4 && p.priorityScore == 0.5
    ensures Flagged(p)
    ensures Classify(p, 1).alertType == HighPriority && Classify(p, 1).severity == Medium
  {
  }
}
