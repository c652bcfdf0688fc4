/** The three sentiment labels used by the backend and the preprocessing
    pipeline. */
module Labels {

  datatype Label = Positive | Neutral | Negative {
    /** The label as the source spells it. */
    function Name(): string {
      match this
      case Positive => "positive"
      case Neutral => "neutral"
      case Negative => "negative"
    }

    /** Position on the negative-to-positive scale. */
    function Rank(): nat {
      match this
      case Negative => 0
      case Neutral => 1
      case Positive => 2
    }
  }

  lemma NamesDistinct(a: Label, b: Label)
    ensures a.Name() == b.Name() <==> a == b
  {
  }

  function Min(a: real, b: real): real {
    if a <= b then a else b
  }

  lemma ProductPositive(x: real, y: real)
    requires x > 0.0 && y > 0.0
    ensures x * y > 0.0
  {
  }

  /** A ratio exceeds a bound exactly when the numerator exceeds the bound
      times the (positive) denominator. */
  lemma RatioAbove(num: real, den: real, bound: real)
    requires den > 0.0
    ensures num / den > bound <==> num > bound * den
  {
    var q := num / den;
    assert q * den == num;
    assert (q - bound) * den == num - bound * den;
    if q > bound {
      ProductPositive(q - bound, den);
    } else if q < bound {
      ProductPositive(bound - q, den);
    }
  }
}

/** Per-post analysis of the backend (backend/main.py): the sentiment label
    taken from a compound polarity score, the keyword-based misinformation
    risk and the unclamped priority score, combined as the API does for a
    newly submitted post. */
module Scoring {
  import opened Chars
  import opened Labels

  /** The label `analyze_sentiment` attaches to a compound score. */
  function SentimentLabel(compound: real): (l: Label)
    ensures l == Positive <==> compound >= 0.05
    ensures l == Negative <==> compound <= -0.05
    ensures l == Neutral <==> -0.05 < compound < 0.05
  {
    if compound >= 0.05 then Positive
    else if compound <= -0.05 then Negative
    else Neutral
  }

  /** A higher compound score never yields a lower label. */
  lemma SentimentLabelMonotone(a: real, b: real)
    requires a <= b
    ensures SentimentLabel(a).Rank() <= SentimentLabel(b).Rank()
  {
  }

  const MisinformationKeywords: seq<string> := [
    "fake news", "conspiracy", "hoax", "cover up", "secret cure",
    "government hiding", "they don't want you to know", "wake up",
    "sheeple", "mainstream media lies", "alternative facts"
  ]

  const UrgencyWords: seq<string> := ["urgent", "immediate", "now", "quick", "fast", "emergency"]

  lemma KeywordListsDistinct()
    ensures Distinct(MisinformationKeywords)
    ensures Distinct(UrgencyWords)
  {
  }

  /** The shouting rule: more than 30% of the characters are upper case. */
  predicate Shouting(text: string) {
    |text| > 0 && (CountUpper(text) as real) / (|text| as real) > 0.3
  }

  lemma ShoutingCrossMultiplied(text: string)
    ensures Shouting(text) <==> 10 * CountUpper(text) > 3 * |text|
  {
    if |text| > 0 {
      var u := CountUpper(text) as real;
      var n := |text| as real;
      RatioAbove(u, n, 0.3);
      assert u > 0.3 * n <==> 10.0 * u > 3.0 * n;
    }
  }

  /** The shouting contribution to the risk. */
  function ShoutingWeight(text: string): (w: real)
    ensures w == (if 10 * CountUpper(text) > 3 * |text| then 0.2 else 0.0)
  {
    ShoutingCrossMultiplied(text);
    if Shouting(text) then 0.2 else 0.0
  }

  /** 0.3 for every misinformation keyword present in the lower-cased text. */
  function KeywordWeight(text: string): (w: real)
    ensures w == 0.3 * (|Found(Lower(text), MisinformationKeywords)| as real)
    ensures 0.0 <= w
  {
    KeywordListsDistinct();
    0.3 * (CountPresent(Lower(text), MisinformationKeywords) as real)
  }

  /** 0.1 when more than two distinct urgency words are present. */
  function UrgencyWeight(text: string): (w: real)
    ensures w == (if |Found(Lower(text), UrgencyWords)| > 2 then 0.1 else 0.0)
  {
    KeywordListsDistinct();
    if CountPresent(Lower(text), UrgencyWords) > 2 then 0.1 else 0.0
  }

  /** `detect_misinformation`: 0.2 for shouting, 0.3 for every keyword
      present, 0.1 for more than three '!', 0.1 for more than two distinct
      urgency words, capped at 1. */
  function DetectMisinformation(text: string): (risk: real)
    ensures 0.0 <= risk <= 1.0
    ensures risk == Min(
      (if 10 * CountUpper(text) > 3 * |text| then 0.2 else 0.0)
      + 0.3 * (|Found(Lower(text), MisinformationKeywords)| as real)
      + (if CountChar(text, '!') > 3 then 0.1 else 0.0)
      + (if |Found(Lower(text), UrgencyWords)| > 2 then 0.1 else 0.0),
      1.0)
  {
    var shouting := ShoutingWeight(text);
    var keywords := KeywordWeight(text);
    var exclamations := if CountChar(text, '!') > 3 then 0.1 else 0.0;
    var urgency := UrgencyWeight(text);
    var sum := shouting + keywords + exclamations + urgency;
    assert sum ==
      (if 10 * CountUpper(text) > 3 * |text| then 0.2 else 0.0)
      + 0.3 * (|Found(Lower(text), MisinformationKeywords)| as real)
      + (if CountChar(text, '!') > 3 then 0.1 else 0.0)
      + (if |Found(Lower(text), UrgencyWords)| > 2 then 0.1 else 0.0);
    Min(sum, 1.0)
  }

  /** The empty text carries no risk. */
  lemma EmptyTextNoRisk()
    ensures DetectMisinformation("") == 0.0
  {
    KeywordListsDistinct();
    assert Lower("") == "";
    assert Found("", MisinformationKeywords) == {};
    assert Found("", UrgencyWords) == {};
    assert CountUpper("") == 0 && CountChar("", '!') == 0;
  }

  /** Without any keyword the remaining rules add at most 0.2 + 0.1 + 0.1. */
  lemma NoKeywordRiskAtMostPointFour(text: string)
    requires forall k :: 0 <= k < |MisinformationKeywords| ==> !Contains(Lower(text), MisinformationKeywords[k])
    ensures DetectMisinformation(text) <= 0.4
  {
    KeywordListsDistinct();
    var hits := CountPresent(Lower(text), MisinformationKeywords);
    assert hits == 0;
  }

  /** `calculate_priority_score`: the sentiment, risk and length terms
      weighted 0.4, 0.4 and 0.2, without any clamp. */
  function PriorityScore(sentiment: real, risk: real, contentLength: nat): (p: real)
    ensures -1.0 <= sentiment <= 1.0 && 0.0 <= risk <= 1.0 ==> 0.0 <= p <= 1.4
  {
    (1.0 - sentiment) * 0.4 + risk * 0.4 + Min((contentLength as real) / 500.0, 1.0) * 0.2
  }

  lemma PriorityDecreasesWithSentiment(s1: real, s2: real, risk: real, len: nat)
    requires s1 < s2
    ensures PriorityScore(s1, risk, len) > PriorityScore(s2, risk, len)
  {
  }

  lemma PriorityGrowsWithRisk(sentiment: real, r1: real, r2: real, len: nat)
    requires r1 <= r2
    ensures PriorityScore(sentiment, r1, len) <= PriorityScore(sentiment, r2, len)
  {
  }

  lemma PriorityGrowsWithLength(sentiment: real, risk: real, l1: nat, l2: nat)
    requires l1 <= l2
    ensures PriorityScore(sentiment, risk, l1) <= PriorityScore(sentiment, risk, l2)
  {
  }

  /** The length term stops growing at 500 characters. */
  lemma PriorityLengthSaturates(sentiment: real, risk: real, len: nat)
    requires len >= 500
    ensures PriorityScore(sentiment, risk, len) == PriorityScore(sentiment, risk, 500)
  {
  }

  /** Nothing clamps the score to [0,1]: the most negative, riskiest long
      post scores 1.4. */
  lemma PriorityCanExceedOne()
    ensures PriorityScore(-1.0, 1.0, 500) == 1.4
  {
  }

  /** What `/api/analyze` and `/api/posts` derive from a post's text, given
      the compound score of the external sentiment analyser. */
  datatype Analysis = Analysis(sentimentScore: real, sentimentLabel: Label, misinformationRisk: real, priorityScore: real)

  function Analyze(content: string, compound: real): (a: Analysis)
    requires -1.0 <= compound <= 1.0
    ensures a.sentimentScore == compound && a.sentimentLabel == SentimentLabel(compound)
    ensures a.sentimentLabel == Positive <==> compound >= 0.05
    ensures a.sentimentLabel == Negative <==> compound <= -0.05
    ensures a.misinformationRisk == DetectMisinformation(content)
    ensures a.priorityScore == PriorityScore(compound, a.misinformationRisk, |content|)
    ensures 0.0 <= a.misinformationRisk <= 1.0
    ensures 0.0 <= a.priorityScore <= 1.4
    ensures a.priorityScore >= (1.0 - compound) * 0.4
  {
    var risk := DetectMisinformation(content);
    Analysis(compound, SentimentLabel(compound), risk, PriorityScore(compound, risk, |content|))
  }

  /** A row of the posts table. */
  datatype Post = Post(
    id: int, content: string, author: string, timestamp: string,
    sentimentScore: real, sentimentLabel: Label, misinformationRisk: real,
    category: string, priorityScore: real)

  /** The row `create_post` stores for a submission. */
  function CreatePost(id: int, content: string, author: string, category: string, timestamp: string, compound: real): (p: Post)
    requires -1.0 <= compound <= 1.0
    ensures p.id == id && p.content == content && p.author == author && p.category == category
    ensures p.timestamp == timestamp
    ensures p.sentimentScore == compound && p.sentimentLabel == SentimentLabel(compound)
    ensures p.misinformationRisk == DetectMisinformation(content)
    ensures p.priorityScore == PriorityScore(compound, p.misinformationRisk, |content|)
    ensures 0.0 <= p.misinformationRisk <= 1.0 && 0.0 <= p.priorityScore <= 1.4
  {
    var a := Analyze(content, compound);
    Post(id, content, author, timestamp, a.sentimentScore, a.sentimentLabel, a.misinformationRisk, category, a.priorityScore)
  }
}
