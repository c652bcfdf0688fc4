/** Row filtering, sentiment bucketing and the training label of the
    preprocessing pipeline (data_collection/data_processor.py,
    `process_reddit_data`, `process_nextdoor_data` and
    `create_training_dataset`). Data frames are sequences of records; only the
    columns the pipeline computes are kept, the copied-through ones are not. */
module Processor {
  import opened Chars
  import opened Labels
  import opened TextCleaning
  import opened Features

  /** A value written to an output row: a value or pandas' NaN. */
  datatype Value<T> = Val(v: T) | NaN

  /** One column of a data-frame row: a value, a missing cell (NaN) in a
      column the frame has, or a column the frame lacks altogether. */
  datatype Field<T> = Given(value: T) | Missing | Absent {
    /** `row.get(key, default)` on a row from `iterrows()`: the default only
        when the frame has no such column; a missing cell stays NaN. */
    function Get(default: T): (r: Value<T>)
      ensures Given? ==> r == Val(value)
      ensures Missing? ==> r == NaN
      ensures Absent? ==> r == Val(default)
    {
      match this
      case Given(x) => Val(x)
      case Missing => NaN
      case Absent => Val(default)
    }
  }

  /** A Reddit post or comment as scraped. */
  datatype RedditItem = RedditItem(content: Cell, score: Field<int>)

  /** A generated NextDoor post. */
  datatype NextdoorRecord = NextdoorRecord(content: Cell, category: Field<string>, sentiment: Field<string>, likes: Field<int>)

  /** The records of one frame share its columns: a column is absent from
      every record or from none. */
  predicate SameColumns(records: seq<NextdoorRecord>) {
    forall i, j :: 0 <= i < |records| && 0 <= j < |records| ==>
      && (records[i].category.Absent? <==> records[j].category.Absent?)
      && (records[i].sentiment.Absent? <==> records[j].sentiment.Absent?)
      && (records[i].likes.Absent? <==> records[j].likes.Absent?)
  }

  datatype Row = Row(
    content: string, category: Value<string>, sentiment: Value<string>, score: Value<int>,
    features: TextFeatures, indicators: Indicators, source: string)

  /** Rows whose content is missing or empty are skipped, and so are rows
      whose cleaned content is shorter than `minLength`. */
  predicate Kept(content: Cell, minLength: nat) {
    content.Text? && |content.s| > 0 && |CleanText(content)| >= minLength
  }

  const PostMinLength: nat := 10
  const CommentMinLength: nat := 5
  const NextdoorMinLength: nat := 10

  /** The sentiment a Reddit post's score implies. */
  function PostSentiment(score: int): (l: Label)
    ensures l == Positive <==> score > 10
    ensures l == Negative <==> score < -5
  {
    if score > 10 then Positive else if score < -5 then Negative else Neutral
  }

  /** The sentiment a Reddit comment's score implies. */
  function CommentSentiment(score: int): (l: Label)
    ensures l == Positive <==> score > 5
    ensures l == Negative <==> score < -2
  {
    if score > 5 then Positive else if score < -2 then Negative else Neutral
  }

  datatype RedditKind = PostKind | CommentKind {
    function MinLength(): nat {
      if PostKind? then PostMinLength else CommentMinLength
    }
    function Category(): string {
      if PostKind? then "reddit_post" else "reddit_comment"
    }
    function Sentiment(score: int): Label {
      if PostKind? then PostSentiment(score) else CommentSentiment(score)
    }
  }

  /** The label of a score cell: NaN fails both comparisons, so a missing
      score is neutral. */
  function ScoreSentiment(kind: RedditKind, score: Value<int>): (l: Label)
    ensures score.NaN? ==> l == Neutral
    ensures score.Val? ==> l == kind.Sentiment(score.v)
  {
    match score
    case NaN => Neutral
    case Val(x) => kind.Sentiment(x)
  }

  /** The row built from one kept content cell. */
  function Analyse(content: Cell, category: Value<string>, sentiment: Value<string>, score: Value<int>, source: string): (r: Row)
    ensures r.content == CleanText(content) && r.category == category && r.sentiment == sentiment
    ensures r.score == score && r.source == source
    ensures r.features.length == |r.content|
    ensures r.features.capsRatio == 0.0 && r.indicators.excessiveCaps == 0
  {
    var cleaned := CleanText(content);
    FeaturesOfCleanedText(content);
    CleanedTextNeverShouts(content);
    Row(cleaned, category, sentiment, score, ExtractFeatures(cleaned), DetectIndicators(cleaned), source)
  }

  /** The elements of `xs` that `keep` accepts, in order. */
  function Filter<T(!new)>(xs: seq<T>, keep: T -> bool): (r: seq<T>)
    ensures |r| <= |xs|
    ensures |r| == |xs| <==> forall i :: 0 <= i < |xs| ==> keep(xs[i])
    ensures forall k :: 0 <= k < |r| ==> keep(r[k])
    ensures forall x :: x in r <==> x in xs && keep(x)
  {
    if |xs| == 0 then []
    else
      var rest := Filter(xs[1..], keep);
      assert xs == [xs[0]] + xs[1..];
      if keep(xs[0]) then [xs[0]] + rest else rest
  }

  /** `Filter` keeps order and multiplicity: it maps a concatenation to the
      concatenation of the parts and a single element to itself or nothing. */
  lemma {:induction false} FilterDistributes<T(!new)>(xs: seq<T>, ys: seq<T>, keep: T -> bool)
    ensures Filter(xs + ys, keep) == Filter(xs, keep) + Filter(ys, keep)
  {
    if |xs| == 0 {
      assert xs + ys == ys;
    } else {
      assert (xs + ys)[0] == xs[0];
      assert (xs + ys)[1..] == xs[1..] + ys;
      FilterDistributes(xs[1..], ys, keep);
    }
  }

  lemma FilterSingle<T(!new)>(x: T, keep: T -> bool)
    ensures keep(x) ==> Filter([x], keep) == [x]
    ensures !keep(x) ==> Filter([x], keep) == []
  {
  }

  /** The items that survive the content checks, in input order. */
  function KeptItems(items: seq<RedditItem>, minLength: nat): (r: seq<RedditItem>)
    ensures |r| <= |items|
    ensures |r| == |items| <==> forall i :: 0 <= i < |items| ==> Kept(items[i].content, minLength)
    ensures forall k :: 0 <= k < |r| ==> Kept(r[k].content, minLength)
    ensures forall x :: x in r <==> x in items && Kept(x.content, minLength)
  {
    Filter(items, (x: RedditItem) => Kept(x.content, minLength))
  }

  /** The row `process_reddit_data` builds from one kept item. */
  function RedditRow(item: RedditItem, kind: RedditKind): (r: Row)
    ensures r.source == "reddit" && r.category == Val(kind.Category())
    ensures r.content == CleanText(item.content)
    ensures item.score.Given? ==> r.score == Val(item.score.value) && r.sentiment == Val(kind.Sentiment(item.score.value).Name())
    ensures item.score.Absent? ==> r.score == Val(0) && r.sentiment == Val("neutral")
    ensures item.score.Missing? ==> r.score == NaN && r.sentiment == Val("neutral")
    ensures r.indicators.excessiveCaps == 0
  {
    var score := item.score.Get(0);
    Analyse(item.content, Val(kind.Category()), Val(ScoreSentiment(kind, score).Name()), score, "reddit")
  }

  /** The Reddit loop over posts or over comments. */
  function ProcessReddit(items: seq<RedditItem>, kind: RedditKind): (rows: seq<Row>)
    ensures |rows| == |KeptItems(items, kind.MinLength())| <= |items|
    ensures forall k :: 0 <= k < |rows| ==> rows[k] == RedditRow(KeptItems(items, kind.MinLength())[k], kind)
    ensures forall k :: 0 <= k < |rows| ==> |rows[k].content| >= kind.MinLength()
  {
    var kept := KeptItems(items, kind.MinLength());
    seq(|kept|, k requires 0 <= k < |kept| => RedditRow(kept[k], kind))
  }

  /** What every row of one Reddit loop satisfies, with the thresholds
      written out. */
  predicate RedditRowShape(r: Row, category: string, minLength: nat, positiveAbove: int, negativeBelow: int) {
    && r.category == Val(category) && |r.content| >= minLength
    && (r.sentiment == Val("positive") <==> r.score.Val? && r.score.v > positiveAbove)
    && (r.sentiment == Val("negative") <==> r.score.Val? && r.score.v < negativeBelow)
  }

  lemma PostRows(posts: seq<RedditItem>)
    ensures forall k :: 0 <= k < |ProcessReddit(posts, PostKind)| ==>
      RedditRowShape(ProcessReddit(posts, PostKind)[k], "reddit_post", 10, 10, -5)
  {
    NameFacts();
  }

  lemma CommentRows(comments: seq<RedditItem>)
    ensures forall k :: 0 <= k < |ProcessReddit(comments, CommentKind)| ==>
      RedditRowShape(ProcessReddit(comments, CommentKind)[k], "reddit_comment", 5, 5, -2)
  {
    NameFacts();
  }

  /** `process_reddit_data`: the processed posts followed by the processed
      comments. */
  function ProcessRedditData(posts: seq<RedditItem>, comments: seq<RedditItem>): (rows: seq<Row>)
    ensures |rows| == |KeptItems(posts, PostKind.MinLength())| + |KeptItems(comments, CommentKind.MinLength())|
    ensures rows[..|KeptItems(posts, PostKind.MinLength())|] == ProcessReddit(posts, PostKind)
    ensures rows[|KeptItems(posts, PostKind.MinLength())|..] == ProcessReddit(comments, CommentKind)
    ensures |rows| <= |posts| + |comments|
    ensures forall k :: 0 <= k < |rows| ==>
      RedditRowShape(rows[k], "reddit_post", 10, 10, -5) || RedditRowShape(rows[k], "reddit_comment", 5, 5, -2)
  {
    var p := ProcessReddit(posts, PostKind);
    var c := ProcessReddit(comments, CommentKind);
    PostRows(posts);
    CommentRows(comments);
    ConcatEither(p, c, (r: Row) => RedditRowShape(r, "reddit_post", 10, 10, -5),
                 (r: Row) => RedditRowShape(r, "reddit_comment", 5, 5, -2));
    assert (p + c)[..|p|] == p && (p + c)[|p|..] == c;
    p + c
  }

  lemma ConcatEither<T>(p: seq<T>, c: seq<T>, inP: T -> bool, inC: T -> bool)
    requires forall k :: 0 <= k < |p| ==> inP(p[k])
    requires forall k :: 0 <= k < |c| ==> inC(c[k])
    ensures forall k :: 0 <= k < |p + c| ==> inP((p + c)[k]) || inC((p + c)[k])
  {
    assert forall k :: 0 <= k < |p| ==> (p + c)[k] == p[k];
    assert forall k :: |p| <= k < |p| + |c| ==> (p + c)[k] == c[k - |p|];
  }

  lemma NameFacts()
    ensures forall l: Label :: l.Name() == "positive" <==> l == Positive
    ensures forall l: Label :: l.Name() == "negative" <==> l == Negative
  {
    forall l: Label ensures l.Name() == "positive" <==> l == Positive {
      NamesDistinct(l, Positive);
    }
    forall l: Label ensures l.Name() == "negative" <==> l == Negative {
      NamesDistinct(l, Negative);
    }
  }

  /** The records that survive the content checks, in input order. */
  function KeptRecords(records: seq<NextdoorRecord>): (r: seq<NextdoorRecord>)
    ensures |r| <= |records|
    ensures |r| == |records| <==> forall i :: 0 <= i < |records| ==> Kept(records[i].content, NextdoorMinLength)
    ensures forall k :: 0 <= k < |r| ==> Kept(r[k].content, NextdoorMinLength)
    ensures forall x :: x in r <==> x in records && Kept(x.content, NextdoorMinLength)
  {
    Filter(records, (x: NextdoorRecord) => Kept(x.content, NextdoorMinLength))
  }

  /** The row `process_nextdoor_data` builds from one kept record: a column
      the frame lacks takes the default `general`, `neutral` or 0, while a
      missing cell in a column the frame has is carried through as NaN. */
  function NextdoorRow(rec: NextdoorRecord): (r: Row)
    ensures r.source == "nextdoor" && r.content == CleanText(rec.content)
    ensures rec.category.Given? ==> r.category == Val(rec.category.value)
    ensures rec.category.Missing? ==> r.category == NaN
    ensures rec.category.Absent? ==> r.category == Val("general")
    ensures rec.sentiment.Given? ==> r.sentiment == Val(rec.sentiment.value)
    ensures rec.sentiment.Missing? ==> r.sentiment == NaN
    ensures rec.sentiment.Absent? ==> r.sentiment == Val("neutral")
    ensures rec.likes.Given? ==> r.score == Val(rec.likes.value)
    ensures rec.likes.Missing? ==> r.score == NaN
    ensures rec.likes.Absent? ==> r.score == Val(0)
    ensures r.indicators.excessiveCaps == 0
  {
    Analyse(rec.content, rec.category.Get("general"), rec.sentiment.Get("neutral"), rec.likes.Get(0), "nextdoor")
  }

  /** `process_nextdoor_data`. */
  function ProcessNextdoor(records: seq<NextdoorRecord>): (rows: seq<Row>)
    ensures |rows| == |KeptRecords(records)| <= |records|
    ensures forall k :: 0 <= k < |rows| ==> rows[k] == NextdoorRow(KeptRecords(records)[k])
    ensures forall k :: 0 <= k < |rows| ==> |rows[k].content| >= NextdoorMinLength
  {
    var kept := KeptRecords(records);
    seq(|kept|, k requires 0 <= k < |kept| => NextdoorRow(kept[k]))
  }

  /** In a frame that has a `category` column, no processed row gets the
      default: a row shows `general` only when its record says so. */
  lemma NoDefaultCategoryWithColumn(records: seq<NextdoorRecord>, j: nat, k: nat)
    requires SameColumns(records)
    requires j < |records| && !records[j].category.Absent?
    requires k < |ProcessNextdoor(records)|
    ensures ProcessNextdoor(records)[k].category == Val("general") ==> KeptRecords(records)[k].category == Given("general")
    ensures ProcessNextdoor(records)[k].category.NaN? <==> KeptRecords(records)[k].category.Missing?
  {
    var rec := KeptRecords(records)[k];
    assert rec in records;
  }

  /** The binary `misinformation_risk` label of the training set. */
  function TrainingLabel(ind: Indicators): (flag: nat)
    ensures flag <= 1
    ensures flag == 1 <==>
      ind.urgencyWords > 2 || ind.conspiracyWords > 0 || ind.authorityChallenge > 0
      || ind.excessiveCaps > 0 || ind.exclamationOveruse > 0
  {
    if ind.urgencyWords > 2 || ind.conspiracyWords > 0 || ind.authorityChallenge > 0
       || ind.excessiveCaps > 0 || ind.exclamationOveruse > 0 then 1 else 0
  }

  datatype TrainingRow = TrainingRow(
    content: string, sentiment: Value<string>, category: Value<string>,
    indicators: Indicators, length: nat, wordCount: nat, misinformationRisk: nat)

  /** `create_training_dataset`: the selected columns plus the label. */
  function CreateTrainingDataset(rows: seq<Row>): (data: seq<TrainingRow>)
    ensures |data| == |rows|
    ensures forall k :: 0 <= k < |data| ==>
      && data[k].content == rows[k].content && data[k].sentiment == rows[k].sentiment
      && data[k].category == rows[k].category && data[k].indicators == rows[k].indicators
      && data[k].length == rows[k].features.length && data[k].wordCount == rows[k].features.wordCount
      && data[k].misinformationRisk == TrainingLabel(rows[k].indicators)
  {
    seq(|rows|, k requires 0 <= k < |rows| =>
      var r := rows[k];
      TrainingRow(r.content, r.sentiment, r.category, r.indicators, r.features.length, r.features.wordCount,
                  TrainingLabel(r.indicators)))
  }

  /** No row either loader builds has the capitals indicator set. */
  predicate NoCapsRows(rows: seq<Row>) {
    forall k :: 0 <= k < |rows| ==> rows[k].indicators.excessiveCaps == 0
  }

  lemma ProcessedRowsNoCaps(posts: seq<RedditItem>, comments: seq<RedditItem>, records: seq<NextdoorRecord>)
    ensures NoCapsRows(ProcessRedditData(posts, comments) + ProcessNextdoor(records))
  {
    var p := ProcessReddit(posts, PostKind);
    var c := ProcessReddit(comments, CommentKind);
    var n := ProcessNextdoor(records);
    assert ProcessRedditData(posts, comments) == p + c;
    assert NoCapsRows(p) && NoCapsRows(c) && NoCapsRows(n);
    NoCapsConcat(p, c);
    NoCapsConcat(p + c, n);
  }

  lemma NoCapsConcat(a: seq<Row>, b: seq<Row>)
    requires NoCapsRows(a) && NoCapsRows(b)
    ensures NoCapsRows(a + b)
  {
    assert forall k :: 0 <= k < |a| ==> (a + b)[k] == a[k];
    assert forall k :: |a| <= k < |a + b| ==> (a + b)[k] == b[k - |a|];
  }

  /** On the processed Reddit and NextDoor rows the capitals indicator never
      fires, so the label rests on the word counts and the exclamation flag
      alone. */
  lemma TrainingLabelIgnoresCaps(posts: seq<RedditItem>, comments: seq<RedditItem>, records: seq<NextdoorRecord>, k: nat)
    requires k < |ProcessRedditData(posts, comments) + ProcessNextdoor(records)|
    ensures CreateTrainingDataset(ProcessRedditData(posts, comments) + ProcessNextdoor(records))[k].misinformationRisk == 1 <==>
      var ind := (ProcessRedditData(posts, comments) + ProcessNextdoor(records))[k].indicators;
      ind.urgencyWords > 2 || ind.conspiracyWords > 0 || ind.authorityChallenge > 0 || ind.exclamationOveruse > 0
  {
    ProcessedRowsNoCaps(posts, comments, records);
  }
}
