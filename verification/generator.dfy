/** The synthetic NextDoor-style dataset (data_collection/nextdoor_generator.py):
    the four post generators, `generate_dataset` and the row normalisation of
    `save_to_csv`. Every random outcome is a parameter, so each property holds
    for every sequence of outcomes the random module could produce. */
module Generator {

  datatype Option<T> = None | Some(value: T)

  /** A value of a generated post: a string or an integer. */
  datatype Value = Str(s: string) | Int(i: int)

  /** A Python dict: its entries in insertion order. */
  type Dict = seq<(string, Value)>

  function Lookup(d: Dict, key: string): Option<Value> {
    if |d| == 0 then None else if d[0].0 == key then Some(d[0].1) else Lookup(d[1..], key)
  }

  /** The value stored under the first entry for `key`. */
  lemma {:induction false} LookupAt(d: Dict, key: string, k: nat)
    requires k < |d| && d[k].0 == key
    requires forall i :: 0 <= i < k ==> d[i].0 != key
    ensures Lookup(d, key) == Some(d[k].1)
  {
    if k > 0 {
      LookupAt(d[1..], key, k - 1);
    }
  }

  /** A key no entry carries is absent. */
  lemma {:induction false} LookupMissing(d: Dict, key: string)
    requires forall i :: 0 <= i < |d| ==> d[i].0 != key
    ensures Lookup(d, key) == None
  {
    if |d| > 0 {
      LookupMissing(d[1..], key);
    }
  }

  function Keys(d: Dict): (ks: seq<string>)
    ensures |ks| == |d|
    ensures forall i :: 0 <= i < |d| ==> ks[i] == d[i].0
  {
    seq(|d|, i requires 0 <= i < |d| => d[i].0)
  }

  // ---- Random choices ----------------------------------------------------

  /** `random.choice(xs)` for the outcome `d`. */
  function Choice<T>(xs: seq<T>, d: nat): (x: T)
    requires |xs| > 0
    ensures x in xs
  {
    xs[d % |xs|]
  }

  /** Every element of `xs` is the choice for some outcome. */
  lemma ChoiceReachesAll<T>(xs: seq<T>, k: nat)
    requires k < |xs|
    ensures Choice(xs, k) == xs[k]
  {
  }

  /** `random.randint(lo, hi)` for the outcome `d`: a value in [lo, hi]. */
  function RandInt(lo: int, hi: int, d: nat): (v: int)
    requires lo <= hi
    ensures lo <= v <= hi
  {
    lo + d % (hi - lo + 1)
  }

  /** Every value in [lo, hi] is the outcome of some draw. */
  lemma RandIntReachesAll(lo: int, hi: int, v: int)
    requires lo <= v <= hi
    ensures RandInt(lo, hi, (v - lo) as nat) == v
  {
  }

  /** The outcomes one generator call consumes: template and topic choices,
      up to three `random.random()` rolls for the appended sentences, the
      author and category choices, the two `randint` draws, and the generated
      timestamp (taken as given). */
  datatype Draw = Draw(
    template: nat, topic: nat, roll1: real, roll2: real, roll3: real,
    author: nat, category: nat, likes: nat, comments: nat, timestamp: string)

  // ---- Text material ------------------------------------------------------

  /** A `str.format` template with one `{topic}` slot: the text before and
      after it. */
  type Template = (string, string)

  function Fill(t: Template, topic: string): string {
    t.0 + topic + t.1
  }

  const PositiveTemplates: seq<Template> := [
    ("I just wanted to share how wonderful ", " has been!"),
    ("Thank you to everyone who helped with ", "!"),
    ("What a great community we have! ", ""),
    ("I'm so grateful for ", " in our neighborhood."),
    ("Kudos to ", " - you're making our community better!"),
    ("I love how our neighborhood ", "!"),
    ("This is why I love living here - ", "!"),
    ("Amazing work on ", " - thank you!"),
    ("Our community is the best because of ", "!"),
    ("I'm so happy about ", " - great job everyone!")
  ]

  const NegativeTemplates: seq<Template> := [
    ("I'm really frustrated with ", "."),
    ("Can we please address ", "?"),
    ("This is getting out of hand - ", "."),
    ("I'm concerned about ", " in our neighborhood."),
    ("Something needs to be done about ", "."),
    ("I'm tired of dealing with ", "."),
    ("This ", " situation is unacceptable."),
    ("Why is ", " still happening?"),
    ("I'm disappointed with ", "."),
    ("This ", " is affecting our quality of life.")
  ]

  const NeutralTemplates: seq<Template> := [
    ("Has anyone noticed ", "?"),
    ("I'm wondering about ", "."),
    ("What do you think about ", "?"),
    ("I noticed ", " - any thoughts?"),
    ("Can someone help me understand ", "?"),
    ("I'm curious about ", "."),
    ("Does anyone know about ", "?"),
    ("I'm looking for information on ", "."),
    ("What's the deal with ", "?"),
    ("I'm trying to figure out ", ".")
  ]

  const MisinformationTemplates: seq<Template> := [
    ("URGENT: ", " - they don't want you to know this!"),
    ("BREAKING: ", " - this is a cover-up!"),
    ("WARNING: ", " - the government is hiding something!"),
    ("ALERT: ", " - this is a conspiracy!"),
    ("EMERGENCY: ", " - they're lying to us!"),
    ("CRITICAL: ", " - wake up people!"),
    ("IMPORTANT: ", " - don't believe the mainstream media!"),
    ("ATTENTION: ", " - this is the truth they don't want you to hear!"),
    ("NOTICE: ", " - this is what's really happening!"),
    ("ALERT: ", " - the authorities are covering this up!")
  ]

  const PositiveTopics: seq<string> := [
    "the new community garden", "the neighborhood cleanup day", "the holiday decorations",
    "the local farmers market", "the community pool", "the walking trails",
    "the neighborhood watch program", "the local events", "the community center",
    "the playground improvements", "the street lighting", "the recycling program",
    "the local businesses", "the community newsletter", "the neighborhood association"
  ]

  const NegativeTopics: seq<string> := [
    "the noise from construction", "the parking situation", "the garbage collection schedule",
    "the street maintenance", "the neighbor disputes", "the security concerns",
    "the maintenance issues", "the noise complaints", "the property damage",
    "the safety hazards", "the communication problems", "the rule violations",
    "the late night disturbances", "the property maintenance", "the community conflicts"
  ]

  const NeutralTopics: seq<string> := [
    "the new development plans", "the upcoming elections", "the zoning changes",
    "the traffic patterns", "the school district updates", "the utility work",
    "the weather alerts", "the local news", "the community meetings",
    "the neighborhood changes", "the city policies", "the local events",
    "the community guidelines", "the emergency procedures", "the neighborhood history"
  ]

  const MisinformationTopics: seq<string> := [
    "the water quality in our area", "the new development plans", "the local government decisions",
    "the utility company policies", "the school district changes", "the police department actions",
    "the city council meetings", "the environmental regulations", "the property tax increases",
    "the community association rules"
  ]

  const Authors: seq<string> := [
    "Sarah M.", "John D.", "Maria L.", "David K.", "Lisa R.",
    "Mike T.", "Emma W.", "Alex P.", "Rachel S.", "Tom B.",
    "Jennifer H.", "Robert C.", "Amanda F.", "Michael S.",
    "Jessica L.", "Christopher M.", "Nicole R.", "Daniel P.",
    "Ashley T.", "Kevin B.", "Michelle J.", "Steven L.",
    "Patricia K.", "James W.", "Linda H.", "William R.",
    "Barbara M.", "Richard D.", "Elizabeth S.", "Joseph C."
  ]

  const PositiveCategories: seq<string> := ["general", "events", "recommendations", "local-news"]
  const NegativeCategories: seq<string> := ["crime-safety", "noise-complaints", "general", "neighborhood-watch"]
  const NeutralCategories: seq<string> := ["general", "local-news", "events", "classifieds"]
  const MisinformationCategories: seq<string> := ["crime-safety", "local-news", "general", "neighborhood-watch"]

  /** `text`, followed by `extra` when the roll falls below `chance`. */
  function AppendIf(text: string, roll: real, chance: real, extra: string): (r: string)
    ensures text <= r
  {
    if roll < chance then text + extra else text
  }

  // ---- Posts --------------------------------------------------------------

  /** The keys every generated post has, in insertion order. */
  const StandardKeys: seq<string> := ["content", "author", "category", "sentiment", "timestamp", "likes", "comments"]

  /** The dict literal the generators return. */
  function Record(content: string, author: string, category: string, sentiment: string,
                  timestamp: string, likes: int, comments: int): (d: Dict)
    ensures Keys(d) == StandardKeys
    ensures Lookup(d, "content") == Some(Str(content))
    ensures Lookup(d, "author") == Some(Str(author))
    ensures Lookup(d, "category") == Some(Str(category))
    ensures Lookup(d, "sentiment") == Some(Str(sentiment))
    ensures Lookup(d, "timestamp") == Some(Str(timestamp))
    ensures Lookup(d, "likes") == Some(Int(likes))
    ensures Lookup(d, "comments") == Some(Int(comments))
    ensures Lookup(d, "misinformation_risk") == None
  {
    var d := [("content", Str(content)), ("author", Str(author)), ("category", Str(category)),
              ("sentiment", Str(sentiment)), ("timestamp", Str(timestamp)),
              ("likes", Int(likes)), ("comments", Int(comments))];
    LookupAt(d, "content", 0);
    LookupAt(d, "author", 1);
    LookupAt(d, "category", 2);
    LookupAt(d, "sentiment", 3);
    LookupAt(d, "timestamp", 4);
    LookupAt(d, "likes", 5);
    LookupAt(d, "comments", 6);
    LookupMissing(d, "misinformation_risk");
    d
  }

  predicate IntWithin(v: Option<Value>, lo: int, hi: int) {
    v.Some? && v.value.Int? && lo <= v.value.i <= hi
  }

  predicate StrAmong(v: Option<Value>, xs: seq<string>) {
    v.Some? && v.value.Str? && v.value.s in xs
  }

  /** What a generator promises of its post: the standard keys, the label,
      a category from its list and likes and comments within its bounds. */
  predicate Shaped(post: Dict, sentiment: string, categories: seq<string>,
                   likesLo: int, likesHi: int, commentsLo: int, commentsHi: int) {
    && |post| >= 7 && Keys(post)[..7] == StandardKeys
    && Lookup(post, "sentiment") == Some(Str(sentiment))
    && StrAmong(Lookup(post, "category"), categories)
    && IntWithin(Lookup(post, "likes"), likesLo, likesHi)
    && IntWithin(Lookup(post, "comments"), commentsLo, commentsHi)
  }

  /** The text part of a post: a filled template, possibly followed by
      the sentences the rolls appended. */
  predicate ContentStartsWith(post: Dict, prefix: string) {
    var c := Lookup(post, "content");
    c.Some? && c.value.Str? && prefix <= c.value.s
  }

  /** `generate_positive_post`. */
  function PositivePost(d: Draw): (post: Dict)
    ensures Shaped(post, "positive", PositiveCategories, 5, 50, 0, 15)
    ensures Keys(post) == StandardKeys
    ensures Lookup(post, "misinformation_risk") == None
    ensures ContentStartsWith(post, Fill(Choice(PositiveTemplates, d.template), Choice(PositiveTopics, d.topic)))
  {
    var base := Fill(Choice(PositiveTemplates, d.template), Choice(PositiveTopics, d.topic));
    var content := AppendIf(AppendIf(base, d.roll1, 0.3, " It's been such a positive experience for everyone involved."),
                            d.roll2, 0.2, " I hope we can continue this great work!");
    var post := Record(content, Choice(Authors, d.author), Choice(PositiveCategories, d.category), "positive",
                       d.timestamp, RandInt(5, 50, d.likes), RandInt(0, 15, d.comments));
    assert Keys(post)[..7] == Keys(post);
    post
  }

  /** `generate_negative_post`. */
  function NegativePost(d: Draw): (post: Dict)
    ensures Shaped(post, "negative", NegativeCategories, 0, 20, 0, 25)
    ensures Keys(post) == StandardKeys
    ensures Lookup(post, "misinformation_risk") == None
    ensures ContentStartsWith(post, Fill(Choice(NegativeTemplates, d.template), Choice(NegativeTopics, d.topic)))
  {
    var base := Fill(Choice(NegativeTemplates, d.template), Choice(NegativeTopics, d.topic));
    var content := AppendIf(AppendIf(AppendIf(base, d.roll1, 0.4, " This has been going on for too long."),
                                     d.roll2, 0.3, " Can we please find a solution?"),
                            d.roll3, 0.2, " I'm at my wit's end with this.");
    var post := Record(content, Choice(Authors, d.author), Choice(NegativeCategories, d.category), "negative",
                       d.timestamp, RandInt(0, 20, d.likes), RandInt(0, 25, d.comments));
    assert Keys(post)[..7] == Keys(post);
    post
  }

  /** `generate_neutral_post`. */
  function NeutralPost(d: Draw): (post: Dict)
    ensures Shaped(post, "neutral", NeutralCategories, 0, 15, 0, 10)
    ensures Keys(post) == StandardKeys
    ensures Lookup(post, "misinformation_risk") == None
    ensures ContentStartsWith(post, Fill(Choice(NeutralTemplates, d.template), Choice(NeutralTopics, d.topic)))
  {
    var base := Fill(Choice(NeutralTemplates, d.template), Choice(NeutralTopics, d.topic));
    var content := AppendIf(AppendIf(base, d.roll1, 0.3, " Any information would be helpful."),
                            d.roll2, 0.2, " Thanks in advance!");
    var post := Record(content, Choice(Authors, d.author), Choice(NeutralCategories, d.category), "neutral",
                       d.timestamp, RandInt(0, 15, d.likes), RandInt(0, 10, d.comments));
    assert Keys(post)[..7] == Keys(post);
    post
  }

  /** An entry appended after the existing keys leaves their values alone. */
  lemma {:induction false} LookupAppend(d: Dict, e: Dict, key: string)
    requires Lookup(d, key).Some?
    ensures Lookup(d + e, key) == Lookup(d, key)
  {
    if d[0].0 != key {
      assert (d + e)[1..] == d[1..] + e;
      LookupAppend(d[1..], e, key);
    }
  }

  /** `generate_misinformation_post`: labelled negative and carrying the
      extra `misinformation_risk: high` entry. */
  function MisinformationPost(d: Draw): (post: Dict)
    ensures Shaped(post, "negative", MisinformationCategories, 0, 10, 0, 30)
    ensures Keys(post) == StandardKeys + ["misinformation_risk"]
    ensures Lookup(post, "misinformation_risk") == Some(Str("high"))
    ensures ContentStartsWith(post, Fill(Choice(MisinformationTemplates, d.template), Choice(MisinformationTopics, d.topic)))
  {
    var base := Fill(Choice(MisinformationTemplates, d.template), Choice(MisinformationTopics, d.topic));
    var content := AppendIf(AppendIf(AppendIf(base, d.roll1, 0.5, " Do your own research! Don't trust what they tell you!"),
                                     d.roll2, 0.3, " This is just the beginning of what they're hiding!"),
                            d.roll3, 0.4, " Share this with everyone you know!");
    var record := Record(content, Choice(Authors, d.author), Choice(MisinformationCategories, d.category), "negative",
                         d.timestamp, RandInt(0, 10, d.likes), RandInt(0, 30, d.comments));
    var post := record + [("misinformation_risk", Str("high"))];
    LookupAppend(record, [("misinformation_risk", Str("high"))], "content");
    LookupAppend(record, [("misinformation_risk", Str("high"))], "category");
    LookupAppend(record, [("misinformation_risk", Str("high"))], "sentiment");
    LookupAppend(record, [("misinformation_risk", Str("high"))], "likes");
    LookupAppend(record, [("misinformation_risk", Str("high"))], "comments");
    LookupAt(post, "misinformation_risk", 7);
    assert Keys(post)[..7] == Keys(record);
    post
  }
}
