/** Text features and misinformation indicators of the preprocessing pipeline
    (data_collection/data_processor.py, `extract_features` and
    `detect_misinformation_indicators`). */
module Features {
  import opened Chars
  import opened Labels
  import opened TextCleaning

  predicate NotSpace(c: char) {
    !IsSpace(c)
  }

  /** `str.split()`: the maximal runs of non-whitespace characters. */
  function Words(s: string): (ws: seq<string>)
    ensures forall k :: 0 <= k < |ws| ==> |ws[k]| > 0
    ensures forall k, i :: 0 <= k < |ws| && 0 <= i < |ws[k]| ==> !IsSpace(ws[k][i])
    ensures |ws| <= CountNonSpace(s) <= |s|
    ensures |ws| == 0 <==> CountNonSpace(s) == 0
    decreases |s|
  {
    if |s| == 0 then []
    else if IsSpace(s[0]) then Words(s[1..])
    else
      var n := RunLength(s, NotSpace);
      var rest := Words(s[n..]);
      CountNonSpaceSplit(s, n);
      [s[..n]] + rest
  }

  /** Counting non-whitespace over a split point. */
  lemma {:induction false} CountNonSpaceSplit(s: string, n: nat)
    requires n <= |s|
    requires forall i :: 0 <= i < n ==> !IsSpace(s[i])
    ensures CountNonSpace(s) == n + CountNonSpace(s[n..])
    ensures CountNonSpace(s[n..]) <= |s| - n
  {
    if n > 0 {
      CountNonSpaceSplit(s[1..], n - 1);
      assert s[1..][n - 1..] == s[n..];
    } else {
      CountNonSpaceBounded(s);
    }
  }

  lemma {:induction false} CountNonSpaceBounded(s: string)
    ensures CountNonSpace(s) <= |s|
  {
    if |s| > 0 {
      CountNonSpaceBounded(s[1..]);
    }
  }

  /** One step of the split. */
  lemma WordsStep(s: string)
    requires |s| > 0
    ensures IsSpace(s[0]) ==> Words(s) == Words(s[1..])
    ensures !IsSpace(s[0]) ==>
      var n := RunLength(s, NotSpace);
      Words(s) == [s[..n]] + Words(s[n..])
  {
  }

  /** Whitespace alone holds no word. */
  lemma {:induction false} WordsOfSpaces(s: string)
    requires AllSpace(s)
    ensures Words(s) == []
    decreases |s|
  {
    if |s| > 0 {
      WordsStep(s);
      WordsOfSpaces(s[1..]);
    }
  }

  /** A run of non-whitespace is one word. */
  lemma WordsOfWord(w: string)
    requires |w| > 0 && forall i :: 0 <= i < |w| ==> !IsSpace(w[i])
    ensures Words(w) == [w]
  {
    WordsStep(w);
    RunLengthAppend(w, "", NotSpace);
    assert w + "" == w;
    assert w[..|w|] == w && w[|w|..] == "";
  }

  lemma WordsSplitSpaceHead(a: string, b: string)
    requires |a| > 0 && IsSpace(a[0])
    requires Words(a[1..] + b) == Words(a[1..]) + Words(b)
    ensures Words(a + b) == Words(a) + Words(b)
  {
    assert (a + b)[0] == a[0];
    DropOfAppend(a, b, 1);
    WordsStep(a + b);
    WordsStep(a);
  }

  lemma WordsSplitWordHead(a: string, b: string)
    requires |a| > 0 && |b| > 0 && !IsSpace(a[0]) && (IsSpace(a[|a| - 1]) || IsSpace(b[0]))
    requires RunLength(a, NotSpace) < |a| ==>
      var m := RunLength(a, NotSpace);
      Words(a[m..] + b) == Words(a[m..]) + Words(b)
    ensures Words(a + b) == Words(a) + Words(b)
  {
    var s := a + b;
    assert s[0] == a[0];
    var m := RunLength(a, NotSpace);
    RunLengthAppend(a, b, NotSpace);
    TakeOfAppend(a, b, m);
    DropOfAppend(a, b, m);
    WordsStep(s);
    WordsStep(a);
    var w, x, y := [a[..m]], Words(a[m..]), Words(b);
    if m == |a| {
      assert RunLength(b, NotSpace) == 0;
      assert a[m..] == "";
      assert s[m..] == b;
      assert x == [];
      assert Words(s) == w + y;
      assert Words(a) == w + [] == w;
      assert Words(s) == Words(a) + y;
    } else {
      assert Words(s) == w + (x + y);
      assert Words(a) == w + x;
      AppendAssoc(w, x, y);
      assert Words(s) == Words(a) + y;
    }
    assert Words(s) == Words(a) + Words(b);
  }

  /** Splitting at whitespace commutes with `split()`; with `WordsOfSpaces`
      and `WordsOfWord` this determines the word list of every text. */
  lemma {:induction false} WordsSplit(a: string, b: string)
    requires |a| == 0 || |b| == 0 || IsSpace(a[|a| - 1]) || IsSpace(b[0])
    ensures Words(a + b) == Words(a) + Words(b)
    decreases |a|
  {
    if |a| == 0 {
      assert a + b == b;
    } else if |b| == 0 {
      assert a + b == a;
    } else if IsSpace(a[0]) {
      WordsSplit(a[1..], b);
      WordsSplitSpaceHead(a, b);
    } else {
      var m := RunLength(a, NotSpace);
      if m < |a| {
        WordsSplit(a[m..], b);
      }
      WordsSplitWordHead(a, b);
    }
  }

  /** A word has nothing to collapse. */
  lemma NoSpaceCollapse(w: string)
    requires forall i :: 0 <= i < |w| ==> !IsSpace(w[i])
    ensures CollapseSpaces(w) == w
  {
    CollapseKeepsSingleSpaced(w);
  }

  /** Collapsing keeps a leading word and collapses what follows it. */
  lemma CollapseWordPrefix(s: string)
    requires |s| > 0 && !IsSpace(s[0])
    ensures CollapseSpaces(s) == s[..RunLength(s, NotSpace)] + CollapseSpaces(s[RunLength(s, NotSpace)..])
  {
    var n := RunLength(s, NotSpace);
    var w, t := s[..n], s[n..];
    TakeDrop(s, n);
    assert forall i :: 0 <= i < |w| ==> w[i] == s[i];
    NoSpaceCollapse(w);
    if n < |s| {
      CollapseSplit(w, t);
    } else {
      assert t == "" && w == s;
      assert CollapseSpaces(t) == "";
      assert w + "" == w;
    }
    assert CollapseSpaces(s) == w + CollapseSpaces(t);
  }

  lemma RejoinSpaceHead(s: string)
    requires |s| > 0 && IsSpace(s[0])
    requires JoinFrom(Words(s[1..]), 0) == Strip(CollapseSpaces(s[1..]))
    ensures JoinFrom(Words(s), 0) == Strip(CollapseSpaces(s))
  {
    WordsStep(s);
    CollapseStep(s);
    var m := RunLength(s, IsSpace);
    if m == 1 {
      assert s[1..] == s[m..];
      StripSpaceCons(' ', CollapseSpaces(s[1..]));
    } else {
      var t := s[1..];
      assert IsSpace(t[0]);
      assert RunLength(t, IsSpace) == m - 1;
      assert t[m - 1..] == s[m..];
      CollapseStep(t);
    }
  }

  /** The last word: what follows it is whitespace, which stripping drops. */
  lemma RejoinLastWord(w: string, t: string)
    requires |w| > 0 && !IsSpace(w[0]) && !IsSpace(w[|w| - 1]) && Words(t) == []
    ensures Strip(w + CollapseSpaces(t)) == w
  {
    AllSpaceIffNoNonSpace(t);
    if |t| > 0 {
      CollapseRun(t);
    } else {
      assert CollapseSpaces(t) == "";
    }
    StripTrailing(w, CollapseSpaces(t));
  }

  /** A word followed by whitespace and more words: the whitespace becomes
      the one separating space. */
  lemma RejoinMoreWords(w: string, t: string)
    requires |w| > 0 && !IsSpace(w[0]) && |t| > 0 && IsSpace(t[0]) && |Words(t)| > 0
    ensures Strip(w + CollapseSpaces(t)) == w + " " + Strip(CollapseSpaces(t))
  {
    AllSpaceIffNoNonSpace(t);
    var m := RunLength(t, IsSpace);
    assert m < |t|;
    CollapseStep(t);
    var y := CollapseSpaces(t[m..]);
    assert |y| > 0 && !IsSpace(y[0]);
    StripSpaceCons(' ', y);
    AppendAssoc(w, " ", y);
    StripKeepsPrefix(w + " ", y);
  }

  /** `s` split after its leading word `w`, with the rest `t`. */
  lemma LeadingWord(s: string, w: string, t: string)
    requires |s| > 0 && !IsSpace(s[0])
    requires w == s[..RunLength(s, NotSpace)] && t == s[RunLength(s, NotSpace)..]
    ensures |w| > 0 && !IsSpace(w[0]) && !IsSpace(w[|w| - 1])
    ensures |t| > 0 ==> IsSpace(t[0])
    ensures Words(s) == [w] + Words(t)
    ensures CollapseSpaces(s) == w + CollapseSpaces(t)
  {
    var n := RunLength(s, NotSpace);
    WordsStep(s);
    CollapseWordPrefix(s);
    assert w[0] == s[0] && w[|w| - 1] == s[n - 1];
    assert |t| > 0 ==> t[0] == s[n];
  }

  lemma RejoinOnlyWord(s: string)
    requires |s| > 0 && !IsSpace(s[0]) && Words(s[RunLength(s, NotSpace)..]) == []
    ensures JoinFrom(Words(s), 0) == Strip(CollapseSpaces(s))
  {
    var n := RunLength(s, NotSpace);
    var w, t := s[..n], s[n..];
    LeadingWord(s, w, t);
    assert Words(s) == [w];
    RejoinLastWord(w, t);
  }

  lemma RejoinFirstWord(s: string)
    requires |s| > 0 && !IsSpace(s[0])
    requires
      var n := RunLength(s, NotSpace);
      |Words(s[n..])| > 0 && JoinFrom(Words(s[n..]), 0) == Strip(CollapseSpaces(s[n..]))
    ensures JoinFrom(Words(s), 0) == Strip(CollapseSpaces(s))
  {
    var n := RunLength(s, NotSpace);
    var w, t := s[..n], s[n..];
    var ws := [w] + Words(t);
    LeadingWord(s, w, t);
    assert ws[1..] == Words(t);
    JoinShift(ws, 1);
    RejoinMoreWords(w, t);
  }

  lemma RejoinWordHead(s: string)
    requires |s| > 0 && !IsSpace(s[0])
    requires
      var n := RunLength(s, NotSpace);
      JoinFrom(Words(s[n..]), 0) == Strip(CollapseSpaces(s[n..]))
    ensures JoinFrom(Words(s), 0) == Strip(CollapseSpaces(s))
  {
    if |Words(s[RunLength(s, NotSpace)..])| == 0 {
      RejoinOnlyWord(s);
    } else {
      RejoinFirstWord(s);
    }
  }

  /** `' '.join(s.split())` is the text with whitespace runs collapsed and
      the ends stripped: the word list loses nothing but spacing. */
  lemma {:induction false} WordsRejoined(s: string)
    ensures JoinFrom(Words(s), 0) == Strip(CollapseSpaces(s))
    decreases |s|
  {
    if |s| == 0 {
      assert Strip("") == "";
    } else if IsSpace(s[0]) {
      WordsRejoined(s[1..]);
      RejoinSpaceHead(s);
    } else {
      WordsRejoined(s[RunLength(s, NotSpace)..]);
      RejoinWordHead(s);
    }
  }

  function TotalLength(ws: seq<string>): nat {
    if |ws| == 0 then 0 else |ws[0]| + TotalLength(ws[1..])
  }

  /** The words hold exactly the non-whitespace characters. */
  lemma {:induction false} WordsCoverNonSpace(s: string)
    ensures TotalLength(Words(s)) == CountNonSpace(s)
    decreases |s|
  {
    if |s| > 0 {
      if IsSpace(s[0]) {
        WordsCoverNonSpace(s[1..]);
      } else {
        var n := RunLength(s, NotSpace);
        WordsCoverNonSpace(s[n..]);
        CountNonSpaceSplit(s, n);
        var ws := Words(s);
        assert ws[1..] == Words(s[n..]);
      }
    }
  }

  datatype TextFeatures = TextFeatures(
    length: nat, wordCount: nat, avgWordLength: real,
    exclamationCount: nat, questionCount: nat, capsRatio: real, digitCount: nat,
    urlCount: nat, mentionCount: nat, hashtagCount: nat)

  /** `caps_ratio`: the share of upper-case characters, 0 for empty text. */
  function CapsRatio(text: string): (r: real)
    ensures 0.0 <= r <= 1.0
    ensures r == 0.0 <==> CountUpper(text) == 0
    ensures r > 0.3 <==> 10 * CountUpper(text) > 3 * |text|
  {
    CountUpperBounded(text);
    if |text| == 0 then 0.0
    else
      var u := CountUpper(text) as real;
      var n := |text| as real;
      RatioAbove(u, n, 0.3);
      RatioAbove(u, n, 1.0);
      RatioAbove(u, n, 0.0);
      assert u / n <= 1.0;
      u / n
  }

  /** A mean of values each at least 1 whose total is at most `bound`. */
  lemma MeanBounds(total: real, count: real, bound: real)
    requires 1.0 <= count <= total <= bound
    ensures 1.0 <= total / count <= bound
  {
    var q := total / count;
    assert q * count == total;
    if q < 1.0 {
      ProductPositive(1.0 - q, count);
    }
    if q > bound {
      ProductPositive(q - bound, count);
    }
  }

  /** `avg_word_length`: mean length of the words, 0 without words. */
  function AverageWordLength(text: string): (avg: real)
    ensures |Words(text)| == 0 ==> avg == 0.0
    ensures |Words(text)| > 0 ==> 1.0 <= avg <= |text| as real
  {
    var ws := Words(text);
    if |ws| == 0 then 0.0
    else
      WordsCoverNonSpace(text);
      var total := TotalLength(ws) as real;
      var count := |ws| as real;
      MeanBounds(total, count, |text| as real);
      total / count
  }

  /** `extract_features`. */
  function ExtractFeatures(text: string): (f: TextFeatures)
    ensures f.length == |text|
    ensures f.wordCount == |Words(text)| && f.avgWordLength == AverageWordLength(text)
    ensures f.exclamationCount == CountChar(text, '!') && f.questionCount == CountChar(text, '?')
    ensures f.capsRatio == CapsRatio(text) && f.digitCount == CountDigits(text)
    ensures f.urlCount == UrlCount(text)
    ensures f.mentionCount == TagCount(text, '@') && f.hashtagCount == TagCount(text, '#')
    ensures f.wordCount <= f.length
    ensures f.wordCount == 0 <==> forall i :: 0 <= i < |text| ==> IsSpace(text[i])
    ensures f.exclamationCount + f.questionCount + f.digitCount <= f.length
    ensures 0.0 <= f.capsRatio <= 1.0 && (f.length == 0 ==> f.capsRatio == 0.0)
    ensures 8 * f.urlCount <= f.length && 2 * f.mentionCount <= f.length && 2 * f.hashtagCount <= f.length
    ensures f.urlCount == 0 <==> NoUrl(text)
    ensures f.mentionCount == 0 <==> NoTag(text, '@')
    ensures f.hashtagCount == 0 <==> NoTag(text, '#')
  {
    PunctuationAndDigitsBounded(text);
    UrlCountZero(text);
    AllSpaceIffNoNonSpace(text);
    TextFeatures(
      |text|, |Words(text)|, AverageWordLength(text),
      CountChar(text, '!'), CountChar(text, '?'), CapsRatio(text), CountDigits(text),
      UrlCount(text), TagCount(text, '@'), TagCount(text, '#'))
  }

  lemma {:induction false} AllSpaceIffNoNonSpace(s: string)
    ensures CountNonSpace(s) == 0 <==> forall i :: 0 <= i < |s| ==> IsSpace(s[i])
  {
    if |s| > 0 {
      AllSpaceIffNoNonSpace(s[1..]);
      assert forall i :: 1 <= i < |s| ==> s[i] == s[1..][i - 1];
    }
  }

  /** Cleaned text has no upper case, mentions or hashtags left to count. */
  lemma FeaturesOfCleanedText(cell: Cell)
    ensures ExtractFeatures(CleanText(cell)).capsRatio == 0.0
    ensures ExtractFeatures(CleanText(cell)).mentionCount == 0
    ensures ExtractFeatures(CleanText(cell)).hashtagCount == 0
  {
    CountUpperBounded(CleanText(cell));
  }

  const UrgencyWords: seq<string> := ["urgent", "emergency", "breaking", "critical", "immediate", "now", "quick"]
  const ConspiracyWords: seq<string> := ["conspiracy", "cover-up", "hidden", "secret", "they don't want you to know", "wake up"]
  const AuthorityWords: seq<string> := ["government", "authorities", "mainstream media", "official", "establishment"]

  datatype Indicators = Indicators(
    urgencyWords: nat, conspiracyWords: nat, authorityChallenge: nat,
    excessiveCaps: nat, exclamationOveruse: nat)

  /** `exclamation_overuse`: more than 5% of the characters are '!'. */
  function ExclamationOveruse(text: string): (flag: nat)
    ensures flag <= 1
    ensures flag == 1 <==> 20 * CountChar(text, '!') > |text|
  {
    if |text| == 0 then 0
    else
      var e := CountChar(text, '!') as real;
      var n := |text| as real;
      RatioAbove(e, n, 0.05);
      if e / n > 0.05 then 1 else 0
  }

  /** `excessive_caps`: more than 30% of the characters are upper case. */
  function ExcessiveCaps(text: string): (flag: nat)
    ensures flag <= 1
    ensures flag == 1 <==> 10 * CountUpper(text) > 3 * |text|
  {
    if |text| > 0 && CapsRatio(text) > 0.3 then 1 else 0
  }

  /** `detect_misinformation_indicators`: occurrences of each word list in
      the lower-cased text, summed over the list, and the two ratio flags. */
  function DetectIndicators(text: string): (ind: Indicators)
    ensures ind.urgencyWords == 0 <==> forall k :: 0 <= k < |UrgencyWords| ==> !Contains(Lower(text), UrgencyWords[k])
    ensures ind.conspiracyWords == 0 <==> forall k :: 0 <= k < |ConspiracyWords| ==> !Contains(Lower(text), ConspiracyWords[k])
    ensures ind.authorityChallenge == 0 <==> forall k :: 0 <= k < |AuthorityWords| ==> !Contains(Lower(text), AuthorityWords[k])
    ensures ind.excessiveCaps == ExcessiveCaps(text) && ind.exclamationOveruse == ExclamationOveruse(text)
  {
    Indicators(
      CountAll(Lower(text), UrgencyWords),
      CountAll(Lower(text), ConspiracyWords),
      CountAll(Lower(text), AuthorityWords),
      ExcessiveCaps(text),
      ExclamationOveruse(text))
  }

  /** No indicator word can overlap a second occurrence of itself. */
  lemma UrgencyWordsBorderless()
    ensures AllBorderless(UrgencyWords)
  {
    BorderlessCheck("urgent");
    BorderlessCheck("emergency");
    BorderlessCheck("breaking");
    BorderlessCheck("critical");
    BorderlessCheck("immediate");
    BorderlessCheck("now");
    BorderlessCheck("quick");
  }

  lemma PhraseBorderless()
    ensures Borderless("they don't want you to know")
  {
    assert BorderlessFrom("they don't want you to know", 1) by {
      assert BorderlessFrom("they don't want you to know", 26);
      assert BorderlessFrom("they don't want you to know", 24);
      assert BorderlessFrom("they don't want you to know", 22);
      assert BorderlessFrom("they don't want you to know", 20);
      assert BorderlessFrom("they don't want you to know", 18);
      assert BorderlessFrom("they don't want you to know", 16);
      assert BorderlessFrom("they don't want you to know", 14);
      assert BorderlessFrom("they don't want you to know", 12);
      assert BorderlessFrom("they don't want you to know", 10);
      assert BorderlessFrom("they don't want you to know", 8);
      assert BorderlessFrom("they don't want you to know", 6);
      assert BorderlessFrom("they don't want you to know", 4);
      assert BorderlessFrom("they don't want you to know", 2);
    }
    BorderlessCheck("they don't want you to know");
  }

  lemma ConspiracyWordsBorderless()
    ensures AllBorderless(ConspiracyWords)
  {
    assert BorderlessFrom("conspiracy", 1) by {
      assert BorderlessFrom("conspiracy", 8);
      assert BorderlessFrom("conspiracy", 4);
    }
    BorderlessCheck("conspiracy");
    BorderlessCheck("cover-up");
    BorderlessCheck("hidden");
    BorderlessCheck("secret");
    PhraseBorderless();
    BorderlessCheck("wake up");
  }

  lemma LongAuthorityWordsBorderless()
    ensures Borderless("mainstream media") && Borderless("establishment")
  {
    assert BorderlessFrom("mainstream media", 1) by {
      assert BorderlessFrom("mainstream media", 12);
      assert BorderlessFrom("mainstream media", 8);
      assert BorderlessFrom("mainstream media", 4);
    }
    BorderlessCheck("mainstream media");
    assert BorderlessFrom("establishment", 1) by {
      assert BorderlessFrom("establishment", 12);
      assert BorderlessFrom("establishment", 8);
      assert BorderlessFrom("establishment", 4);
    }
    BorderlessCheck("establishment");
  }

  lemma AuthorityWordsBorderless()
    ensures AllBorderless(AuthorityWords)
  {
    assert BorderlessFrom("government", 1) by {
      assert BorderlessFrom("government", 8);
      assert BorderlessFrom("government", 4);
    }
    BorderlessCheck("government");
    assert BorderlessFrom("authorities", 1) by {
      assert BorderlessFrom("authorities", 8);
      assert BorderlessFrom("authorities", 4);
    }
    BorderlessCheck("authorities");
    LongAuthorityWordsBorderless();
    BorderlessCheck("official");
  }

  /** Each word count is the number of (position, word) pairs at which a
      list word starts in the lower-cased text: the figure the training
      label compares with 2. */
  lemma IndicatorCounts(text: string)
    ensures DetectIndicators(text).urgencyWords == PositionTotal(Lower(text), UrgencyWords)
    ensures DetectIndicators(text).conspiracyWords == PositionTotal(Lower(text), ConspiracyWords)
    ensures DetectIndicators(text).authorityChallenge == PositionTotal(Lower(text), AuthorityWords)
  {
    UrgencyWordsBorderless();
    ConspiracyWordsBorderless();
    AuthorityWordsBorderless();
    CountAllIsPositionTotal(Lower(text), UrgencyWords);
    CountAllIsPositionTotal(Lower(text), ConspiracyWords);
    CountAllIsPositionTotal(Lower(text), AuthorityWords);
  }

  /** Empty text yields all-zero indicators. */
  lemma EmptyTextNoIndicators()
    ensures DetectIndicators("") == Indicators(0, 0, 0, 0, 0)
  {
    assert Lower("") == "";
  }

  /** Indicators of cleaned text never flag excessive capitals. */
  lemma CleanedTextNeverShouts(cell: Cell)
    ensures DetectIndicators(CleanText(cell)).excessiveCaps == 0
  {
    CountUpperBounded(CleanText(cell));
  }
}
