/** The demo posts the backend seeds its table with (backend/main.py,
    `generate_sample_data`): the misinformation risk of the second sample
    post, worked out from the rules of `detect_misinformation`. The text is
    handled as its words joined by single spaces, so that each fact about the
    whole text follows from facts about short words. */
module SampleText {
  import opened Chars
  import opened Labels
  import opened Scoring

  // ---- Words joined by spaces ---------------------------------------------

  /** Two adjacent characters of `s` form one of the pairs `ps`. */
  predicate HasPairIn(s: string, ps: set<(char, char)>) {
    exists i :: 0 <= i < |s| - 1 && (s[i], s[i + 1]) in ps
  }

  predicate NoSpaceIn(ps: set<(char, char)>) {
    forall p :: p in ps ==> p.0 != ' ' && p.1 != ' '
  }

  /** Every two adjacent characters of an occurrence of `w` are adjacent in
      the text too, so a phrase holding one of the pairs a text lacks does
      not occur in it. */
  lemma OccurrencePairs(s: string, w: string, j: nat, ps: set<(char, char)>)
    requires j + 1 < |w| && (w[j], w[j + 1]) in ps
    ensures Contains(s, w) ==> HasPairIn(s, ps)
  {
    if Contains(s, w) {
      var i :| 0 <= i <= |s| - |w| && StartsWith(s[i..], w);
      assert s[i..][..|w|][j] == s[i + j] && s[i..][..|w|][j + 1] == s[i + j + 1];
    }
  }

  /** A pair of non-space characters never straddles the joining space. */
  lemma PairAcrossSpace(a: string, b: string, ps: set<(char, char)>)
    requires NoSpaceIn(ps)
    requires HasPairIn(a + " " + b, ps)
    ensures HasPairIn(a, ps) || HasPairIn(b, ps)
  {
    var s := a + " " + b;
    var i :| 0 <= i < |s| - 1 && (s[i], s[i + 1]) in ps;
    assert s[|a|] == ' ';
    if i + 1 < |a| {
      assert (a[i], a[i + 1]) in ps;
    } else {
      assert i > |a|;
      assert (b[i - |a| - 1], b[i - |a|]) in ps;
    }
  }

  /** Pairs no word holds are not in the joined text either. */
  lemma {:induction false} JoinAvoidsPairs(ws: seq<string>, i: nat, ps: set<(char, char)>)
    requires NoSpaceIn(ps)
    requires forall k :: i <= k < |ws| ==> !HasPairIn(ws[k], ps)
    ensures !HasPairIn(JoinFrom(ws, i), ps)
    decreases |ws| - i
  {
    if i + 1 < |ws| {
      JoinAvoidsPairs(ws, i + 1, ps);
      if HasPairIn(JoinFrom(ws, i), ps) {
        PairAcrossSpace(ws[i], JoinFrom(ws, i + 1), ps);
      }
    }
  }

  /** Each phrase but the `skip`-th holds, at position `at[k]`, a pair the
      text lacks; so none of them occurs in the text. */
  lemma PhrasesMissing(text: string, phrases: seq<string>, at: seq<nat>, skip: nat, ps: set<(char, char)>)
    requires |at| == |phrases|
    requires forall k :: 0 <= k < |phrases| && k != skip ==>
      at[k] + 1 < |phrases[k]| && (phrases[k][at[k]], phrases[k][at[k] + 1]) in ps
    requires !HasPairIn(text, ps)
    ensures forall k :: 0 <= k < |phrases| && k != skip ==> !Contains(text, phrases[k])
  {
    forall k | 0 <= k < |phrases| && k != skip
      ensures !Contains(text, phrases[k])
    {
      OccurrencePairs(text, phrases[k], at[k], ps);
    }
  }

  /** A text occurs in itself, at its start. */
  lemma PrefixOccurs(s: string, w: string)
    requires StartsWith(s, w)
    ensures Contains(s, w)
  {
    assert s[0..] == s;
  }

  /** Whatever occurs in a part occurs in the whole. */
  lemma ContainsInAppend(a: string, b: string, w: string)
    ensures Contains(a, w) ==> Contains(a + b, w)
    ensures Contains(b, w) ==> Contains(a + b, w)
  {
    if Contains(a, w) {
      var i :| 0 <= i <= |a| - |w| && StartsWith(a[i..], w);
      assert (a + b)[i..][..|w|] == a[i..][..|w|];
    }
    if Contains(b, w) {
      var i :| 0 <= i <= |b| - |w| && StartsWith(b[i..], w);
      assert (a + b)[|a| + i..][..|w|] == b[i..][..|w|];
    }
  }

  /** A word occurring in one of the joined words occurs in the text. */
  lemma {:induction false} JoinContains(ws: seq<string>, i: nat, k: nat, w: string)
    requires i <= k < |ws| && Contains(ws[k], w)
    ensures Contains(JoinFrom(ws, i), w)
    decreases |ws| - i
  {
    if i + 1 < |ws| {
      if k == i {
        ContainsInAppend(ws[i], " " + JoinFrom(ws, i + 1), w);
        assert ws[i] + " " + JoinFrom(ws, i + 1) == ws[i] + (" " + JoinFrom(ws, i + 1));
      } else {
        JoinContains(ws, i + 1, k, w);
        ContainsInAppend(ws[i] + " ", JoinFrom(ws, i + 1), w);
      }
    }
  }

  /** When exactly the `k0`-th word occurs, it is all that is found. */
  lemma FoundOnly(s: string, ws: seq<string>, k0: nat)
    requires k0 < |ws|
    requires forall k :: 0 <= k < |ws| ==> (Contains(s, ws[k]) <==> k == k0)
    ensures Found(s, ws) == {ws[k0]}
  {
  }

  // ---- Counting over joined words -------------------------------------------

  lemma {:induction false} CountUpperAppend(a: string, b: string)
    ensures CountUpper(a + b) == CountUpper(a) + CountUpper(b)
  {
    if |a| == 0 {
      assert a + b == b;
    } else {
      CountUpperAppend(a[1..], b);
      assert (a + b)[1..] == a[1..] + b;
    }
  }

  lemma {:induction false} CountCharAppend(a: string, b: string, c: char)
    ensures CountChar(a + b, c) == CountChar(a, c) + CountChar(b, c)
  {
    if |a| == 0 {
      assert a + b == b;
    } else {
      CountCharAppend(a[1..], b, c);
      assert (a + b)[1..] == a[1..] + b;
    }
  }

  /** A character that does not occur is counted zero times. */
  lemma {:induction false} CountCharAbsent(s: string, c: char)
    requires c !in s
    ensures CountChar(s, c) == 0
  {
    if |s| > 0 {
      assert s[0] != c;
      assert forall x :: x in s[1..] ==> x in s;
      CountCharAbsent(s[1..], c);
    }
  }

  /** Words without `c` add nothing to the count. */
  lemma {:induction false} BangsSkip(ws: seq<string>, i: nat, j: nat)
    requires i <= j <= |ws|
    requires forall k :: i <= k < j ==> '!' !in ws[k]
    ensures BangsFrom(ws, i) == BangsFrom(ws, j)
    decreases j - i
  {
    if i < j {
      CountCharAbsent(ws[i], '!');
      BangsSkip(ws, i + 1, j);
    }
  }

  lemma {:induction false} LowerAppend(a: string, b: string)
    ensures Lower(a + b) == Lower(a) + Lower(b)
  {
    assert forall i :: 0 <= i < |a| ==> (a + b)[i] == a[i];
    assert forall i :: |a| <= i < |a| + |b| ==> (a + b)[i] == b[i - |a|];
  }

  /** The upper-case letters of the words from `i` on. */
  function UpperFrom(ws: seq<string>, i: nat): nat
    decreases |ws| - i
  {
    if i >= |ws| then 0 else CountUpper(ws[i]) + UpperFrom(ws, i + 1)
  }

  /** The '!' of the words from `i` on. */
  function BangsFrom(ws: seq<string>, i: nat): nat
    decreases |ws| - i
  {
    if i >= |ws| then 0 else CountChar(ws[i], '!') + BangsFrom(ws, i + 1)
  }

  /** The characters of the words from `i` on, with one space between each
      two of them. */
  function SpanFrom(ws: seq<string>, i: nat): nat
    decreases |ws| - i
  {
    if i >= |ws| then 0 else if i + 1 == |ws| then |ws[i]| else |ws[i]| + 1 + SpanFrom(ws, i + 1)
  }

  /** The joining spaces add no upper-case letter and no '!', and one
      character each. */
  lemma {:induction false} JoinCounts(ws: seq<string>, i: nat)
    ensures CountUpper(JoinFrom(ws, i)) == UpperFrom(ws, i)
    ensures CountChar(JoinFrom(ws, i), '!') == BangsFrom(ws, i)
    ensures |JoinFrom(ws, i)| == SpanFrom(ws, i)
    decreases |ws| - i
  {
    if i + 1 < |ws| {
      JoinCounts(ws, i + 1);
      CountUpperAppend(ws[i] + " ", JoinFrom(ws, i + 1));
      CountUpperAppend(ws[i], " ");
      CountCharAppend(ws[i] + " ", JoinFrom(ws, i + 1), '!');
      CountCharAppend(ws[i], " ", '!');
    }
  }

  /** Each word lower-cased. */
  function LowerEach(ws: seq<string>): (r: seq<string>)
    ensures |r| == |ws|
    ensures forall k :: 0 <= k < |ws| ==> r[k] == Lower(ws[k])
  {
    seq(|ws|, k requires 0 <= k < |ws| => Lower(ws[k]))
  }

  /** Lower-casing the joined text lower-cases each word. */
  lemma {:induction false} LowerJoin(ws: seq<string>, i: nat)
    ensures Lower(JoinFrom(ws, i)) == JoinFrom(LowerEach(ws), i)
    decreases |ws| - i
  {
    if i + 1 < |ws| {
      LowerJoin(ws, i + 1);
      LowerAppend(ws[i] + " ", JoinFrom(ws, i + 1));
      LowerAppend(ws[i], " ");
      assert Lower(" ") == " ";
    }
  }

  // ---- The sample post ----------------------------------------------------

  /** The words of the second sample post. */
  const SampleWords: seq<string> := [
    "URGENT:", "There's", "a", "conspiracy", "about", "the", "water", "quality!",
    "They're", "hiding", "something", "from", "us!"]

  const LowerSampleWords: seq<string> := [
    "urgent:", "there's", "a", "conspiracy", "about", "the", "water", "quality!",
    "they're", "hiding", "something", "from", "us!"]

  /** "URGENT: There's a conspiracy about the water quality! They're hiding
      something from us!" */
  function SamplePost(): string {
    JoinFrom(SampleWords, 0)
  }

  /** A pair of adjacent letters out of each misinformation phrase but
      "conspiracy": "fake news" and "wake up" (ak), "hoax" (oa), "cover up"
      and "government hiding" (ov), "secret cure" (ec), "they don't want you
      to know" (n'), "sheeple" (ee), "mainstream media lies" (ai),
      "alternative facts" (iv). */
  const KeywordPairs: set<(char, char)> :=
    {('a', 'k'), ('o', 'a'), ('o', 'v'), ('e', 'c'), ('n', '\''), ('e', 'e'), ('a', 'i'), ('i', 'v')}

  /** A pair out of each urgency word but "urgent": "immediate" (mm), "now"
      (ow), "quick" (ck), "fast" (fa), "emergency" (em). */
  const UrgencyPairs: set<(char, char)> := {('m', 'm'), ('o', 'w'), ('c', 'k'), ('f', 'a'), ('e', 'm')}

  lemma SampleLowerWords()
    ensures LowerEach(SampleWords) == LowerSampleWords
  {
    assert forall k :: 0 <= k < 7 ==> Lower(SampleWords[k]) == LowerSampleWords[k];
    assert forall k :: 7 <= k < |SampleWords| ==> Lower(SampleWords[k]) == LowerSampleWords[k];
  }

  lemma SampleSpan()
    ensures SpanFrom(SampleWords, 0) == 87
  {
  }

  /** Only the first, second and ninth word hold capitals. */
  lemma SampleNoUpper()
    ensures forall k :: 0 <= k < |SampleWords| && k != 0 && k != 1 && k != 8 ==> NoUpper(SampleWords[k])
  {
  }

  lemma SampleUpperTail(ws: seq<string>)
    requires ws == SampleWords
    ensures UpperFrom(ws, 2) <= 7
  {
    SampleNoUpper();
    CountUpperBounded(ws[12]);
    CountUpperBounded(ws[11]);
    CountUpperBounded(ws[10]);
    CountUpperBounded(ws[9]);
    CountUpperBounded(ws[8]);
    CountUpperBounded(ws[7]);
    CountUpperBounded(ws[6]);
    CountUpperBounded(ws[5]);
    CountUpperBounded(ws[4]);
    CountUpperBounded(ws[3]);
    CountUpperBounded(ws[2]);
    assert UpperFrom(ws, 12) == 0;
    assert UpperFrom(ws, 11) == 0;
    assert UpperFrom(ws, 10) == 0;
    assert UpperFrom(ws, 9) == 0;
    assert UpperFrom(ws, 8) <= 7;
    assert UpperFrom(ws, 7) <= 7;
    assert UpperFrom(ws, 6) <= 7;
    assert UpperFrom(ws, 5) <= 7;
    assert UpperFrom(ws, 4) <= 7;
    assert UpperFrom(ws, 3) <= 7;
  }

  /** At most 21 capitals in 87 characters: the post does not shout. */
  lemma SampleNotShouting(ws: seq<string>)
    requires ws == SampleWords
    ensures 10 * CountUpper(JoinFrom(ws, 0)) <= 3 * |JoinFrom(ws, 0)|
  {
    SampleUpperTail(ws);
    CountUpperBounded(ws[1]);
    CountUpperBounded(ws[0]);
    assert UpperFrom(ws, 1) <= 14;
    JoinCounts(ws, 0);
    SampleSpan();
  }

  /** Only the eighth and the last word hold a '!'. */
  lemma SampleBangWords()
    ensures forall k :: 0 <= k < 7 ==> '!' !in SampleWords[k]
    ensures forall k :: 8 <= k < 12 ==> '!' !in SampleWords[k]
  {
    assert forall k :: 0 <= k < 7 ==> '!' !in SampleWords[k];
  }

  /** Those two hold one '!' each. */
  lemma SampleBangCounts()
    ensures CountChar(SampleWords[7], '!') == 1 && CountChar(SampleWords[12], '!') == 1
  {
  }

  /** Two '!': not more than three. */
  lemma SampleBangs(ws: seq<string>)
    requires ws == SampleWords
    ensures CountChar(JoinFrom(ws, 0), '!') == 2
  {
    SampleBangWords();
    SampleBangCounts();
    BangsSkip(ws, 0, 7);
    BangsSkip(ws, 8, 12);
    assert BangsFrom(ws, 12) == 1;
    assert BangsFrom(ws, 7) == 1 + BangsFrom(ws, 8);
    JoinCounts(ws, 0);
  }

  lemma SampleKeywordPairs()
    ensures forall k :: 0 <= k < |LowerSampleWords| ==> !HasPairIn(LowerSampleWords[k], KeywordPairs)
  {
    assert forall k :: 0 <= k < 7 ==> !HasPairIn(LowerSampleWords[k], KeywordPairs);
  }

  /** No pair of either set occurs in the lower-cased post. */
  lemma SampleAvoidsPairs(lws: seq<string>)
    requires lws == LowerSampleWords
    ensures !HasPairIn(JoinFrom(lws, 0), KeywordPairs)
    ensures !HasPairIn(JoinFrom(lws, 0), UrgencyPairs)
  {
    SampleKeywordPairs();
    JoinAvoidsPairs(lws, 0, KeywordPairs);
    SampleUrgencyPairs();
    JoinAvoidsPairs(lws, 0, UrgencyPairs);
  }

  lemma SampleUrgencyPairs()
    ensures forall k :: 0 <= k < |LowerSampleWords| ==> !HasPairIn(LowerSampleWords[k], UrgencyPairs)
  {
  }

  /** The lower-cased post is the lower-case words joined. */
  lemma SampleLower(ws: seq<string>, lws: seq<string>)
    requires ws == SampleWords && lws == LowerSampleWords
    ensures Lower(JoinFrom(ws, 0)) == JoinFrom(lws, 0)
  {
    LowerJoin(ws, 0);
    SampleLowerWords();
  }

  /** Where each misinformation phrase holds its pair. */
  const KeywordPairAt: seq<nat> := [1, 0, 1, 1, 1, 1, 7, 1, 2, 1, 8]

  /** Where each urgency word holds its pair. */
  const UrgencyPairAt: seq<nat> := [0, 1, 1, 3, 0, 0]

  lemma KeywordPairsCover()
    ensures forall k :: 0 <= k < |MisinformationKeywords| && k != 1 ==>
      KeywordPairAt[k] + 1 < |MisinformationKeywords[k]|
      && (MisinformationKeywords[k][KeywordPairAt[k]], MisinformationKeywords[k][KeywordPairAt[k] + 1]) in KeywordPairs
  {
  }

  lemma UrgencyPairsCover()
    ensures forall k :: 0 <= k < |UrgencyWords| && k != 0 ==>
      UrgencyPairAt[k] + 1 < |UrgencyWords[k]|
      && (UrgencyWords[k][UrgencyPairAt[k]], UrgencyWords[k][UrgencyPairAt[k] + 1]) in UrgencyPairs
  {
  }

  lemma SampleKeywordsMissing(lws: seq<string>)
    requires lws == LowerSampleWords
    ensures forall k :: 0 <= k < |MisinformationKeywords| && k != 1 ==> !Contains(JoinFrom(lws, 0), MisinformationKeywords[k])
  {
    SampleAvoidsPairs(lws);
    KeywordPairsCover();
    PhrasesMissing(JoinFrom(lws, 0), MisinformationKeywords, KeywordPairAt, 1, KeywordPairs);
  }

  /** Of the misinformation phrases only "conspiracy" occurs in the post. */
  lemma SampleKeywordsIn(lws: seq<string>)
    requires lws == LowerSampleWords
    ensures forall k :: 0 <= k < |MisinformationKeywords| ==> (Contains(JoinFrom(lws, 0), MisinformationKeywords[k]) <==> k == 1)
  {
    SampleKeywordsMissing(lws);
    PrefixOccurs(lws[3], MisinformationKeywords[1]);
    JoinContains(lws, 0, 3, MisinformationKeywords[1]);
  }

  /** Of the urgency words only "urgent" occurs in the post. */
  lemma SampleUrgencyIn(lws: seq<string>)
    requires lws == LowerSampleWords
    ensures forall k :: 0 <= k < |UrgencyWords| ==> (Contains(JoinFrom(lws, 0), UrgencyWords[k]) <==> k == 0)
  {
    SampleAvoidsPairs(lws);
    UrgencyPairsCover();
    PhrasesMissing(JoinFrom(lws, 0), UrgencyWords, UrgencyPairAt, 0, UrgencyPairs);
    PrefixOccurs(lws[0], UrgencyWords[0]);
    JoinContains(lws, 0, 0, UrgencyWords[0]);
  }

  /** "conspiracy" is the one misinformation phrase found. */
  lemma SampleKeywordsFound(ws: seq<string>, mk: seq<string>)
    requires ws == SampleWords && mk == MisinformationKeywords
    ensures Found(Lower(JoinFrom(ws, 0)), mk) == {"conspiracy"}
  {
    SampleLower(ws, LowerSampleWords);
    SampleKeywordsFoundIn(LowerSampleWords, mk);
  }

  lemma SampleKeywordsFoundIn(lws: seq<string>, mk: seq<string>)
    requires lws == LowerSampleWords && mk == MisinformationKeywords
    ensures Found(JoinFrom(lws, 0), mk) == {"conspiracy"}
  {
    SampleKeywordsIn(lws);
    FoundOnly(JoinFrom(lws, 0), mk, 1);
  }

  /** "urgent" is the one urgency word found. */
  lemma SampleUrgencyFound(ws: seq<string>, uw: seq<string>)
    requires ws == SampleWords && uw == UrgencyWords
    ensures Found(Lower(JoinFrom(ws, 0)), uw) == {"urgent"}
  {
    var lws := LowerSampleWords;
    SampleLower(ws, lws);
    SampleUrgencyIn(lws);
    FoundOnly(JoinFrom(lws, 0), uw, 0);
  }

  /** The backend's second sample post scores a misinformation risk of
      exactly 0.3: one phrase, no shouting, two '!', one urgency word. */
  lemma SampleRisk()
    ensures DetectMisinformation(SamplePost()) == 0.3
  {
    var ws := SampleWords;
    SampleNotShouting(ws);
    SampleBangs(ws);
    SampleKeywordsFound(ws, MisinformationKeywords);
    SampleUrgencyFound(ws, UrgencyWords);
  }
}
