/** `clean_text` of the preprocessing pipeline
    (data_collection/data_processor.py): lower-case the text, delete URLs,
    then `@mentions`, then `#hashtags`, turn every whitespace run into one
    space and strip the ends. The regex substitutions are modelled as the
    left-to-right scans `re.sub` performs. */
module TextCleaning {
  import opened Chars

  /** A data-frame cell: a string, a missing value (NaN), or any other value. */
  datatype Cell = Text(s: string) | Missing | NonText

  /** The character class of the URL pattern. Its range `$-_` already holds
      the digits, the upper-case letters, `@ . & + * ( ) , \` and `%`, so the
      class is the lower-case letters, that range and `!`. */
  predicate UrlChar(c: char) {
    ('a' <= c <= 'z') || ('$' <= c <= '_') || c == '!'
  }

  lemma WordCharsAreUrlChars(c: char)
    ensures IsWordChar(c) ==> UrlChar(c)
  {
  }

  /** Length of the match of `http[s]?://` followed by one or more URL
      characters at the start of `s`, or 0 when there is none. */
  function UrlMatchLength(s: string): (n: nat)
    ensures n == 0 || 8 <= n <= |s|
    ensures n > 0 ==> StartsWith(s, "http://") || StartsWith(s, "https://")
    ensures n > 0 ==> forall i :: n - 1 <= i < n ==> UrlChar(s[i])
    ensures 0 < n < |s| ==> !UrlChar(s[n])
  {
    if StartsWith(s, "https://") && RunLength(s[8..], UrlChar) > 0 then
      8 + RunLength(s[8..], UrlChar)
    else if StartsWith(s, "http://") && RunLength(s[7..], UrlChar) > 0 then
      7 + RunLength(s[7..], UrlChar)
    else 0
  }

  /** A URL can only start where `:` follows `http` or `https`. */
  lemma NoColonNoUrl(s: string)
    ensures ':' !in s ==> UrlMatchLength(s) == 0
  {
    assert StartsWith(s, "http://") ==> s[..7][4] == s[4] == ':' && s[4] in s;
    assert StartsWith(s, "https://") ==> s[..8][5] == s[5] == ':' && s[5] in s;
  }

  /** `url_pattern.sub('', s)`. */
  function RemoveUrls(s: string): (r: string)
    ensures |r| <= |s|
    ensures forall c :: c in r ==> c in s
    ensures ':' !in s ==> r == s
    decreases |s|
  {
    NoColonNoUrl(s);
    if |s| == 0 then ""
    else if UrlMatchLength(s) > 0 then
      var rest := RemoveUrls(s[UrlMatchLength(s)..]);
      assert forall c :: c in s[UrlMatchLength(s)..] ==> c in s;
      rest
    else
      var rest := RemoveUrls(s[1..]);
      assert s == [s[0]] + s[1..];
      [s[0]] + rest
  }

  /** `len(url_pattern.findall(s))`: the matches `RemoveUrls` deletes. */
  function UrlCount(s: string): (n: nat)
    ensures 8 * n <= |s|
    decreases |s|
  {
    if |s| == 0 then 0
    else if UrlMatchLength(s) > 0 then 1 + UrlCount(s[UrlMatchLength(s)..])
    else UrlCount(s[1..])
  }

  /** No URL match starts anywhere in `s`. */
  predicate NoUrl(s: string) {
    forall i :: 0 <= i <= |s| ==> UrlMatchLength(s[i..]) == 0
  }

  lemma NoUrlStep(s: string)
    requires |s| > 0
    ensures NoUrl(s) <==> UrlMatchLength(s) == 0 && NoUrl(s[1..])
  {
    assert s[0..] == s;
    forall i | 1 <= i <= |s| ensures s[i..] == s[1..][i - 1..] {
    }
  }

  /** `findall` finds nothing exactly when no match starts anywhere. */
  lemma {:induction false} UrlCountZero(s: string)
    ensures UrlCount(s) == 0 <==> NoUrl(s)
    decreases |s|
  {
    if |s| > 0 {
      NoUrlStep(s);
      if UrlMatchLength(s) == 0 {
        UrlCountZero(s[1..]);
      }
    }
  }

  /** The leftmost match of `s`: `p` holds no match start, `u` is the
      greedy match at `|p|` and `x` is what follows it. */
  predicate FirstUrl(s: string, p: string, u: string, x: string) {
    && s == p + u + x && |u| > 0 && UrlMatchLength(u + x) == |u|
    && forall i :: 0 <= i < |p| ==> UrlMatchLength(s[i..]) == 0
  }

  /** What `sub` and `findall` do at the leftmost match. */
  predicate UrlsAfterFirst(s: string, p: string, u: string, x: string) {
    FirstUrl(s, p, u, x) && RemoveUrls(s) == p + RemoveUrls(x) && UrlCount(s) == 1 + UrlCount(x)
  }

  lemma UrlHere(s: string)
    requires UrlMatchLength(s) > 0
    ensures UrlsAfterFirst(s, [], s[..UrlMatchLength(s)], s[UrlMatchLength(s)..])
  {
    var n := UrlMatchLength(s);
    assert [] + s[..n] + s[n..] == s && s[..n] + s[n..] == s;
  }

  /** One step of `sub` and `findall` where no match starts. */
  lemma UrlsSkipOne(s: string)
    requires |s| > 0 && UrlMatchLength(s) == 0
    ensures RemoveUrls(s) == [s[0]] + RemoveUrls(s[1..]) && UrlCount(s) == UrlCount(s[1..])
  {
  }

  lemma FirstUrlLater(s: string, p: string, u: string, x: string)
    requires |s| > 0 && UrlMatchLength(s) == 0 && FirstUrl(s[1..], p, u, x)
    ensures FirstUrl(s, [s[0]] + p, u, x)
  {
    var q := [s[0]] + p;
    assert s == [s[0]] + s[1..];
    assert s == q + u + x;
    forall i | 0 <= i < |q| ensures UrlMatchLength(s[i..]) == 0 {
      if i == 0 {
        assert s[0..] == s;
      } else {
        assert s[i..] == s[1..][i - 1..];
      }
    }
  }

  lemma UrlsLater(s: string, p: string, x: string)
    requires |s| > 0 && UrlMatchLength(s) == 0
    requires RemoveUrls(s[1..]) == p + RemoveUrls(x) && UrlCount(s[1..]) == 1 + UrlCount(x)
    ensures RemoveUrls(s) == [s[0]] + p + RemoveUrls(x) && UrlCount(s) == 1 + UrlCount(x)
  {
    UrlsSkipOne(s);
    var c, r := [s[0]], RemoveUrls(x);
    assert c + (p + r) == (c + p) + r;
  }

  /** Text without a match is kept whole and counts nothing. */
  lemma {:induction false} NoUrlKept(s: string)
    requires NoUrl(s)
    ensures RemoveUrls(s) == s && UrlCount(s) == 0
    decreases |s|
  {
    if |s| > 0 {
      NoUrlStep(s);
      NoUrlKept(s[1..]);
      assert s == [s[0]] + s[1..];
    }
  }

  lemma LeftmostLater(s: string, p: string, u: string, x: string)
    requires |s| > 0 && UrlMatchLength(s) == 0 && UrlsAfterFirst(s[1..], p, u, x)
    ensures UrlsAfterFirst(s, [s[0]] + p, u, x)
  {
    FirstUrlLater(s, p, u, x);
    UrlsLater(s, p, x);
  }

  /** Some leftmost match splits `s` as `UrlsAfterFirst` describes. */
  ghost predicate HasFirstUrl(s: string) {
    exists p, u, x :: UrlsAfterFirst(s, p, u, x)
  }

  lemma FirstUrlWitness(s: string, p: string, u: string, x: string)
    requires UrlsAfterFirst(s, p, u, x)
    ensures HasFirstUrl(s)
  {
  }

  /** How `sub` and `findall` treat text with a match: the text before the
      leftmost match is kept, the match is dropped and counted, and the scan
      resumes after it. With `NoUrlKept` this fixes both on every text. */
  lemma {:induction false} UrlsLeftmost(s: string)
    requires !NoUrl(s)
    ensures HasFirstUrl(s)
    decreases |s|
  {
    if UrlMatchLength(s) > 0 {
      var n := UrlMatchLength(s);
      UrlHere(s);
      FirstUrlWitness(s, [], s[..n], s[n..]);
    } else {
      NoUrlStep(s);
      UrlsLeftmost(s[1..]);
      var p, u, x :| UrlsAfterFirst(s[1..], p, u, x);
      LeftmostLater(s, p, u, x);
      FirstUrlWitness(s, [s[0]] + p, u, x);
    }
  }

  /** Every match `sub` deletes is at least 8 characters long, so the kept
      text and eight characters per counted URL fit in the input. */
  lemma {:induction false} UrlsAccounted(s: string)
    ensures |RemoveUrls(s)| + 8 * UrlCount(s) <= |s|
    decreases |s|
  {
    if |s| > 0 {
      var n := UrlMatchLength(s);
      if n > 0 {
        UrlsAccounted(s[n..]);
      } else {
        UrlsAccounted(s[1..]);
      }
    }
  }

  /** Length of the match of `marker` followed by one or more `\w`
      characters at the start of `s`, or 0 when there is none. */
  function TagMatchLength(s: string, marker: char): (n: nat)
    ensures n == 0 || 2 <= n <= |s|
    ensures n > 0 ==> s[0] == marker
    ensures n == 0 && |s| >= 2 && s[0] == marker ==> !IsWordChar(s[1])
    ensures 0 < n < |s| ==> !IsWordChar(s[n])
  {
    if |s| > 0 && s[0] == marker && RunLength(s[1..], IsWordChar) > 0 then
      1 + RunLength(s[1..], IsWordChar)
    else 0
  }

  /** No `marker` is directly followed by a word character. */
  predicate NoTag(s: string, marker: char) {
    forall i :: 0 <= i < |s| - 1 && s[i] == marker ==> !IsWordChar(s[i + 1])
  }

  /** `re.sub(marker + r'\w+', '', s)`. */
  function RemoveTags(s: string, marker: char): (r: string)
    ensures |r| <= |s|
    ensures forall c :: c in r ==> c in s
    ensures NoTag(r, marker)
    ensures |r| > 0 && IsWordChar(r[0]) ==> |s| > 0 && r[0] == s[0]
    ensures marker !in s ==> r == s
    decreases |s|
  {
    if |s| == 0 then ""
    else if TagMatchLength(s, marker) > 0 then
      var rest := RemoveTags(s[TagMatchLength(s, marker)..], marker);
      assert forall c :: c in s[TagMatchLength(s, marker)..] ==> c in s;
      rest
    else
      var rest := RemoveTags(s[1..], marker);
      assert s == [s[0]] + s[1..];
      var r := [s[0]] + rest;
      assert forall i :: 1 <= i < |r| ==> r[i] == rest[i - 1];
      r
  }

  /** `len(re.findall(marker + r'\w+', s))`. */
  function TagCount(s: string, marker: char): (n: nat)
    requires !IsWordChar(marker)
    ensures 2 * n <= |s|
    ensures n == 0 <==> NoTag(s, marker)
    decreases |s|
  {
    if |s| == 0 then 0
    else
      assert NoTag(s, marker) <==>
        (|s| >= 2 && s[0] == marker ==> !IsWordChar(s[1])) && NoTag(s[1..], marker) by {
        assert forall i :: 1 <= i < |s| ==> s[1..][i - 1] == s[i];
      }
      if TagMatchLength(s, marker) > 0 then
        1 + TagCount(s[TagMatchLength(s, marker)..], marker)
      else TagCount(s[1..], marker)
  }

  lemma NoTagSlice(s: string, marker: char, a: nat, b: nat)
    requires NoTag(s, marker) && a <= b <= |s|
    ensures NoTag(s[a..b], marker)
  {
    assert forall i :: 0 <= i < b - a ==> s[a..b][i] == s[a + i];
  }

  /** Deleting tags of one marker keeps the text free of tags of another. */
  lemma {:induction false} RemoveTagsKeepsNoTag(s: string, marker: char, other: char)
    requires NoTag(s, other)
    ensures NoTag(RemoveTags(s, marker), other)
    decreases |s|
  {
    if |s| > 0 {
      var k := TagMatchLength(s, marker);
      if k > 0 {
        NoTagSlice(s, other, k, |s|);
        RemoveTagsKeepsNoTag(s[k..], marker, other);
      } else {
        NoTagSlice(s, other, 1, |s|);
        RemoveTagsKeepsNoTag(s[1..], marker, other);
        var rest := RemoveTags(s[1..], marker);
        var r := [s[0]] + rest;
        assert RemoveTags(s, marker) == r;
        forall i | 0 <= i < |r| - 1 && r[i] == other
          ensures !IsWordChar(r[i + 1])
        {
          if i > 0 {
            assert r[i] == rest[i - 1] && r[i + 1] == rest[i];
          }
        }
      }
    }
  }

  /** `re.sub(r'\s+', ' ', s)`. */
  function CollapseSpaces(s: string): (r: string)
    ensures |r| <= |s|
    ensures |r| > 0 <==> |s| > 0
    ensures |s| > 0 && IsSpace(s[0]) ==> r[0] == ' '
    ensures |s| > 0 && !IsSpace(s[0]) ==> r[0] == s[0]
    ensures forall c :: c in r ==> c in s || c == ' '
    ensures forall i :: 0 <= i < |r| ==> IsSpace(r[i]) ==> r[i] == ' '
    ensures forall i :: 0 <= i < |r| - 1 ==> !(IsSpace(r[i]) && IsSpace(r[i + 1]))
    decreases |s|
  {
    if |s| == 0 then ""
    else if IsSpace(s[0]) then
      var n := RunLength(s, IsSpace);
      var rest := CollapseSpaces(s[n..]);
      assert forall c :: c in s[n..] ==> c in s;
      var r := [' '] + rest;
      assert forall i :: 1 <= i < |r| ==> r[i] == rest[i - 1];
      r
    else
      var rest := CollapseSpaces(s[1..]);
      assert s == [s[0]] + s[1..];
      var r := [s[0]] + rest;
      assert forall i :: 1 <= i < |r| ==> r[i] == rest[i - 1];
      r
  }

  predicate AllSpace(s: string) {
    forall i :: 0 <= i < |s| ==> IsSpace(s[i])
  }

  /** A whitespace run becomes one space. */
  lemma CollapseRun(s: string)
    requires |s| > 0 && AllSpace(s)
    ensures CollapseSpaces(s) == " "
  {
    RunLengthAppend(s, "", IsSpace);
    assert s + "" == s;
    assert s[|s|..] == "";
  }

  /** Any other character is kept as it is. */
  lemma CollapseChar(c: char)
    requires !IsSpace(c)
    ensures CollapseSpaces([c]) == [c]
  {
    assert [c][1..] == "";
  }

  /** One step of the substitution. */
  lemma CollapseStep(s: string)
    requires |s| > 0
    ensures !IsSpace(s[0]) ==> CollapseSpaces(s) == [s[0]] + CollapseSpaces(s[1..])
    ensures IsSpace(s[0]) ==> CollapseSpaces(s) == " " + CollapseSpaces(s[RunLength(s, IsSpace)..])
  {
  }

  lemma CollapseSplitCharHead(a: string, b: string)
    requires |a| > 0 && |b| > 0 && !IsSpace(a[0])
    requires |a| > 1 ==> CollapseSpaces(a[1..] + b) == CollapseSpaces(a[1..]) + CollapseSpaces(b)
    ensures CollapseSpaces(a + b) == CollapseSpaces(a) + CollapseSpaces(b)
  {
    var s := a + b;
    assert s[0] == a[0];
    DropOfAppend(a, b, 1);
    CollapseStep(s);
    CollapseStep(a);
    var c, x, y := [a[0]], CollapseSpaces(a[1..]), CollapseSpaces(b);
    if |a| == 1 {
      assert a[1..] == "" && s[1..] == b;
      assert x == "";
      assert CollapseSpaces(s) == c + y;
      assert CollapseSpaces(a) == c + "" == c;
      assert CollapseSpaces(s) == CollapseSpaces(a) + y;
    } else {
      assert CollapseSpaces(s) == c + (x + y);
      assert CollapseSpaces(a) == c + x;
      AppendAssoc(c, x, y);
      assert CollapseSpaces(s) == CollapseSpaces(a) + y;
    }
    assert CollapseSpaces(s) == CollapseSpaces(a) + CollapseSpaces(b);
  }

  lemma CollapseSplitAllSpace(a: string, b: string)
    requires |a| > 0 && |b| > 0 && AllSpace(a) && !IsSpace(b[0])
    ensures CollapseSpaces(a + b) == CollapseSpaces(a) + CollapseSpaces(b)
  {
    var s := a + b;
    assert s[0] == a[0];
    RunLengthAppend(a, b, IsSpace);
    assert RunLength(b, IsSpace) == 0;
    DropOfAppend(a, b, |a|);
    assert a[|a|..] == "";
    assert s[|a|..] == b;
    CollapseStep(s);
    CollapseRun(a);
  }

  lemma CollapseSplitRunHead(a: string, b: string)
    requires |a| > 0 && |b| > 0 && IsSpace(a[0]) && !(IsSpace(a[|a| - 1]) && IsSpace(b[0]))
    requires RunLength(a, IsSpace) < |a| ==>
      var m := RunLength(a, IsSpace);
      CollapseSpaces(a[m..] + b) == CollapseSpaces(a[m..]) + CollapseSpaces(b)
    ensures CollapseSpaces(a + b) == CollapseSpaces(a) + CollapseSpaces(b)
  {
    var m := RunLength(a, IsSpace);
    if m == |a| {
      CollapseSplitAllSpace(a, b);
    } else {
      var s := a + b;
      assert s[0] == a[0];
      RunLengthAppend(a, b, IsSpace);
      DropOfAppend(a, b, m);
      CollapseStep(s);
      CollapseStep(a);
      var x, y := CollapseSpaces(a[m..]), CollapseSpaces(b);
      assert CollapseSpaces(s) == " " + (x + y);
      assert CollapseSpaces(a) == " " + x;
      AppendAssoc(" ", x, y);
    }
  }

  /** A split that does not fall inside a whitespace run commutes with
      collapsing; with `CollapseRun` and `CollapseChar` this determines the
      result on every text. */
  lemma {:induction false} CollapseSplit(a: string, b: string)
    requires |a| > 0 && |b| > 0 && !(IsSpace(a[|a| - 1]) && IsSpace(b[0]))
    ensures CollapseSpaces(a + b) == CollapseSpaces(a) + CollapseSpaces(b)
    decreases |a|
  {
    if !IsSpace(a[0]) {
      if |a| > 1 {
        CollapseSplit(a[1..], b);
      }
      CollapseSplitCharHead(a, b);
    } else {
      var m := RunLength(a, IsSpace);
      if m < |a| {
        CollapseSplit(a[m..], b);
      }
      CollapseSplitRunHead(a, b);
    }
  }

  /** Text that is already single-spaced is left alone. */
  lemma {:induction false} CollapseKeepsSingleSpaced(s: string)
    requires forall i :: 0 <= i < |s| ==> IsSpace(s[i]) ==> s[i] == ' '
    requires forall i :: 0 <= i < |s| - 1 ==> !(IsSpace(s[i]) && IsSpace(s[i + 1]))
    ensures CollapseSpaces(s) == s
    decreases |s|
  {
    if |s| > 0 {
      SingleSpacedTail(s);
      CollapseKeepsSingleSpaced(s[1..]);
      if IsSpace(s[0]) {
        assert RunLength(s, IsSpace) == 1;
      }
    }
  }

  lemma SingleSpacedTail(s: string)
    requires |s| > 0
    requires forall i :: 0 <= i < |s| ==> IsSpace(s[i]) ==> s[i] == ' '
    requires forall i :: 0 <= i < |s| - 1 ==> !(IsSpace(s[i]) && IsSpace(s[i + 1]))
    ensures forall i :: 0 <= i < |s[1..]| ==> IsSpace(s[1..][i]) ==> s[1..][i] == ' '
    ensures forall i :: 0 <= i < |s[1..]| - 1 ==> !(IsSpace(s[1..][i]) && IsSpace(s[1..][i + 1]))
    ensures s == [s[0]] + s[1..]
    ensures IsSpace(s[0]) ==> s[0] == ' ' && (|s| > 1 ==> !IsSpace(s[1]))
  {
    assert forall i :: 0 <= i < |s| - 1 ==> s[1..][i] == s[i + 1];
  }

  /** A character put in front keeps the text free of tags unless it is the
      marker and a word character follows. */
  lemma NoTagCons(c: char, rest: string, marker: char)
    requires NoTag(rest, marker)
    requires c == marker && |rest| > 0 ==> !IsWordChar(rest[0])
    ensures NoTag([c] + rest, marker)
  {
    var r := [c] + rest;
    assert forall i :: 1 <= i < |r| ==> r[i] == rest[i - 1];
  }

  lemma {:induction false} CollapseKeepsNoTag(s: string, marker: char)
    requires NoTag(s, marker) && !IsSpace(marker)
    ensures NoTag(CollapseSpaces(s), marker)
    decreases |s|
  {
    if |s| > 0 {
      if IsSpace(s[0]) {
        var n := RunLength(s, IsSpace);
        NoTagSlice(s, marker, n, |s|);
        CollapseKeepsNoTag(s[n..], marker);
        NoTagCons(' ', CollapseSpaces(s[n..]), marker);
      } else {
        NoTagSlice(s, marker, 1, |s|);
        CollapseKeepsNoTag(s[1..], marker);
        var rest := CollapseSpaces(s[1..]);
        assert |s| > 1 && s[0] == marker ==> !IsWordChar(s[1]);
        assert |s| > 1 ==> s[1..][0] == s[1];
        NoTagCons(s[0], rest, marker);
      }
    }
  }

  /** Number of whitespace characters at the end of `s`. */
  function TrailingSpaces(s: string): (n: nat)
    ensures n <= |s|
    ensures forall i :: |s| - n <= i < |s| ==> IsSpace(s[i])
    ensures n < |s| ==> !IsSpace(s[|s| - 1 - n])
  {
    if |s| == 0 || !IsSpace(s[|s| - 1]) then 0
    else
      var rest := TrailingSpaces(s[..|s| - 1]);
      assert forall i :: 0 <= i < |s| - 1 ==> s[..|s| - 1][i] == s[i];
      1 + rest
  }

  /** Number of whitespace characters at the start of `s`. */
  function LeadingSpaces(s: string): (n: nat)
    ensures n <= |s|
    ensures forall i :: 0 <= i < n ==> IsSpace(s[i])
    ensures n < |s| ==> !IsSpace(s[n])
  {
    RunLength(s, IsSpace)
  }

  /** `str.strip()`: the slice left after removing the whitespace at both
      ends. */
  function Strip(s: string): (r: string)
    ensures |r| > 0 ==> !IsSpace(r[0]) && !IsSpace(r[|r| - 1])
    ensures LeadingSpaces(s) + |r| <= |s|
    ensures r == s[LeadingSpaces(s)..LeadingSpaces(s) + |r|]
    ensures forall i :: LeadingSpaces(s) + |r| <= i < |s| ==> IsSpace(s[i])
  {
    var a := LeadingSpaces(s);
    var t := s[a..];
    var b := TrailingSpaces(t);
    TrailingSpacesOfSuffix(s, a, b);
    s[a..|s| - b]
  }

  /** The trailing whitespace of a suffix, in the positions of the whole
      text. */
  lemma TrailingSpacesOfSuffix(s: string, a: nat, b: nat)
    requires a <= |s| && b == TrailingSpaces(s[a..])
    ensures a + b <= |s|
    ensures forall i :: |s| - b <= i < |s| ==> IsSpace(s[i])
    ensures a + b < |s| ==> !IsSpace(s[|s| - 1 - b])
  {
    var t := s[a..];
    assert forall i :: |t| - b <= i < |t| ==> IsSpace(t[i]);
    assert forall i :: |s| - b <= i < |s| ==> s[i] == t[i - a];
  }

  /** Whitespace before `a`, whitespace after `r` and no whitespace at the
      ends of `r`: then `r` is what `strip()` leaves. */
  lemma StripIs(s: string, a: nat, r: string)
    requires a + |r| <= |s| && r == s[a..a + |r|]
    requires forall i :: 0 <= i < a ==> IsSpace(s[i])
    requires forall i :: a + |r| <= i < |s| ==> IsSpace(s[i])
    requires |r| > 0 ==> !IsSpace(r[0]) && !IsSpace(r[|r| - 1])
    ensures Strip(s) == r
  {
    var r' := Strip(s);
    var a' := LeadingSpaces(s);
    if |r| > 0 {
      assert s[a] == r[0] && s[a + |r| - 1] == r[|r| - 1];
      assert a' == a;
      assert |r| <= |r'|;
      assert s[a + |r'| - 1] == r'[|r'| - 1];
      assert |r'| <= |r|;
    } else {
      assert forall i :: 0 <= i < |s| ==> IsSpace(s[i]);
    }
  }

  /** Leading whitespace is stripped away. */
  lemma StripSpaceCons(c: char, x: string)
    requires IsSpace(c)
    ensures Strip([c] + x) == Strip(x)
  {
    var s := [c] + x;
    var a, r := LeadingSpaces(x), Strip(x);
    assert forall i :: 0 < i < |s| ==> s[i] == x[i - 1];
    assert s[a + 1..a + 1 + |r|] == x[a..a + |r|];
    StripIs(s, a + 1, r);
  }

  /** Trailing whitespace after text with no whitespace at its ends is
      stripped away. */
  lemma StripTrailing(w: string, t: string)
    requires |w| > 0 && !IsSpace(w[0]) && !IsSpace(w[|w| - 1])
    requires AllSpace(t)
    ensures Strip(w + t) == w
  {
    var s := w + t;
    assert s[0..|w|] == w;
    StripIs(s, 0, w);
  }

  /** Text that starts with no whitespace is kept in front of the stripped
      rest when the rest also starts with none. */
  lemma StripKeepsPrefix(p: string, y: string)
    requires |p| > 0 && !IsSpace(p[0]) && |y| > 0 && !IsSpace(y[0])
    ensures Strip(p + y) == p + Strip(y)
  {
    var s := p + y;
    var r := Strip(y);
    assert LeadingSpaces(y) == 0;
    assert |r| > 0 by {
      assert y[0..|r|] == r;
      assert forall i :: |r| <= i < |y| ==> IsSpace(y[i]);
    }
    assert y[..|r|] == r;
    assert s[0..|p| + |r|] == p + r;
    assert forall i :: |p| + |r| <= i < |s| ==> s[i] == y[i - |p|];
    StripIs(s, 0, p + r);
  }

  lemma StripKeepsTrimmed(s: string)
    requires |s| > 0 ==> !IsSpace(s[0]) && !IsSpace(s[|s| - 1])
    ensures Strip(s) == s
  {
    if |s| > 0 {
      assert RunLength(s, IsSpace) == 0;
      assert TrailingSpaces(s) == 0;
    }
  }

  /** Lower-casing and the three deletions. */
  function RemoveMarkup(s: string): (r: string)
    ensures |r| <= |s|
    ensures NoUpper(r)
    ensures NoTag(r, '@') && NoTag(r, '#')
  {
    var lowered := Lower(s);
    var noUrls := RemoveUrls(lowered);
    var noMentions := RemoveTags(noUrls, '@');
    var r := RemoveTags(noMentions, '#');
    RemoveTagsKeepsNoTag(noMentions, '#', '@');
    assert NoUpper(r) by {
      forall i | 0 <= i < |r| ensures !IsUpper(r[i]) {
        assert r[i] in r;
      }
    }
    r
  }

  /** Collapsing and stripping whitespace introduce no upper case. */
  lemma NormaliseKeepsNoUpper(s: string)
    requires NoUpper(s)
    ensures NoUpper(Strip(CollapseSpaces(s)))
  {
    var collapsed := CollapseSpaces(s);
    var r := Strip(collapsed);
    assert forall i :: 0 <= i < |r| ==> r[i] == collapsed[LeadingSpaces(collapsed) + i];
    assert NoUpper(collapsed) by {
      forall i | 0 <= i < |collapsed| ensures !IsUpper(collapsed[i]) {
        assert collapsed[i] in collapsed;
      }
    }
  }

  /** Collapsing and stripping whitespace introduce no tag. */
  lemma NormaliseKeepsNoTag(s: string, marker: char)
    requires NoTag(s, marker) && !IsSpace(marker)
    ensures NoTag(Strip(CollapseSpaces(s)), marker)
  {
    var collapsed := CollapseSpaces(s);
    var r := Strip(collapsed);
    var a := LeadingSpaces(collapsed);
    assert forall i :: 0 <= i < |r| ==> r[i] == collapsed[a + i];
    CollapseKeepsNoTag(s, marker);
    NoTagSlice(collapsed, marker, a, a + |r|);
  }

  /** Collapsing and stripping whitespace introduce no upper case and no tag. */
  lemma NormaliseKeeps(s: string)
    ensures NoUpper(s) ==> NoUpper(Strip(CollapseSpaces(s)))
    ensures NoTag(s, '@') ==> NoTag(Strip(CollapseSpaces(s)), '@')
    ensures NoTag(s, '#') ==> NoTag(Strip(CollapseSpaces(s)), '#')
  {
    if NoUpper(s) {
      NormaliseKeepsNoUpper(s);
    }
    if NoTag(s, '@') {
      NormaliseKeepsNoTag(s, '@');
    }
    if NoTag(s, '#') {
      NormaliseKeepsNoTag(s, '#');
    }
  }

  /** Whitespace collapsing and stripping. */
  function NormaliseSpaces(s: string): (r: string)
    ensures |r| <= |s|
    ensures |r| > 0 ==> !IsSpace(r[0]) && !IsSpace(r[|r| - 1])
    ensures forall i :: 0 <= i < |r| ==> IsSpace(r[i]) ==> r[i] == ' '
    ensures forall i :: 0 <= i < |r| - 1 ==> !(IsSpace(r[i]) && IsSpace(r[i + 1]))
    ensures NoUpper(s) ==> NoUpper(r)
    ensures NoTag(s, '@') ==> NoTag(r, '@')
    ensures NoTag(s, '#') ==> NoTag(r, '#')
  {
    var collapsed := CollapseSpaces(s);
    var r := Strip(collapsed);
    NormaliseKeeps(s);
    StripKeepsSpacing(collapsed);
    r
  }

  /** Stripping a single-spaced text leaves it single-spaced. */
  lemma StripKeepsSpacing(c: string)
    requires forall i :: 0 <= i < |c| ==> IsSpace(c[i]) ==> c[i] == ' '
    requires forall i :: 0 <= i < |c| - 1 ==> !(IsSpace(c[i]) && IsSpace(c[i + 1]))
    ensures forall i :: 0 <= i < |Strip(c)| ==> IsSpace(Strip(c)[i]) ==> Strip(c)[i] == ' '
    ensures forall i :: 0 <= i < |Strip(c)| - 1 ==> !(IsSpace(Strip(c)[i]) && IsSpace(Strip(c)[i + 1]))
  {
    var r := Strip(c);
    assert forall i :: 0 <= i < |r| ==> r[i] == c[LeadingSpaces(c) + i];
  }

  /** `clean_text`. */
  function CleanText(cell: Cell): (r: string)
    ensures !cell.Text? ==> r == ""
    ensures cell.Text? ==> |r| <= |cell.s|
    ensures NoUpper(r)
    ensures |r| > 0 ==> !IsSpace(r[0]) && !IsSpace(r[|r| - 1])
    ensures forall i :: 0 <= i < |r| ==> IsSpace(r[i]) ==> r[i] == ' '
    ensures forall i :: 0 <= i < |r| - 1 ==> !(IsSpace(r[i]) && IsSpace(r[i + 1]))
    ensures NoTag(r, '@') && NoTag(r, '#')
  {
    match cell
    case Text(s) => NormaliseSpaces(RemoveMarkup(s))
    case Missing => ""
    case NonText => ""
  }

  /** Text already in cleaned form: lower case, single-spaced, trimmed, and
      free of `:`, `@` and `#`. */
  predicate Normalised(s: string) {
    && NoUpper(s)
    && ':' !in s && '@' !in s && '#' !in s
    && (|s| > 0 ==> !IsSpace(s[0]) && !IsSpace(s[|s| - 1]))
    && (forall i :: 0 <= i < |s| ==> IsSpace(s[i]) ==> s[i] == ' ')
    && (forall i :: 0 <= i < |s| - 1 ==> !(IsSpace(s[i]) && IsSpace(s[i + 1])))
  }

  /** Cleaning leaves normalised text unchanged. */
  lemma CleanTextKeepsNormalised(s: string)
    requires Normalised(s)
    ensures CleanText(Text(s)) == s
  {
    assert Lower(s) == s;
    CollapseKeepsSingleSpaced(s);
    StripKeepsTrimmed(s);
  }

  // A worked example: deleting the mention in "http:@x//abc" splices a URL
  // together, which a second cleaning then deletes.

  lemma RemoveUrlsKeepsTextWithoutH(s: string)
    requires 'h' !in s
    ensures RemoveUrls(s) == s
    decreases |s|
  {
    if |s| > 0 {
      assert s[0] in s;
      assert !StartsWith(s, "http://") && !StartsWith(s, "https://") by {
        if |s| >= 7 { assert s[..7][0] == s[0] != 'h'; }
      }
      assert UrlMatchLength(s) == 0;
      assert 'h' !in s[1..] by {
        assert forall c :: c in s[1..] ==> c in s;
      }
      RemoveUrlsKeepsTextWithoutH(s[1..]);
      assert RemoveUrls(s) == [s[0]] + RemoveUrls(s[1..]);
      assert s == [s[0]] + s[1..];
    }
  }

  lemma SpliceHasNoUrl(s: string)
    requires s == "http:@x//abc"
    ensures RemoveUrls(s) == s
  {
    UrlStartChars(s);
    assert s[4] == ':' && s[5] == '@';
    var t := s[1..];
    assert 'h' !in t by {
      assert forall i :: 1 <= i < |s| ==> s[i] != 'h';
      assert forall i :: 0 <= i < |t| ==> t[i] == s[i + 1];
    }
    RemoveUrlsKeepsTail(s);
  }

  /** The characters a URL match fixes at positions 4 and 5. */
  lemma UrlStartChars(s: string)
    ensures StartsWith(s, "http://") ==> s[5] == '/'
    ensures StartsWith(s, "https://") ==> s[4] == 's'
  {
    assert StartsWith(s, "http://") ==> s[..7][5] == s[5];
    assert StartsWith(s, "https://") ==> s[..8][4] == s[4];
  }

  /** Text that starts no URL and has no further `h` is left alone. */
  lemma RemoveUrlsKeepsTail(s: string)
    requires |s| > 0 && !StartsWith(s, "http://") && !StartsWith(s, "https://") && 'h' !in s[1..]
    ensures RemoveUrls(s) == s
  {
    RemoveUrlsKeepsTextWithoutH(s[1..]);
  }

  lemma SpliceMentionLength(w: string)
    requires w == "@x//abc"
    ensures TagMatchLength(w, '@') == 2
  {
    var t := w[1..];
    assert t[0] == w[1] == 'x' && t[1] == w[2] == '/';
    assert RunLength(t, IsWordChar) == 1;
  }

  /** Only the mention `@x` goes. */
  lemma SpliceMentionRemoved(w: string)
    requires w == "@x//abc"
    ensures RemoveTags(w, '@') == w[2..]
  {
    SpliceMentionLength(w);
    assert '@' !in w[2..] by {
      assert forall i :: 2 <= i < |w| ==> w[i] != '@';
      assert forall i :: 0 <= i < |w| - 2 ==> w[2..][i] == w[i + 2];
    }
  }

  lemma RemoveTagsCons(c: char, x: string, m: char)
    requires c != m
    ensures RemoveTags([c] + x, m) == [c] + RemoveTags(x, m)
  {
    var s := [c] + x;
    assert s[0] == c;
    assert TagMatchLength(s, m) == 0;
    assert s[1..] == x;
  }

  /** Splitting off the first character of a nonempty prefix. */
  lemma ConsSplit(p: string, x: string, r: string)
    requires |p| > 0
    ensures p[0] in p && forall ch :: ch in p[1..] ==> ch in p
    ensures p + x == [p[0]] + (p[1..] + x)
    ensures [p[0]] + (p[1..] + r) == p + r
  {
    assert p == [p[0]] + p[1..];
  }

  lemma {:induction false} RemoveTagsPrefix(p: string, x: string, m: char)
    requires m !in p
    ensures RemoveTags(p + x, m) == p + RemoveTags(x, m)
  {
    if |p| > 0 {
      var r := RemoveTags(x, m);
      ConsSplit(p, x, r);
      RemoveTagsPrefix(p[1..], x, m);
      RemoveTagsCons(p[0], p[1..] + x, m);
    } else {
      assert p + x == x;
    }
  }

  lemma SpliceJoin(p: string, w: string)
    requires p == "http:" && w == "@x//abc"
    ensures RemoveTags(p + w, '@') == p + w[2..]
  {
    assert '@' !in p by {
      assert forall i :: 0 <= i < |p| ==> p[i] != '@';
    }
    SpliceMentionRemoved(w);
    RemoveTagsPrefix(p, w, '@');
  }

  lemma SplicedUrlSpacing(u: string)
    requires u == "http://abc"
    ensures NormaliseSpaces(u) == u
  {
    CollapseKeepsSingleSpaced(u);
    StripKeepsTrimmed(u);
  }

  lemma SplicedUrlRemoved(u: string)
    requires u == "http://abc"
    ensures RemoveUrls(u) == ""
  {
    UrlStartChars(u);
    assert u[4] == ':';
    assert StartsWith(u, "http://");
    var t := u[7..];
    assert forall i :: 0 <= i < |t| ==> t[i] == u[i + 7] && UrlChar(t[i]);
    assert RunLength(t, UrlChar) == 3;
    assert UrlMatchLength(u) == 10;
  }

  lemma SpliceLower(s: string)
    requires s == "http:@x//abc"
    ensures Lower(s) == s
  {
    assert NoUpper(s) by {
      assert forall i :: 0 <= i < |s| ==> !IsUpper(s[i]);
    }
    LowerKeepsNoUpper(s);
  }

  lemma SpliceMentions(s: string, u: string)
    requires s == "http:@x//abc" && u == "http://abc"
    ensures RemoveTags(s, '@') == u
  {
    var p, w := "http:", "@x//abc";
    var t := w[2..];
    assert p + w == s by {
      assert forall i :: 0 <= i < |s| ==> (p + w)[i] == s[i];
    }
    assert p + t == u by {
      assert forall i :: 0 <= i < |t| ==> t[i] == w[i + 2];
      assert forall i :: 0 <= i < |u| ==> (p + t)[i] == u[i];
    }
    SpliceJoin(p, w);
  }

  lemma SpliceNoHashtag(u: string)
    requires u == "http://abc"
    ensures RemoveTags(u, '#') == u
  {
    assert '#' !in u by {
      assert forall i :: 0 <= i < |u| ==> u[i] != '#';
    }
  }

  lemma SpliceMarkup(s: string, u: string)
    requires s == "http:@x//abc" && u == "http://abc"
    ensures RemoveMarkup(s) == u
  {
    SpliceLower(s);
    SpliceHasNoUrl(s);
    SpliceMentions(s, u);
    SpliceNoHashtag(u);
  }

  lemma SplicedUrlMarkup(u: string)
    requires u == "http://abc"
    ensures RemoveMarkup(u) == ""
  {
    assert NoUpper(u) by {
      assert forall i :: 0 <= i < |u| ==> !IsUpper(u[i]);
    }
    LowerKeepsNoUpper(u);
    SplicedUrlRemoved(u);
  }

  /** `clean_text` is not idempotent: the URL spliced together by deleting a
      mention survives the first cleaning and falls to the second. */
  lemma CleanTextNotIdempotent(s: string, u: string)
    requires s == "http:@x//abc" && u == "http://abc"
    ensures CleanText(Text(s)) == u
    ensures CleanText(Text(u)) == ""
  {
    SpliceMarkup(s, u);
    SplicedUrlMarkup(u);
    SplicedUrlSpacing(u);
  }
}
