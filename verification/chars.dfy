/** Character classes, counting and substring search shared by the backend
    scorer and the preprocessing pipeline. Python's Unicode-aware predicates
    (`str.isupper`, `str.lower`, `str.isdigit`, the regex class `\w`) are
    restricted to ASCII; whitespace is the full set `str.isspace` accepts. */
module Chars {

  /** `str.isupper` on one character (ASCII letters only). */
  predicate IsUpper(c: char) {
    'A' <= c <= 'Z'
  }

  /** `str.isdigit` on one character (ASCII digits only). */
  predicate IsDigit(c: char) {
    '0' <= c <= '9'
  }

  /** The regex class `\w` (ASCII letters, digits and underscore). */
  predicate IsWordChar(c: char) {
    ('a' <= c <= 'z') || ('A' <= c <= 'Z') || ('0' <= c <= '9') || c == '_'
  }

  /** Python whitespace: what `str.isspace`, regex `\s`, `str.split()` and
      `str.strip()` treat as space. */
  predicate IsSpace(c: char) {
    || c == ' '
    || ('\t' <= c <= '\r')
    || ('\U{1c}' <= c <= '\U{1f}')
    || c == '\U{85}' || c == '\U{a0}' || c == '\U{1680}'
    || ('\U{2000}' <= c <= '\U{200a}')
    || c == '\U{2028}' || c == '\U{2029}' || c == '\U{202f}' || c == '\U{205f}' || c == '\U{3000}'
  }

  /** `str.lower` on one character. */
  function LowerChar(c: char): (d: char)
    ensures !IsUpper(d)
    ensures IsUpper(c) ==> d as int == c as int + 32
    ensures !IsUpper(c) ==> d == c
  {
    if IsUpper(c) then (c as int + 32) as char else c
  }

  /** `str.lower`. */
  function Lower(s: string): (r: string)
    ensures |r| == |s|
    ensures forall i :: 0 <= i < |r| ==> !IsUpper(r[i])
    ensures forall i :: 0 <= i < |r| ==> IsSpace(r[i]) == IsSpace(s[i]) && (r[i] == '!') == (s[i] == '!')
  {
    seq(|s|, i requires 0 <= i < |s| => LowerChar(s[i]))
  }

  predicate NoUpper(s: string) {
    forall i :: 0 <= i < |s| ==> !IsUpper(s[i])
  }

  /** Lower-casing text without upper-case letters changes nothing. */
  lemma LowerKeepsNoUpper(s: string)
    requires NoUpper(s)
    ensures Lower(s) == s
  {
  }

  /** `s.count(c)` for a single character `c`. */
  function CountChar(s: string, c: char): nat
  {
    if |s| == 0 then 0 else (if s[0] == c then 1 else 0) + CountChar(s[1..], c)
  }

  /** Number of characters for which `isupper()` holds. */
  function CountUpper(s: string): nat
  {
    if |s| == 0 then 0 else (if IsUpper(s[0]) then 1 else 0) + CountUpper(s[1..])
  }

  /** Number of characters for which `isdigit()` holds. */
  function CountDigits(s: string): nat
  {
    if |s| == 0 then 0 else (if IsDigit(s[0]) then 1 else 0) + CountDigits(s[1..])
  }

  /** Number of non-whitespace characters. */
  function CountNonSpace(s: string): nat
  {
    if |s| == 0 then 0 else (if IsSpace(s[0]) then 0 else 1) + CountNonSpace(s[1..])
  }

  lemma {:induction false} CountUpperBounded(s: string)
    ensures CountUpper(s) <= |s|
    ensures NoUpper(s) ==> CountUpper(s) == 0
  {
    if |s| > 0 {
      CountUpperBounded(s[1..]);
    }
  }

  /** '!', '?' and digits are disjoint classes, so their counts fit in the length. */
  lemma {:induction false} PunctuationAndDigitsBounded(s: string)
    ensures CountChar(s, '!') + CountChar(s, '?') + CountDigits(s) <= |s|
  {
    if |s| > 0 {
      PunctuationAndDigitsBounded(s[1..]);
    }
  }

  /** Length of the longest prefix of `s` whose characters all satisfy `inClass`
      (a greedy `[...]+` or `[...]*` match). */
  function RunLength(s: string, inClass: char -> bool): (n: nat)
    ensures n <= |s|
    ensures forall i :: 0 <= i < n ==> inClass(s[i])
    ensures n < |s| ==> !inClass(s[n])
  {
    if |s| == 0 || !inClass(s[0]) then 0 else 1 + RunLength(s[1..], inClass)
  }

  /** `' '.join(ws[i:])`: the words of `ws` from position `i` on, joined by
      single spaces. */
  function JoinFrom(ws: seq<string>, i: nat): string
    decreases |ws| - i
  {
    if i >= |ws| then "" else if i + 1 == |ws| then ws[i] else ws[i] + " " + JoinFrom(ws, i + 1)
  }

  lemma {:induction false} JoinShift(ws: seq<string>, i: nat)
    requires 1 <= i && |ws| > 0
    ensures JoinFrom(ws, i) == JoinFrom(ws[1..], i - 1)
    decreases |ws| - i
  {
    if i < |ws| {
      assert ws[1..][i - 1] == ws[i];
      if i + 1 < |ws| {
        JoinShift(ws, i + 1);
      }
    }
  }

  lemma AppendAssoc<T>(a: seq<T>, b: seq<T>, c: seq<T>)
    ensures a + (b + c) == (a + b) + c
  {
  }

  lemma TakeDrop<T>(s: seq<T>, n: nat)
    requires n <= |s|
    ensures s[..n] + s[n..] == s
  {
  }

  /** Taking a prefix of a concatenation that lies in its first part. */
  lemma TakeOfAppend<T>(a: seq<T>, b: seq<T>, m: nat)
    requires m <= |a|
    ensures (a + b)[..m] == a[..m]
  {
  }

  /** Dropping a prefix of a concatenation that lies in its first part. */
  lemma DropOfAppend<T>(a: seq<T>, b: seq<T>, m: nat)
    requires m <= |a|
    ensures (a + b)[m..] == a[m..] + b
  {
  }

  /** A run stops where the first text stops it, or runs through the whole
      first text and stops where the second one does. */
  lemma {:induction false} RunLengthAppend(a: string, b: string, inClass: char -> bool)
    ensures RunLength(a, inClass) < |a| ==> RunLength(a + b, inClass) == RunLength(a, inClass)
    ensures RunLength(a, inClass) == |a| ==> RunLength(a + b, inClass) == |a| + RunLength(b, inClass)
  {
    if |a| == 0 {
      assert a + b == b;
    } else {
      assert (a + b)[0] == a[0];
      assert (a + b)[1..] == a[1..] + b;
      RunLengthAppend(a[1..], b, inClass);
    }
  }

  predicate StartsWith(s: string, w: string) {
    |w| <= |s| && s[..|w|] == w
  }

  /** Python's `w in s` for strings. */
  predicate Contains(s: string, w: string) {
    exists i :: 0 <= i <= |s| - |w| && StartsWith(s[i..], w)
  }

  lemma ContainsStep(s: string, w: string)
    requires |s| > 0
    ensures Contains(s, w) <==> StartsWith(s, w) || Contains(s[1..], w)
  {
    if Contains(s[1..], w) {
      var i :| 0 <= i <= |s[1..]| - |w| && StartsWith(s[1..][i..], w);
      assert s[1..][i..] == s[i + 1..];
    }
    if Contains(s, w) && !StartsWith(s, w) {
      var i :| 0 <= i <= |s| - |w| && StartsWith(s[i..], w);
      assert i != 0;
      assert s[1..][i - 1..] == s[i..];
    }
    if StartsWith(s, w) {
      assert s[0..] == s;
    }
  }

  lemma ContainsTooLong(s: string, w: string)
    requires |s| < |w|
    ensures !Contains(s, w)
  {
  }

  /** `s.count(w)`: occurrences found by a left-to-right scan that resumes
      after each match, so occurrences never overlap. */
  function CountOccurrences(s: string, w: string): (n: nat)
    requires |w| > 0
    ensures n * |w| <= |s|
    ensures n > 0 <==> Contains(s, w)
    decreases |s|
  {
    if |s| < |w| then
      ContainsTooLong(s, w);
      0
    else if StartsWith(s, w) then
      ContainsStep(s, w);
      var m := CountOccurrences(s[|w|..], w);
      OneMoreFits(m, |w|, |s| - |w|);
      1 + m
    else
      ContainsStep(s, w);
      CountOccurrences(s[1..], w)
  }

  lemma OneMoreFits(m: nat, k: nat, room: nat)
    requires m * k <= room
    ensures (1 + m) * k <= k + room
  {
    assert (1 + m) * k == k + m * k;
  }

  /** Total occurrences of every word of `ws` (the per-word counts summed). */
  function CountAll(s: string, ws: seq<string>): (n: nat)
    requires forall k :: 0 <= k < |ws| ==> |ws[k]| > 0
    ensures n == 0 <==> forall k :: 0 <= k < |ws| ==> !Contains(s, ws[k])
  {
    if |ws| == 0 then 0 else CountOccurrences(s, ws[0]) + CountAll(s, ws[1..])
  }

  /** The number of positions of `s` at which `w` starts, overlapping
      matches included: the reference the scan is compared against. */
  function PositionCount(s: string, w: string): nat
    decreases |s|
  {
    if |s| < |w| || |s| == 0 then 0
    else (if StartsWith(s, w) then 1 else 0) + PositionCount(s[1..], w)
  }

  /** No proper suffix of `w` is also a prefix of it, so two matches of `w`
      can never overlap. */
  predicate Borderless(w: string) {
    forall k :: 0 < k < |w| ==> w[k..] != w[..|w| - k]
  }

  /** Two matches `j` apart with `j` shorter than the word give `w` a border. */
  lemma MatchesOverlap(s: string, w: string, j: nat)
    requires 0 < j < |w|
    ensures StartsWith(s, w) && StartsWith(s[j..], w) ==> w[j..] == w[..|w| - j]
  {
    if StartsWith(s, w) && StartsWith(s[j..], w) {
      forall i | 0 <= i < |w| - j ensures w[j..][i] == w[..|w| - j][i] {
        assert w[j + i] == s[j + i] == s[j..][i] == w[i];
      }
    }
  }

  /** Positions with no match contribute nothing to the reference count. */
  lemma {:induction false} PositionCountSkip(s: string, w: string, m: nat)
    requires |w| > 0 && m <= |s|
    requires forall k :: 0 <= k < m ==> !StartsWith(s[k..], w)
    ensures PositionCount(s, w) == PositionCount(s[m..], w)
  {
    if m == 0 {
      assert s[0..] == s;
    } else if |s| < |w| {
    } else {
      assert !StartsWith(s[0..], w);
      assert s[0..] == s;
      forall k | 0 <= k < m - 1 ensures !StartsWith(s[1..][k..], w) {
        assert s[1..][k..] == s[k + 1..];
      }
      PositionCountSkip(s[1..], w, m - 1);
      assert s[1..][m - 1..] == s[m..];
    }
  }

  /** For a borderless word the resuming scan of `s.count(w)` finds a match
      at every position where `w` starts. */
  lemma {:induction false} CountIsPositionCount(s: string, w: string)
    requires |w| > 0 && Borderless(w)
    ensures CountOccurrences(s, w) == PositionCount(s, w)
    decreases |s|
  {
    if |s| < |w| {
    } else if StartsWith(s, w) {
      forall k | 0 <= k < |w| - 1 ensures !StartsWith(s[1..][k..], w) {
        assert s[1..][k..] == s[k + 1..];
        MatchesOverlap(s, w, k + 1);
      }
      PositionCountSkip(s[1..], w, |w| - 1);
      assert s[1..][|w| - 1..] == s[|w|..];
      CountIsPositionCount(s[|w|..], w);
    } else {
      CountIsPositionCount(s[1..], w);
    }
  }

  /** The reference count summed over a word list. */
  function PositionTotal(s: string, ws: seq<string>): nat {
    if |ws| == 0 then 0 else PositionCount(s, ws[0]) + PositionTotal(s, ws[1..])
  }

  predicate AllBorderless(ws: seq<string>) {
    forall k :: 0 <= k < |ws| ==> |ws[k]| > 0 && Borderless(ws[k])
  }

  /** For a list of borderless words the summed counts are the number of
      (position, word) matches. */
  lemma {:induction false} CountAllIsPositionTotal(s: string, ws: seq<string>)
    requires AllBorderless(ws)
    ensures CountAll(s, ws) == PositionTotal(s, ws)
  {
    if |ws| > 0 {
      CountIsPositionCount(s, ws[0]);
      CountAllIsPositionTotal(s, ws[1..]);
    }
  }

  /** Whether `w[k..]` agrees with `w` from offset `j` on: a character-wise
      test that evaluates on literals. */
  predicate OverlapsFrom(w: string, k: nat, j: nat)
    requires 0 < k <= |w| && j <= |w| - k
    decreases |w| - k - j
  {
    j == |w| - k || (w[k + j] == w[j] && OverlapsFrom(w, k, j + 1))
  }

  lemma {:induction false} OverlapsFromIff(w: string, k: nat, j: nat)
    requires 0 < k <= |w| && j <= |w| - k
    ensures OverlapsFrom(w, k, j) <==> w[k + j..] == w[j..|w| - k]
    decreases |w| - k - j
  {
    if j < |w| - k {
      OverlapsFromIff(w, k, j + 1);
      assert w[k + j..] == [w[k + j]] + w[k + j + 1..];
      assert w[j..|w| - k] == [w[j]] + w[j + 1..|w| - k];
    }
  }

  /** No offset from `k` on is a border: the decidable form of `Borderless`. */
  predicate BorderlessFrom(w: string, k: nat)
    requires 0 < k
    decreases |w| - k
  {
    k >= |w| || (!OverlapsFrom(w, k, 0) && BorderlessFrom(w, k + 1))
  }

  lemma {:induction false} BorderlessFromSound(w: string, k: nat)
    requires 0 < k && BorderlessFrom(w, k)
    ensures forall i :: k <= i < |w| ==> w[i..] != w[..|w| - i]
    decreases |w| - k
  {
    if k < |w| {
      OverlapsFromIff(w, k, 0);
      assert w[k + 0..] == w[k..];
      BorderlessFromSound(w, k + 1);
    }
  }

  /** The character-wise test establishes `Borderless`. */
  lemma BorderlessCheck(w: string)
    requires BorderlessFrom(w, 1)
    ensures Borderless(w)
  {
    BorderlessFromSound(w, 1);
  }

  /** The entries of `ws` that occur in `s`. */
  ghost function Found(s: string, ws: seq<string>): set<string> {
    set k | 0 <= k < |ws| && Contains(s, ws[k]) :: ws[k]
  }

  predicate Distinct(ws: seq<string>) {
    forall i, j :: 0 <= i < j < |ws| ==> ws[i] != ws[j]
  }

  /** How many entries of `ws` occur in `s`, each counted once however often
      it occurs. */
  function CountPresent(s: string, ws: seq<string>): (n: nat)
    requires Distinct(ws)
    ensures n == |Found(s, ws)|
    ensures n <= |ws|
    ensures n == 0 <==> forall k :: 0 <= k < |ws| ==> !Contains(s, ws[k])
  {
    if |ws| == 0 then
      assert Found(s, ws) == {};
      0
    else
      FoundCons(s, ws);
      var rest := CountPresent(s, ws[1..]);
      (if Contains(s, ws[0]) then 1 else 0) + rest
  }

  /** The found entries are the first one, if found, and those of the rest,
      which cannot include the first. */
  lemma FoundCons(s: string, ws: seq<string>)
    requires |ws| > 0 && Distinct(ws)
    ensures Distinct(ws[1..])
    ensures Found(s, ws) == (if Contains(s, ws[0]) then {ws[0]} else {}) + Found(s, ws[1..])
    ensures ws[0] !in Found(s, ws[1..])
  {
    forall x | x in Found(s, ws)
      ensures x in (if Contains(s, ws[0]) then {ws[0]} else {}) + Found(s, ws[1..])
    {
      var k :| 0 <= k < |ws| && Contains(s, ws[k]) && ws[k] == x;
      if k > 0 {
        assert ws[1..][k - 1] == x;
      }
    }
    forall x | x in Found(s, ws[1..]) ensures x in Found(s, ws) && x != ws[0] {
      var k :| 0 <= k < |ws[1..]| && Contains(s, ws[1..][k]) && ws[1..][k] == x;
      assert ws[k + 1] == x;
    }
  }
}
