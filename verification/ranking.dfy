/** `ORDER BY primary DESC, secondary DESC` over an in-memory sequence. SQL
    leaves the order of full ties open; this model keeps tied rows in their
    original order (a stable sort). */
module Ranking {

  /** `a` may come before `b` in a descending two-key order. */
  predicate NotBelow<T>(a: T, b: T, primary: T -> real, secondary: T -> real) {
    primary(a) > primary(b) || (primary(a) == primary(b) && secondary(a) >= secondary(b))
  }

  predicate Ranked<T>(s: seq<T>, primary: T -> real, secondary: T -> real) {
    forall i, j :: 0 <= i < j < |s| ==> NotBelow(s[i], s[j], primary, secondary)
  }

  /** Places `x` before the first element it does not rank below. */
  function Insert<T>(x: T, s: seq<T>, primary: T -> real, secondary: T -> real): (r: seq<T>)
    requires Ranked(s, primary, secondary)
    ensures Ranked(r, primary, secondary)
    ensures multiset(r) == multiset(s) + multiset{x}
  {
    if |s| == 0 then [x]
    else if NotBelow(x, s[0], primary, secondary) then
      assert forall j :: 0 < j < |s| ==> NotBelow(s[0], s[j], primary, secondary);
      [x] + s
    else
      var rest := Insert(x, s[1..], primary, secondary);
      assert s == [s[0]] + s[1..];
      assert forall j :: 0 <= j < |rest| ==> NotBelow(s[0], rest[j], primary, secondary) by {
        forall j | 0 <= j < |rest| ensures NotBelow(s[0], rest[j], primary, secondary) {
          assert rest[j] in multiset(rest);
          if rest[j] != x {
            assert rest[j] in multiset(s[1..]);
            var k :| 0 <= k < |s[1..]| && s[1..][k] == rest[j];
            assert s[k + 1] == rest[j];
          }
        }
      }
      [s[0]] + rest
  }

  /** Insertion sort into descending order. */
  function Rank<T>(s: seq<T>, primary: T -> real, secondary: T -> real): (r: seq<T>)
    ensures Ranked(r, primary, secondary)
    ensures multiset(r) == multiset(s)
  {
    if |s| == 0 then []
    else
      assert s == [s[0]] + s[1..];
      Insert(s[0], Rank(s[1..], primary, secondary), primary, secondary)
  }

  /** A prefix of a ranked sequence outranks everything after it. */
  lemma PrefixOutranksRest<T>(s: seq<T>, k: nat, primary: T -> real, secondary: T -> real)
    requires Ranked(s, primary, secondary) && k <= |s|
    ensures forall x | x in multiset(s) - multiset(s[..k]) ::
      forall i :: 0 <= i < k ==> NotBelow(s[i], x, primary, secondary)
  {
    assert s == s[..k] + s[k..];
    assert multiset(s) == multiset(s[..k]) + multiset(s[k..]);
    forall x | x in multiset(s) - multiset(s[..k])
      ensures forall i :: 0 <= i < k ==> NotBelow(s[i], x, primary, secondary)
    {
      assert x in multiset(s[k..]);
      var j :| 0 <= j < |s[k..]| && s[k..][j] == x;
      assert s[k + j] == x;
    }
  }

  /** `LIMIT k` on a ranked sequence: the first `k` rows (all of them when
      fewer), which outrank every row left out. */
  function Top<T>(s: seq<T>, k: nat, primary: T -> real, secondary: T -> real): (r: seq<T>)
    requires Ranked(s, primary, secondary)
    ensures |r| == if |s| < k then |s| else k
    ensures Ranked(r, primary, secondary)
    ensures multiset(r) <= multiset(s)
    ensures forall x | x in multiset(s) - multiset(r) ::
      forall i :: 0 <= i < |r| ==> NotBelow(r[i], x, primary, secondary)
  {
    var n := if |s| < k then |s| else k;
    PrefixOutranksRest(s, n, primary, secondary);
    assert s == s[..n] + s[n..];
    assert multiset(s) == multiset(s[..n]) + multiset(s[n..]);
    s[..n]
  }
}
