/** `generate_dataset` (data_collection/nextdoor_generator.py): blocks of
    positive, negative, neutral and misinformation posts in the 40/30/25/5
    proportions, shuffled. The random outcomes of each generator loop and of
    the shuffle are parameters. */
module Dataset {
  import opened Generator

  // ---- Counting -----------------------------------------------------------

  function Count<T>(xs: seq<T>, p: T -> bool): (n: nat)
    ensures n <= |xs|
  {
    if |xs| == 0 then 0 else (if p(xs[0]) then 1 else 0) + Count(xs[1..], p)
  }

  lemma {:induction false} CountConcat<T>(a: seq<T>, b: seq<T>, p: T -> bool)
    ensures Count(a + b, p) == Count(a, p) + Count(b, p)
  {
    if |a| == 0 {
      assert a + b == b;
    } else {
      assert (a + b)[0] == a[0];
      assert (a + b)[1..] == a[1..] + b;
      CountConcat(a[1..], b, p);
    }
  }

  lemma {:induction false} CountEvery<T>(xs: seq<T>, p: T -> bool)
    requires forall i :: 0 <= i < |xs| ==> p(xs[i])
    ensures Count(xs, p) == |xs|
  {
    if |xs| > 0 {
      CountEvery(xs[1..], p);
    }
  }

  lemma {:induction false} CountNone<T>(xs: seq<T>, p: T -> bool)
    requires forall i :: 0 <= i < |xs| ==> !p(xs[i])
    ensures Count(xs, p) == 0
  {
    if |xs| > 0 {
      CountNone(xs[1..], p);
    }
  }

  /** Reordering a sequence keeps every count. */
  lemma {:induction false} CountPermutation<T>(xs: seq<T>, ys: seq<T>, p: T -> bool)
    requires multiset(xs) == multiset(ys)
    ensures Count(xs, p) == Count(ys, p)
    decreases |xs|
  {
    if |xs| == 0 {
      assert |ys| == |multiset(ys)| == 0;
    } else {
      var x := xs[0];
      assert x in multiset(ys);
      var k :| 0 <= k < |ys| && ys[k] == x;
      var rest := ys[..k] + ys[k + 1..];
      assert ys == ys[..k] + ([x] + ys[k + 1..]);
      assert multiset(ys) == multiset(ys[..k]) + multiset{x} + multiset(ys[k + 1..]);
      assert xs == [x] + xs[1..];
      assert multiset(xs[1..]) == multiset(xs) - multiset{x};
      assert multiset(rest) == multiset(ys) - multiset{x};
      CountPermutation(xs[1..], rest, p);
      CountConcat(ys[..k], [x] + ys[k + 1..], p);
      CountConcat(ys[..k], ys[k + 1..], p);
      assert ([x] + ys[k + 1..])[0] == x;
      assert ([x] + ys[k + 1..])[1..] == ys[k + 1..];
    }
  }

  // ---- Shuffle ------------------------------------------------------------

  /** Exchanging two positions. */
  function Swap<T>(xs: seq<T>, i: nat, j: nat): (ys: seq<T>)
    requires i < |xs| && j < |xs|
    ensures |ys| == |xs| && multiset(ys) == multiset(xs)
    ensures ys[i] == xs[j] && ys[j] == xs[i]
    ensures forall k :: 0 <= k < |xs| && k != i && k != j ==> ys[k] == xs[k]
  {
    xs[i := xs[j]][j := xs[i]]
  }

  /** The Fisher–Yates steps of `random.shuffle` for positions `top` down
      to 1: position `top` is exchanged with position `draws(top) % (top + 1)`. */
  function ShuffleFrom<T>(xs: seq<T>, top: nat, draws: nat -> nat): (ys: seq<T>)
    requires top < |xs|
    ensures |ys| == |xs| && multiset(ys) == multiset(xs)
    decreases top
  {
    if top == 0 then xs else ShuffleFrom(Swap(xs, top, Pick(draws, top)), top - 1, draws)
  }

  /** `randbelow(top + 1)`: the position exchanged with `top`. */
  function Pick(draws: nat -> nat, top: nat): (j: nat)
    ensures j <= top
    ensures draws(top) <= top ==> j == draws(top)
  {
    draws(top) % (top + 1)
  }

  /** `random.shuffle`: a permutation of its input. */
  function Shuffle<T>(xs: seq<T>, draws: nat -> nat): (ys: seq<T>)
    ensures |ys| == |xs| && multiset(ys) == multiset(xs)
  {
    if |xs| == 0 then xs else ShuffleFrom(xs, |xs| - 1, draws)
  }

  /** Draws that always pick the current position leave the order alone. */
  lemma {:induction false} ShuffleFromFixed<T>(xs: seq<T>, top: nat, draws: nat -> nat)
    requires top < |xs|
    requires forall i :: 0 < i <= top ==> draws(i) == i
    ensures ShuffleFrom(xs, top, draws) == xs
    decreases top
  {
    if top > 0 {
      SwapSelf(xs, top, Pick(draws, top));
      assert ShuffleFrom(xs, top, draws) == ShuffleFrom(xs, top - 1, draws);
      ShuffleFromFixed(xs, top - 1, draws);
    }
  }

  lemma SwapSelf<T>(xs: seq<T>, i: nat, j: nat)
    requires i < |xs| && j == i
    ensures Swap(xs, i, j) == xs
  {
    assert forall k :: 0 <= k < |xs| ==> Swap(xs, i, j)[k] == xs[k];
  }

  // ---- The dataset --------------------------------------------------------

  /** `int(num_posts * share)` for the four shares. */
  function PositiveCount(n: nat): nat { 2 * n / 5 }
  function NegativeCount(n: nat): nat { 3 * n / 10 }
  function NeutralCount(n: nat): nat { n / 4 }
  function MisinformationCount(n: nat): nat { n / 20 }

  function GeneratedCount(n: nat): nat {
    PositiveCount(n) + NegativeCount(n) + NeutralCount(n) + MisinformationCount(n)
  }

  /** The truncated shares never add up to more than requested. */
  lemma GeneratedAtMostRequested(n: nat)
    ensures GeneratedCount(n) <= n
    ensures n % 20 == 0 ==> GeneratedCount(n) == n
  {
    var q, r := n / 20, n % 20;
    assert n == 20 * q + r;
    assert PositiveCount(n) == 8 * q + 2 * r / 5;
    assert NegativeCount(n) == 6 * q + 3 * r / 10;
    assert NeutralCount(n) == 5 * q + r / 4;
    assert MisinformationCount(n) == q;
  }

  /** `count` posts of one generator, the i-th fed the outcomes `draws(i)`. */
  function Block(count: nat, draws: nat -> Draw, gen: Draw -> Dict): (b: seq<Dict>)
    ensures |b| == count
    ensures forall i :: 0 <= i < count ==> b[i] == gen(draws(i))
  {
    seq(count, i requires 0 <= i < count => gen(draws(i)))
  }

  /** The random outcomes of one `generate_dataset` call: those of each
      generator loop, and those of the shuffle. */
  datatype Outcomes = Outcomes(
    positive: nat -> Draw, negative: nat -> Draw, neutral: nat -> Draw, misinformation: nat -> Draw,
    shuffle: nat -> nat)

  /** How many posts of each kind are generated. */
  datatype Shares = Shares(positive: nat, negative: nat, neutral: nat, misinformation: nat) {
    function Total(): nat { positive + negative + neutral + misinformation }
  }

  function SharesOf(n: nat): Shares {
    Shares(PositiveCount(n), NegativeCount(n), NeutralCount(n), MisinformationCount(n))
  }

  function PositiveBlock(sh: Shares, draws: Outcomes): seq<Dict> {
    Block(sh.positive, draws.positive, PositivePost)
  }
  function NegativeBlock(sh: Shares, draws: Outcomes): seq<Dict> {
    Block(sh.negative, draws.negative, NegativePost)
  }
  function NeutralBlock(sh: Shares, draws: Outcomes): seq<Dict> {
    Block(sh.neutral, draws.neutral, NeutralPost)
  }
  function MisinformationBlock(sh: Shares, draws: Outcomes): seq<Dict> {
    Block(sh.misinformation, draws.misinformation, MisinformationPost)
  }

  /** The four blocks in generation order, before the shuffle. */
  function Unshuffled(sh: Shares, draws: Outcomes): seq<Dict> {
    PositiveBlock(sh, draws) + NegativeBlock(sh, draws) + NeutralBlock(sh, draws) + MisinformationBlock(sh, draws)
  }

  /** `generate_dataset`. */
  function GenerateDataset(n: nat, draws: Outcomes): (posts: seq<Dict>)
    ensures |posts| == GeneratedCount(n) <= n
    ensures multiset(posts) == multiset(Unshuffled(SharesOf(n), draws))
  {
    GeneratedAtMostRequested(n);
    Shuffle(Unshuffled(SharesOf(n), draws), draws.shuffle)
  }

  predicate HasSentiment(post: Dict, name: string) {
    Lookup(post, "sentiment") == Some(Str(name))
  }

  predicate IsPositive(post: Dict) { HasSentiment(post, "positive") }
  predicate IsNegative(post: Dict) { HasSentiment(post, "negative") }
  predicate IsNeutral(post: Dict) { HasSentiment(post, "neutral") }
  predicate Planted(post: Dict) { Lookup(post, "misinformation_risk").Some? }

  /** A block counts in full when the generator always satisfies `p`. */
  lemma BlockAll(count: nat, draws: nat -> Draw, gen: Draw -> Dict, p: Dict -> bool)
    requires forall x :: p(gen(x))
    ensures Count(Block(count, draws, gen), p) == count
  {
    CountEvery(Block(count, draws, gen), p);
  }

  /** A block counts nothing when the generator never satisfies `p`. */
  lemma BlockNone(count: nat, draws: nat -> Draw, gen: Draw -> Dict, p: Dict -> bool)
    requires forall x :: !p(gen(x))
    ensures Count(Block(count, draws, gen), p) == 0
  {
    CountNone(Block(count, draws, gen), p);
  }

  /** Counting over the unshuffled dataset is counting block by block. */
  lemma UnshuffledCount(sh: Shares, draws: Outcomes, p: Dict -> bool)
    ensures Count(Unshuffled(sh, draws), p) ==
      Count(PositiveBlock(sh, draws), p) + Count(NegativeBlock(sh, draws), p)
      + Count(NeutralBlock(sh, draws), p) + Count(MisinformationBlock(sh, draws), p)
  {
    var b1, b2, b3, b4 := PositiveBlock(sh, draws), NegativeBlock(sh, draws), NeutralBlock(sh, draws), MisinformationBlock(sh, draws);
    assert Unshuffled(sh, draws) == b1 + b2 + b3 + b4;
    CountConcat(b1 + b2 + b3, b4, p);
    CountConcat(b1 + b2, b3, p);
    CountConcat(b1, b2, p);
  }

  /** The three label names are distinct strings. */
  lemma NamesDiffer()
    ensures Str("positive") != Str("negative") && Str("positive") != Str("neutral") && Str("negative") != Str("neutral")
  {
    assert "positive"[0] != "negative"[0];
    assert |"positive"| != |"neutral"| && |"negative"| != |"neutral"|;
  }

  lemma PositivePostLabels()
    ensures forall x :: IsPositive(PositivePost(x)) && !IsNegative(PositivePost(x)) && !IsNeutral(PositivePost(x)) && !Planted(PositivePost(x))
  {
    NamesDiffer();
  }

  lemma NegativePostLabels()
    ensures forall x :: !IsPositive(NegativePost(x)) && IsNegative(NegativePost(x)) && !IsNeutral(NegativePost(x)) && !Planted(NegativePost(x))
  {
    NamesDiffer();
  }

  lemma NeutralPostLabels()
    ensures forall x :: !IsPositive(NeutralPost(x)) && !IsNegative(NeutralPost(x)) && IsNeutral(NeutralPost(x)) && !Planted(NeutralPost(x))
  {
    NamesDiffer();
  }

  lemma MisinformationPostLabels()
    ensures forall x :: !IsPositive(MisinformationPost(x)) && IsNegative(MisinformationPost(x)) && !IsNeutral(MisinformationPost(x)) && Planted(MisinformationPost(x))
  {
    NamesDiffer();
  }

  /** The label counts of the generated dataset: 40% positive, 25% neutral,
      and the 30% negative posts joined by the 5% misinformation posts, which
      are labelled negative too and alone carry the risk entry. */
  lemma DatasetLabelCounts(n: nat, draws: Outcomes)
    ensures Count(GenerateDataset(n, draws), IsPositive) == PositiveCount(n)
    ensures Count(GenerateDataset(n, draws), IsNegative) == NegativeCount(n) + MisinformationCount(n)
    ensures Count(GenerateDataset(n, draws), IsNeutral) == NeutralCount(n)
    ensures Count(GenerateDataset(n, draws), Planted) == MisinformationCount(n)
  {
    UnshuffledLabelCounts(SharesOf(n), draws);
    var posts := GenerateDataset(n, draws);
    var u := Unshuffled(SharesOf(n), draws);
    CountPermutation(posts, u, IsPositive);
    CountPermutation(posts, u, IsNegative);
    CountPermutation(posts, u, IsNeutral);
    CountPermutation(posts, u, Planted);
  }

  lemma PositiveBlockCounts(sh: Shares, draws: Outcomes)
    ensures Count(PositiveBlock(sh, draws), IsPositive) == sh.positive
    ensures Count(PositiveBlock(sh, draws), IsNegative) == 0
    ensures Count(PositiveBlock(sh, draws), IsNeutral) == 0
    ensures Count(PositiveBlock(sh, draws), Planted) == 0
  {
    PositivePostLabels();
    BlockAll(sh.positive, draws.positive, PositivePost, IsPositive);
    BlockNone(sh.positive, draws.positive, PositivePost, IsNegative);
    BlockNone(sh.positive, draws.positive, PositivePost, IsNeutral);
    BlockNone(sh.positive, draws.positive, PositivePost, Planted);
  }

  lemma NegativeBlockCounts(sh: Shares, draws: Outcomes)
    ensures Count(NegativeBlock(sh, draws), IsPositive) == 0
    ensures Count(NegativeBlock(sh, draws), IsNegative) == sh.negative
    ensures Count(NegativeBlock(sh, draws), IsNeutral) == 0
    ensures Count(NegativeBlock(sh, draws), Planted) == 0
  {
    NegativePostLabels();
    BlockNone(sh.negative, draws.negative, NegativePost, IsPositive);
    BlockAll(sh.negative, draws.negative, NegativePost, IsNegative);
    BlockNone(sh.negative, draws.negative, NegativePost, IsNeutral);
    BlockNone(sh.negative, draws.negative, NegativePost, Planted);
  }

  lemma NeutralBlockCounts(sh: Shares, draws: Outcomes)
    ensures Count(NeutralBlock(sh, draws), IsPositive) == 0
    ensures Count(NeutralBlock(sh, draws), IsNegative) == 0
    ensures Count(NeutralBlock(sh, draws), IsNeutral) == sh.neutral
    ensures Count(NeutralBlock(sh, draws), Planted) == 0
  {
    NeutralPostLabels();
    BlockNone(sh.neutral, draws.neutral, NeutralPost, IsPositive);
    BlockNone(sh.neutral, draws.neutral, NeutralPost, IsNegative);
    BlockAll(sh.neutral, draws.neutral, NeutralPost, IsNeutral);
    BlockNone(sh.neutral, draws.neutral, NeutralPost, Planted);
  }

  lemma MisinformationBlockCounts(sh: Shares, draws: Outcomes)
    ensures Count(MisinformationBlock(sh, draws), IsPositive) == 0
    ensures Count(MisinformationBlock(sh, draws), IsNegative) == sh.misinformation
    ensures Count(MisinformationBlock(sh, draws), IsNeutral) == 0
    ensures Count(MisinformationBlock(sh, draws), Planted) == sh.misinformation
  {
    MisinformationPostLabels();
    BlockNone(sh.misinformation, draws.misinformation, MisinformationPost, IsPositive);
    BlockAll(sh.misinformation, draws.misinformation, MisinformationPost, IsNegative);
    BlockNone(sh.misinformation, draws.misinformation, MisinformationPost, IsNeutral);
    BlockAll(sh.misinformation, draws.misinformation, MisinformationPost, Planted);
  }

  /** The counts before the shuffle. */
  lemma UnshuffledLabelCounts(sh: Shares, draws: Outcomes)
    ensures Count(Unshuffled(sh, draws), IsPositive) == sh.positive
    ensures Count(Unshuffled(sh, draws), IsNegative) == sh.negative + sh.misinformation
    ensures Count(Unshuffled(sh, draws), IsNeutral) == sh.neutral
    ensures Count(Unshuffled(sh, draws), Planted) == sh.misinformation
  {
    PositiveBlockCounts(sh, draws);
    NegativeBlockCounts(sh, draws);
    NeutralBlockCounts(sh, draws);
    MisinformationBlockCounts(sh, draws);
    UnshuffledCount(sh, draws, IsPositive);
    UnshuffledCount(sh, draws, IsNegative);
    UnshuffledCount(sh, draws, IsNeutral);
    UnshuffledCount(sh, draws, Planted);
  }

  /** The keys of a generated post: the seven standard ones, plus
      `misinformation_risk: high` on the planted posts. */
  predicate WellKeyed(post: Dict) {
    || (Keys(post) == StandardKeys && !Planted(post))
    || (Keys(post) == StandardKeys + ["misinformation_risk"] && Lookup(post, "misinformation_risk") == Some(Str("high")))
  }

  /** Each of the four generators yields a well-keyed post. */
  lemma GeneratorsWellKeyed()
    ensures forall d :: WellKeyed(PositivePost(d)) && WellKeyed(NegativePost(d))
    ensures forall d :: WellKeyed(NeutralPost(d)) && WellKeyed(MisinformationPost(d))
  {
    PositivePostLabels();
    NegativePostLabels();
    NeutralPostLabels();
  }

  /** A block of a generator whose every post is well keyed holds only
      well-keyed posts. */
  lemma BlockWellKeyed(count: nat, draws: nat -> Draw, gen: Draw -> Dict)
    requires forall d :: WellKeyed(gen(d))
    ensures forall x :: x in Block(count, draws, gen) ==> WellKeyed(x)
  {
  }

  /** Every post of the unshuffled dataset comes from one of the four
      generators, so its keys are as expected. */
  lemma UnshuffledWellKeyed(sh: Shares, draws: Outcomes)
    ensures forall x :: x in Unshuffled(sh, draws) ==> WellKeyed(x)
  {
    GeneratorsWellKeyed();
    BlockWellKeyed(sh.positive, draws.positive, PositivePost);
    BlockWellKeyed(sh.negative, draws.negative, NegativePost);
    BlockWellKeyed(sh.neutral, draws.neutral, NeutralPost);
    BlockWellKeyed(sh.misinformation, draws.misinformation, MisinformationPost);
  }

  /** The shuffle only reorders: a generated post is one of the unshuffled
      ones. */
  lemma GeneratedFromUnshuffled(n: nat, draws: Outcomes, post: Dict)
    requires post in GenerateDataset(n, draws)
    ensures post in Unshuffled(SharesOf(n), draws)
  {
    var posts := GenerateDataset(n, draws);
    assert post in multiset(posts);
    assert post in multiset(Unshuffled(SharesOf(n), draws));
  }

  /** Every generated post has the seven standard keys, and the planted ones
      an eighth, `misinformation_risk`, set to `high`. */
  lemma DatasetKeys(n: nat, draws: Outcomes, post: Dict)
    requires post in GenerateDataset(n, draws)
    ensures WellKeyed(post)
    ensures Planted(post) <==> Keys(post) == StandardKeys + ["misinformation_risk"]
  {
    GeneratedFromUnshuffled(n, draws, post);
    UnshuffledWellKeyed(SharesOf(n), draws);
    assert |StandardKeys| != |StandardKeys + ["misinformation_risk"]|;
  }
}
