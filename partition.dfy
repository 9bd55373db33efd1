/** The two ways `AlgorithmService.run` divides the flattened examples into a
    training part and a validation part: a fixed 80 % prefix for the random
    forest, and take / skip / take by caller percentages over the shuffled
    dataset for the classifier. */
module Partition {

  datatype Split<T> = Split(training: seq<T>, validation: seq<T>)

  /** `Math.floor(n * 0.8)`, with exact arithmetic. */
  function ForestSplitIndex(n: nat): (k: nat)
    ensures k == (4 * n) / 5 && k <= n
  {
    ((n as real) * 0.8).Floor
  }

  /** The random-forest split: the first `floor(0.8 n)` items train, the rest validate. */
  function ForestSplit<T>(s: seq<T>): Split<T>
  {
    var k := ForestSplitIndex(|s|);
    Split(s[..k], s[k..])
  }

  /** The forest split is a partition of the sequence by position: the two parts
      concatenate back to it and the training part has `4n/5` items. */
  lemma ForestSplitIsPartition<T>(s: seq<T>)
    ensures ForestSplit(s).training + ForestSplit(s).validation == s
    ensures |ForestSplit(s).training| == (4 * |s|) / 5
    ensures |ForestSplit(s).validation| == |s| - (4 * |s|) / 5
  {
    var k := ForestSplitIndex(|s|);
    assert s[..k] + s[k..] == s;
  }

  /** Splitting the feature column and the label column separately keeps them aligned:
      the j-th training (validation) feature and label come from the same index of the input. */
  lemma ForestSplitAligned<T, U>(xs: seq<T>, ys: seq<U>)
    requires |xs| == |ys|
    ensures |ForestSplit(xs).training| == |ForestSplit(ys).training|
    ensures |ForestSplit(xs).validation| == |ForestSplit(ys).validation|
    ensures forall j :: 0 <= j < |ForestSplit(xs).training| ==>
              ForestSplit(xs).training[j] == xs[j] && ForestSplit(ys).training[j] == ys[j]
    ensures forall j :: 0 <= j < |ForestSplit(xs).validation| ==>
              ForestSplit(xs).validation[j] == xs[ForestSplitIndex(|xs|) + j] &&
              ForestSplit(ys).validation[j] == ys[ForestSplitIndex(|xs|) + j]
  {
  }

  /** `Math.floor(n * (percentage / 100))`, with exact arithmetic. */
  function PercentSize(n: nat, percentage: real): int
  {
    ((n as real) * (percentage / 100.0)).Floor
  }

  /** tf.data `take(count)`: the first `count` items, or all of them when `count` is
      negative or at least the length. */
  function Take<T>(s: seq<T>, count: int): (r: seq<T>)
    ensures r <= s
    ensures |r| == if 0 <= count < |s| then count else |s|
  {
    if 0 <= count < |s| then s[..count] else s
  }

  /** tf.data `skip(count)` for a non-negative count: the items after the first `count`. */
  function Skip<T>(s: seq<T>, count: nat): (r: seq<T>)
    ensures |r| <= |s| && r == s[|s| - |r|..]
    ensures |r| == if count < |s| then |s| - count else 0
  {
    if count < |s| then s[count..] else []
  }

  /** The classifier split over the shuffled dataset:
      `take(trainingSize)` and `skip(trainingSize).take(validationSize)`. */
  function ClassifierSplit<T>(shuffled: seq<T>, trainingPercent: real, validationPercent: real): Split<T>
    requires trainingPercent >= 0.0
  {
    var trainingSize := PercentSize(|shuffled|, trainingPercent);
    var validationSize := PercentSize(|shuffled|, validationPercent);
    Split(Take(shuffled, trainingSize), Take(Skip(shuffled, trainingSize), validationSize))
  }

  /** Floor is super-additive: `floor(a) + floor(b) <= floor(a + b)`. */
  lemma FloorSum(a: real, b: real)
    ensures a.Floor + b.Floor <= (a + b).Floor
  {
    assert (a.Floor as real) <= a && (b.Floor as real) <= b;
    assert ((a.Floor + b.Floor) as real) <= a + b;
  }

  lemma ScaledNonNegative(n: real, p: real)
    requires n >= 0.0 && p >= 0.0
    ensures n * p >= 0.0
  {
  }

  /** `n p + n q` lies in `[0, n]` for non-negative fractions summing to at most one. */
  lemma ScaledBounds(n: real, p: real, q: real)
    requires n >= 0.0 && p >= 0.0 && q >= 0.0 && p + q <= 1.0
    ensures n * p >= 0.0 && n * q >= 0.0 && n * p + n * q <= n
  {
    assert n * p + n * q == n * (p + q);
    assert n * (p + q) <= n * 1.0;
  }

  /** The validation slice starts where the training slice ends: together they are a
      prefix of the shuffled sequence, so no position is used twice. */
  lemma {:induction false} ClassifierSplitIsPrefix<T>(shuffled: seq<T>, trainingPercent: real, validationPercent: real)
    requires trainingPercent >= 0.0
    ensures var p := ClassifierSplit(shuffled, trainingPercent, validationPercent);
            p.training + p.validation <= shuffled &&
            |p.training| == (if PercentSize(|shuffled|, trainingPercent) < |shuffled|
                             then PercentSize(|shuffled|, trainingPercent) else |shuffled|)
  {
    var n := |shuffled|;
    var ts := PercentSize(n, trainingPercent);
    assert ts >= 0 by {
      ScaledNonNegative(n as real, trainingPercent / 100.0);
    }
    var p := ClassifierSplit(shuffled, trainingPercent, validationPercent);
    if ts < n {
      var rest := shuffled[ts..];
      assert p.training == shuffled[..ts];
      assert Skip(shuffled, ts) == rest;
      assert p.validation <= rest;
      assert shuffled == shuffled[..ts] + rest;
    } else {
      assert p.training == shuffled;
      assert p.validation == [];
      assert p.training + p.validation == shuffled;
    }
  }

  /** With the shuffle taken as an arbitrary permutation of the examples, training and
      validation together never use an example more often than it occurs. */
  lemma ClassifierSplitDisjoint<T>(examples: seq<T>, shuffled: seq<T>, trainingPercent: real, validationPercent: real)
    requires trainingPercent >= 0.0
    requires multiset(shuffled) == multiset(examples)
    ensures var p := ClassifierSplit(shuffled, trainingPercent, validationPercent);
            multiset(p.training) + multiset(p.validation) <= multiset(examples)
  {
    var p := ClassifierSplit(shuffled, trainingPercent, validationPercent);
    ClassifierSplitIsPrefix(shuffled, trainingPercent, validationPercent);
    var used := p.training + p.validation;
    assert shuffled == used + shuffled[|used|..];
    assert multiset(shuffled) == multiset(used) + multiset(shuffled[|used|..]);
  }

  /** Sizes: training has `floor(n t / 100)` items and validation `floor(n v / 100)`, and
      together at most `n`, whenever both percentages are non-negative and sum to at most 100. */
  lemma ClassifierSplitSizes<T>(shuffled: seq<T>, trainingPercent: real, validationPercent: real)
    requires trainingPercent >= 0.0 && validationPercent >= 0.0
    requires trainingPercent + validationPercent <= 100.0
    ensures var p := ClassifierSplit(shuffled, trainingPercent, validationPercent);
            |p.training| == PercentSize(|shuffled|, trainingPercent) &&
            |p.validation| == PercentSize(|shuffled|, validationPercent) &&
            |p.training| + |p.validation| <= |shuffled|
  {
    var n := |shuffled|;
    var ts, vs := PercentSize(n, trainingPercent), PercentSize(n, validationPercent);
    assert 0 <= ts && 0 <= vs && ts + vs <= n by {
      var a := (n as real) * (trainingPercent / 100.0);
      var b := (n as real) * (validationPercent / 100.0);
      ScaledBounds(n as real, trainingPercent / 100.0, validationPercent / 100.0);
      FloorSum(a, b);
      assert (a + b).Floor <= n;
    }
    var p := ClassifierSplit(shuffled, trainingPercent, validationPercent);
    assert |p.training| == ts;
    assert |Skip(shuffled, ts)| == n - ts;
  }

  /** When the percentages sum to exactly 100, flooring drops at most one example. */
  lemma ClassifierSplitCoversAllButOne<T>(shuffled: seq<T>, trainingPercent: real)
    requires 0.0 <= trainingPercent <= 100.0
    ensures var p := ClassifierSplit(shuffled, trainingPercent, 100.0 - trainingPercent);
            |shuffled| - 1 <= |p.training| + |p.validation| <= |shuffled|
  {
    var n := |shuffled|;
    var a := (n as real) * (trainingPercent / 100.0);
    var b := (n as real) * ((100.0 - trainingPercent) / 100.0);
    assert a + b == n as real;
    ClassifierSplitSizes(shuffled, trainingPercent, 100.0 - trainingPercent);
    assert a < (a.Floor as real) + 1.0 && b < (b.Floor as real) + 1.0;
  }

  /** The split properties together, for a shuffle of `examples`. */
  lemma ClassifierSplitOfShuffle<T>(examples: seq<T>, shuffled: seq<T>, trainingPercent: real, validationPercent: real)
    requires trainingPercent >= 0.0
    requires multiset(shuffled) == multiset(examples)
    ensures var p := ClassifierSplit(shuffled, trainingPercent, validationPercent);
            var n := |examples|;
            multiset(p.training) + multiset(p.validation) <= multiset(examples) &&
            (validationPercent >= 0.0 && trainingPercent + validationPercent <= 100.0 ==>
               |p.training| == PercentSize(n, trainingPercent) &&
               |p.validation| == PercentSize(n, validationPercent)) &&
            (trainingPercent <= 100.0 && validationPercent == 100.0 - trainingPercent ==>
               n - 1 <= |p.training| + |p.validation| <= n)
  {
    assert |shuffled| == |examples| by {
      assert |multiset(shuffled)| == |multiset(examples)|;
    }
    ClassifierSplitDisjoint(examples, shuffled, trainingPercent, validationPercent);
    if validationPercent >= 0.0 && trainingPercent + validationPercent <= 100.0 {
      ClassifierSplitSizes(shuffled, trainingPercent, validationPercent);
    }
    if trainingPercent <= 100.0 && validationPercent == 100.0 - trainingPercent {
      ClassifierSplitCoversAllButOne(shuffled, trainingPercent);
    }
  }
}
