/** `calculateClassWeights`: inverse-frequency weights for the three label buckets
    0, 1 and 2, computed over the label array handed to it. Labels are arbitrary
    numbers (they are z-scored before the call), so the model keeps what JavaScript
    does with a label outside the buckets: `classCounts[label]++` on a missing key
    stores NaN, and `NaN || 1` makes the weight of such a label the total. */
module ClassWeights {

  /** A value of the `classCounts` object: a whole count, or the NaN that
      `undefined++` produces. */
  datatype Count = Tally(n: nat) | NotANumber

  /** The keys `classCounts` starts with. */
  predicate IsBucket(key: real) {
    key == 0.0 || key == 1.0 || key == 2.0
  }

  function Occurrences(labels: seq<real>, key: real): nat {
    multiset(labels)[key]
  }

  /** The count stored under `key` after counting `labels`. */
  function CountOf(labels: seq<real>, key: real): Count {
    if IsBucket(key) then Tally(Occurrences(labels, key)) else NotANumber
  }

  /** `count || 1`: zero and NaN are falsy. */
  function CountOrOne(c: Count): (d: nat)
    ensures d >= 1
  {
    match c
    case Tally(n) => if n == 0 then 1 else n
    case NotANumber => 1
  }

  /** The weight the source computes for `key`: `total / count` for a bucket that
      occurs, `total` otherwise. */
  function ClassWeight(labels: seq<real>, key: real): real {
    (|labels| as real) / (CountOrOne(CountOf(labels, key)) as real)
  }

  /** The set of keys of the returned object: the three buckets and every label seen. */
  function WeightKeys(labels: seq<real>): set<real> {
    {0.0, 1.0, 2.0} + Seen(labels)
  }

  function Seen(labels: seq<real>): set<real> {
    set l | l in labels
  }

  method CalculateClassWeights(labels: seq<real>) returns (classWeights: map<real, real>)
    ensures classWeights.Keys == WeightKeys(labels)
    ensures forall key :: key in classWeights ==> classWeights[key] == ClassWeight(labels, key)
  {
    var classCounts, keyOrder := CountLabels(labels);
    var total := |labels|;
    classWeights := map[];
    // `for (let label in classCounts)`, visiting every key once
    for j := 0 to |keyOrder|
      invariant classWeights.Keys == set k | k in keyOrder[..j]
      invariant forall key :: key in classWeights ==> classWeights[key] == ClassWeight(labels, key)
    {
      var key := keyOrder[j];
      classWeights := classWeights[key := (total as real) / (CountOrOne(classCounts[key]) as real)];
      assert keyOrder[..j + 1] == keyOrder[..j] + [key];
    }
    assert keyOrder[..|keyOrder|] == keyOrder;
  }

  /** `classCounts` holds exactly the counts of `labels`. */
  predicate CountsOf(classCounts: map<real, Count>, labels: seq<real>) {
    classCounts.Keys == WeightKeys(labels) &&
    forall key :: key in classCounts ==> classCounts[key] == CountOf(labels, key)
  }

  /** `classCounts[label]++`: a whole count goes up by one; a missing key becomes NaN. */
  function Bumped(classCounts: map<real, Count>, key: real): Count {
    if key in classCounts && classCounts[key].Tally? then Tally(classCounts[key].n + 1) else NotANumber
  }

  /** One more iteration of the counting loop counts one more label. */
  lemma CountOneMore(classCounts: map<real, Count>, labels: seq<real>, i: nat)
    requires i < |labels| && CountsOf(classCounts, labels[..i])
    ensures CountsOf(classCounts[labels[i] := Bumped(classCounts, labels[i])], labels[..i + 1])
  {
    CountOfSnoc(labels, i);
  }

  lemma KeyAppended(keyOrder: seq<real>, key: real)
    ensures (set k | k in keyOrder + [key]) == (set k | k in keyOrder) + {key}
  {
  }

  /** The first loop of `calculateClassWeights`: `classCounts[label]++` for every label.
      `keyOrder` lists the keys of `classCounts` as they were created. */
  method CountLabels(labels: seq<real>) returns (classCounts: map<real, Count>, keyOrder: seq<real>)
    ensures classCounts.Keys == WeightKeys(labels) == set k | k in keyOrder
    ensures forall key :: key in classCounts ==> classCounts[key] == CountOf(labels, key)
  {
    classCounts := map[0.0 := Tally(0), 1.0 := Tally(0), 2.0 := Tally(0)];
    keyOrder := [0.0, 1.0, 2.0];
    assert Seen(labels[..0]) == {};
    for i := 0 to |labels|
      invariant CountsOf(classCounts, labels[..i])
      invariant classCounts.Keys == set k | k in keyOrder
    {
      var key := labels[i];
      var count := if key in classCounts && classCounts[key].Tally?
                   then Tally(classCounts[key].n + 1)
                   else NotANumber;
      assert count == Bumped(classCounts, key);
      if key !in classCounts {
        KeyAppended(keyOrder, key);
        keyOrder := keyOrder + [key];
      }
      CountOneMore(classCounts, labels, i);
      classCounts := classCounts[key := count];
    }
    assert labels[..|labels|] == labels;
  }

  /** Counting one more label changes only that label's count. */
  lemma CountOfSnoc(labels: seq<real>, i: nat)
    requires i < |labels|
    ensures labels[..i + 1] == labels[..i] + [labels[i]]
    ensures Seen(labels[..i + 1]) == Seen(labels[..i]) + {labels[i]}
    ensures forall key :: key != labels[i] ==> CountOf(labels[..i + 1], key) == CountOf(labels[..i], key)
    ensures CountOf(labels[..i + 1], labels[i]) ==
              if IsBucket(labels[i]) then Tally(Occurrences(labels[..i], labels[i]) + 1) else NotANumber
  {
    assert labels[..i + 1] == labels[..i] + [labels[i]];
  }

  /** A label never occurs more often than the array is long. */
  lemma {:induction false} OccurrencesAtMostTotal(labels: seq<real>, key: real)
    ensures Occurrences(labels, key) <= |labels|
  {
    if labels != [] {
      var n := |labels| - 1;
      assert labels == labels[..n] + [labels[n]];
      OccurrencesAtMostTotal(labels[..n], key);
    }
  }

  /** Inverse frequency: for a bucket that occurs, `count * weight == total`, and every
      key of the result has a weight of at least one once there is any label. */
  lemma WeightBalancesCount(labels: seq<real>, key: real)
    ensures IsBucket(key) && Occurrences(labels, key) > 0 ==>
              (Occurrences(labels, key) as real) * ClassWeight(labels, key) == |labels| as real
    ensures labels != [] ==> ClassWeight(labels, key) >= 1.0
    ensures (IsBucket(key) && Occurrences(labels, key) == 0) || !IsBucket(key) ==>
              ClassWeight(labels, key) == |labels| as real
  {
    OccurrencesAtMostTotal(labels, key);
    var c := CountOrOne(CountOf(labels, key)) as real;
    var t := |labels| as real;
    assert ClassWeight(labels, key) == t / c;
    assert c * (t / c) == t;
    if labels != [] {
      assert c <= t;
      QuotientAtLeastOne(t, c);
    }
  }

  /** A whole divided by a positive part no larger than it is at least one. */
  lemma QuotientAtLeastOne(t: real, c: real)
    requires 0.0 < c <= t
    ensures t / c >= 1.0
  {
  }

  /** When every label is a bucket the three counts add up to the total. */
  lemma {:induction false} BucketCountsCoverAll(labels: seq<real>)
    requires forall i :: 0 <= i < |labels| ==> IsBucket(labels[i])
    ensures Occurrences(labels, 0.0) + Occurrences(labels, 1.0) + Occurrences(labels, 2.0) == |labels|
  {
    if labels != [] {
      var n := |labels| - 1;
      assert labels == labels[..n] + [labels[n]];
      BucketCountsCoverAll(labels[..n]);
    }
  }
}
