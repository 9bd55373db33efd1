/** The stored algorithm document and the flattening of its class, specimen and
    sample hierarchy into the two aligned number sequences that training uses
    (`xsData` and `ysData` in `AlgorithmService.run`). */
module TrainingData {

  /** One recorded sample: the feature (a timestamp) and the target (a gas resistance). */
  datatype Sample = Sample(realTimeClock: real, resistanceGasSensor: real)

  /** A labelled stretch of a recording; only its samples matter to training. */
  datatype Specimen = Specimen(specificData: seq<Sample>)

  datatype Class = Class(name: string, color: string, specimens: seq<Specimen>)

  /** The algorithm document as stored: a name and its ordered classes. */
  datatype Algorithm = Algorithm(name: string, classes: seq<Class>)

  /** The samples of a sequence of specimens, specimen after specimen. */
  function SpecimenSamples(specimens: seq<Specimen>): seq<Sample>
  {
    if specimens == [] then [] else specimens[0].specificData + SpecimenSamples(specimens[1..])
  }

  /** The samples of a sequence of classes, class after class: the traversal order. */
  function ClassSamples(classes: seq<Class>): seq<Sample>
  {
    if classes == [] then [] else SpecimenSamples(classes[0].specimens) + ClassSamples(classes[1..])
  }

  /** The number of samples in a sequence of specimens, counted independently of the traversal. */
  function SpecimenSize(specimens: seq<Specimen>): nat
  {
    if specimens == [] then 0 else |specimens[|specimens| - 1].specificData| + SpecimenSize(specimens[..|specimens| - 1])
  }

  function DatasetSize(classes: seq<Class>): nat
  {
    if classes == [] then 0 else SpecimenSize(classes[|classes| - 1].specimens) + DatasetSize(classes[..|classes| - 1])
  }

  lemma {:induction false} SpecimenSamplesAppend(a: seq<Specimen>, b: seq<Specimen>)
    ensures SpecimenSamples(a + b) == SpecimenSamples(a) + SpecimenSamples(b)
  {
    if a == [] {
      assert a + b == b;
    } else {
      assert (a + b)[1..] == a[1..] + b;
      SpecimenSamplesAppend(a[1..], b);
    }
  }

  lemma {:induction false} ClassSamplesAppend(a: seq<Class>, b: seq<Class>)
    ensures ClassSamples(a + b) == ClassSamples(a) + ClassSamples(b)
  {
    if a == [] {
      assert a + b == b;
    } else {
      assert (a + b)[1..] == a[1..] + b;
      ClassSamplesAppend(a[1..], b);
    }
  }

  /** Appending one specimen to the traversed prefix appends exactly its samples. */
  lemma SpecimenSamplesSnoc(specimens: seq<Specimen>, k: nat)
    requires k < |specimens|
    ensures SpecimenSamples(specimens[..k + 1]) == SpecimenSamples(specimens[..k]) + specimens[k].specificData
  {
    assert specimens[..k + 1] == specimens[..k] + [specimens[k]];
    SpecimenSamplesAppend(specimens[..k], [specimens[k]]);
    assert SpecimenSamples([specimens[k]]) == specimens[k].specificData + SpecimenSamples([]);
  }

  lemma ClassSamplesSnoc(classes: seq<Class>, k: nat)
    requires k < |classes|
    ensures ClassSamples(classes[..k + 1]) == ClassSamples(classes[..k]) + SpecimenSamples(classes[k].specimens)
  {
    assert classes[..k + 1] == classes[..k] + [classes[k]];
    ClassSamplesAppend(classes[..k], [classes[k]]);
    assert ClassSamples([classes[k]]) == SpecimenSamples(classes[k].specimens) + ClassSamples([]);
  }

  /** Every sample contributes exactly one pair: the traversal has as many entries as
      the dataset has samples. */
  lemma {:induction false} TraversalSize(classes: seq<Class>)
    ensures |ClassSamples(classes)| == DatasetSize(classes)
  {
    if classes != [] {
      var n := |classes| - 1;
      assert classes == classes[..n] + [classes[n]];
      ClassSamplesAppend(classes[..n], [classes[n]]);
      assert ClassSamples([classes[n]]) == SpecimenSamples(classes[n].specimens) + ClassSamples([]);
      TraversalSize(classes[..n]);
      SpecimenTraversalSize(classes[n].specimens);
    }
  }

  lemma {:induction false} SpecimenTraversalSize(specimens: seq<Specimen>)
    ensures |SpecimenSamples(specimens)| == SpecimenSize(specimens)
  {
    if specimens != [] {
      var n := |specimens| - 1;
      assert specimens == specimens[..n] + [specimens[n]];
      SpecimenSamplesAppend(specimens[..n], [specimens[n]]);
      assert SpecimenSamples([specimens[n]]) == specimens[n].specificData + SpecimenSamples([]);
      SpecimenTraversalSize(specimens[..n]);
    }
  }

  /** No filtering: every sample of every specimen of every class occurs in the traversal. */
  lemma {:induction false} TraversalContainsEverySample(classes: seq<Class>, c: nat, s: nat, k: nat)
    requires c < |classes| && s < |classes[c].specimens| && k < |classes[c].specimens[s].specificData|
    ensures classes[c].specimens[s].specificData[k] in ClassSamples(classes)
  {
    if c == 0 {
      SpecimenContainsEverySample(classes[0].specimens, s, k);
    } else {
      TraversalContainsEverySample(classes[1..], c - 1, s, k);
    }
  }

  lemma {:induction false} SpecimenContainsEverySample(specimens: seq<Specimen>, s: nat, k: nat)
    requires s < |specimens| && k < |specimens[s].specificData|
    ensures specimens[s].specificData[k] in SpecimenSamples(specimens)
  {
    if s > 0 {
      SpecimenContainsEverySample(specimens[1..], s - 1, k);
    }
  }

  /** The clocks of a sequence of samples, in order. */
  function Clocks(samples: seq<Sample>): (xs: seq<real>)
    ensures |xs| == |samples|
  {
    if samples == [] then [] else Clocks(samples[..|samples| - 1]) + [samples[|samples| - 1].realTimeClock]
  }

  /** The resistances of a sequence of samples, in order. */
  function Resistances(samples: seq<Sample>): (ys: seq<real>)
    ensures |ys| == |samples|
  {
    if samples == [] then [] else Resistances(samples[..|samples| - 1]) + [samples[|samples| - 1].resistanceGasSensor]
  }

  lemma {:induction false} ColumnsAt(samples: seq<Sample>)
    ensures forall i :: 0 <= i < |samples| ==> Clocks(samples)[i] == samples[i].realTimeClock && Resistances(samples)[i] == samples[i].resistanceGasSensor
  {
    if samples != [] {
      ColumnsAt(samples[..|samples| - 1]);
    }
  }

  /** The feature column: every sample's clock, in traversal order. */
  function Features(classes: seq<Class>): (xs: seq<real>)
    ensures |xs| == |ClassSamples(classes)|
    ensures forall i :: 0 <= i < |xs| ==> xs[i] == ClassSamples(classes)[i].realTimeClock
  {
    ColumnsAt(ClassSamples(classes));
    Clocks(ClassSamples(classes))
  }

  /** The target column: every sample's resistance, in traversal order. */
  function Targets(classes: seq<Class>): (ys: seq<real>)
    ensures |ys| == |ClassSamples(classes)|
    ensures forall i :: 0 <= i < |ys| ==> ys[i] == ClassSamples(classes)[i].resistanceGasSensor
  {
    ColumnsAt(ClassSamples(classes));
    Resistances(ClassSamples(classes))
  }

  /** Both columns distribute over concatenation of the samples. */
  lemma ColumnsAppend(a: seq<Sample>, b: seq<Sample>)
    ensures Clocks(a + b) == Clocks(a) + Clocks(b)
    ensures Resistances(a + b) == Resistances(a) + Resistances(b)
  {
    ColumnsAt(a + b); ColumnsAt(a); ColumnsAt(b);
    assert forall i :: 0 <= i < |a + b| ==> Clocks(a + b)[i] == (Clocks(a) + Clocks(b))[i];
    assert forall i :: 0 <= i < |a + b| ==> Resistances(a + b)[i] == (Resistances(a) + Resistances(b))[i];
  }

  /** The innermost push loop: one specimen's samples appended to both columns. */
  method PushSamples(xsData: seq<real>, ysData: seq<real>, samples: seq<Sample>) returns (xs: seq<real>, ys: seq<real>)
    ensures xs == xsData + Clocks(samples) && ys == ysData + Resistances(samples)
  {
    xs, ys := xsData, ysData;
    for k := 0 to |samples|
      invariant xs == xsData + Clocks(samples[..k]) && ys == ysData + Resistances(samples[..k])
    {
      assert samples[..k + 1][..k] == samples[..k];
      xs := xs + [samples[k].realTimeClock];
      ys := ys + [samples[k].resistanceGasSensor];
    }
    assert samples[..|samples|] == samples;
  }

  /** Pushing a further run of samples onto columns that hold `done` gives the columns of
      `done + samples`. */
  lemma PushedColumns(xsData: seq<real>, ysData: seq<real>, done: seq<Sample>, samples: seq<Sample>)
    ensures xsData + Clocks(done) + Clocks(samples) == xsData + Clocks(done + samples)
    ensures ysData + Resistances(done) + Resistances(samples) == ysData + Resistances(done + samples)
  {
    ColumnsAppend(done, samples);
  }

  /** The middle push loop: one class's specimens appended to both columns. */
  method PushSpecimens(xsData: seq<real>, ysData: seq<real>, specimens: seq<Specimen>) returns (xs: seq<real>, ys: seq<real>)
    ensures xs == xsData + Clocks(SpecimenSamples(specimens)) && ys == ysData + Resistances(SpecimenSamples(specimens))
  {
    xs, ys := xsData, ysData;
    for s := 0 to |specimens|
      invariant xs == xsData + Clocks(SpecimenSamples(specimens[..s]))
      invariant ys == ysData + Resistances(SpecimenSamples(specimens[..s]))
    {
      var samples := specimens[s].specificData;
      SpecimenSamplesSnoc(specimens, s);
      PushedColumns(xsData, ysData, SpecimenSamples(specimens[..s]), samples);
      xs, ys := PushSamples(xs, ys, samples);
    }
    assert specimens[..|specimens|] == specimens;
  }

  /** The nested push loops of `run`: `xsData[i]` and `ysData[i]` are the clock and the
      resistance of the i-th sample in class, then specimen, then sample order. */
  method Flatten(classes: seq<Class>) returns (xsData: seq<real>, ysData: seq<real>)
    ensures xsData == Features(classes) && ysData == Targets(classes)
  {
    xsData, ysData := [], [];
    for c := 0 to |classes|
      invariant xsData == Clocks(ClassSamples(classes[..c])) && ysData == Resistances(ClassSamples(classes[..c]))
    {
      ClassSamplesSnoc(classes, c);
      ColumnsAppend(ClassSamples(classes[..c]), SpecimenSamples(classes[c].specimens));
      xsData, ysData := PushSpecimens(xsData, ysData, classes[c].specimens);
    }
    assert classes[..|classes|] == classes;
  }
}
