/** `AlgorithmService.run`: look up the algorithm, flatten its samples, and either
    fit a random-forest regressor (80 / 20 split, mean squared error) or train the
    classification network (shuffled take / skip split, inverse-frequency class
    weights, best-validation-loss checkpoint, accuracy), then hand an event-log
    record to the log service and return the result.

    The numerical libraries are parameters: a `ForestLibrary` or `NetworkLibrary`
    value fixes what normalisation, training and prediction produce, and the model
    states what `run` does with those results. */
module AlgorithmService {
  import opened Wrappers
  import opened JsNumber
  import opened TrainingData
  import opened Partition
  import opened ClassWeights
  import opened Checkpoint
  import opened Evaluation
  import opened EventLog

  /** What the random-forest library and the max-scaling produce: `scaleX` and `scaleY`
      are `v => v / Math.max(...column)`, `predict` the trained regressor on one input. */
  datatype ForestLibrary = ForestLibrary(scaleX: real -> real, scaleY: real -> real, predict: real -> real)

  /** One dataset element: a normalised timestamp and the normalised label whose one-hot
      row is its target. */
  datatype Example = Example(x: real, target: real)

  /** What the network library produces: the z-score normalisations, the order the
      sort-then-shuffle leaves the elements in, the losses and weights `fitDataset`
      reports per epoch, the class the restored model predicts for an input, the class
      (argmax of the one-hot row) of a label, and the output for the probe input 5. */
  datatype NetworkLibrary = NetworkLibrary(
    scaleX: real -> real,
    scaleY: real -> real,
    shuffled: seq<Example>,
    epochs: seq<EpochEnd>,
    predictClass: real -> int,
    labelClass: real -> int,
    probeOutput: real)

  /** The arguments `run` hands to `fitDataset`. */
  datatype Fit = Fit(training: seq<Example>, validation: seq<Example>, classWeight: map<real, real>,
                     epochs: Option<int>, batchSize: Option<int>)

  /** How `run` ends. `NotFound` is the bare `return` for an unknown id; `Thrown` is the
      optimizer error; `RestoreFailed` is `model.setWeights(undefined)` when no epoch
      set a checkpoint, after all progress events were scheduled; `StackFailed` is
      `tf.stack` of the inputs of an empty validation set, which the library refuses.
      `outputValue` stands for the single prediction in the array `predict` returns. */
  datatype Outcome =
    | NotFound
    | Thrown(message: string)
    | Regression(outputValue: real, meanSquaredError: Num, log: EventLog)
    | RestoreFailed(fit: Fit, progress: seq<Progress>)
    | StackFailed(fit: Fit, progress: seq<Progress>)
    | Classification(outputValue: real, accuracy: Num, log: EventLog, fit: Fit, progress: seq<Progress>)

  /** `column.map(f)`. */
  function Scale(f: real -> real, column: seq<real>): (r: seq<real>)
    ensures |r| == |column|
  {
    seq(|column|, i requires 0 <= i < |column| => f(column[i]))
  }

  /** The `elements` of the classifier branch in flattening order, before sort and shuffle. */
  function Examples(classes: seq<Class>, network: NetworkLibrary): (r: seq<Example>)
    ensures |r| == |ClassSamples(classes)|
  {
    var xs := Scale(network.scaleX, Features(classes));
    var ys := Scale(network.scaleY, Targets(classes));
    seq(|xs|, i requires 0 <= i < |xs| => Example(xs[i], ys[i]))
  }

  /** The argmax of the restored model's predictions over the validation inputs. */
  function PredictedClasses(network: NetworkLibrary, validation: seq<Example>): (r: seq<int>)
    ensures |r| == |validation|
  {
    seq(|validation|, i requires 0 <= i < |validation| => network.predictClass(validation[i].x))
  }

  /** The argmax of the validation targets. */
  function TrueClasses(network: NetworkLibrary, validation: seq<Example>): (r: seq<int>)
    ensures |r| == |validation|
  {
    seq(|validation|, i requires 0 <= i < |validation| => network.labelClass(validation[i].target))
  }

  /** The object `calculateClassWeights` returns, as a map from key to weight. */
  function ClassWeightMap(labels: seq<real>): (m: map<real, real>)
    ensures m.Keys == WeightKeys(labels)
  {
    map key | key in WeightKeys(labels) :: ClassWeight(labels, key)
  }

  /** The random-forest branch. */
  function ForestRun(algorithmId: string, algorithm: Algorithm, algorithmName: string,
                     forest: ForestLibrary): Outcome
  {
    var xs := Scale(forest.scaleX, Features(algorithm.classes));
    var ys := Scale(forest.scaleY, Targets(algorithm.classes));
    var validationData := ForestSplit(xs).validation;
    var validationLabels := ForestSplit(ys).validation;
    var mse := MeanSquaredError(SquaredErrors(forest.predict, validationData, validationLabels), |validationData|);
    Regression(forest.predict(forest.scaleX(5.0)), mse, ForestRecord(algorithmId, algorithm, algorithmName, mse))
  }

  /** The arguments of `fitDataset` in the classifier branch. */
  function ClassifierFit(algorithm: Algorithm, trainingDataValue: real, validationDataValue: real,
                         batchSize: Option<int>, maximumEpochs: Option<int>, network: NetworkLibrary): Fit
    requires trainingDataValue >= 0.0
  {
    var split := ClassifierSplit(network.shuffled, trainingDataValue, validationDataValue);
    Fit(split.training, split.validation, ClassWeightMap(Scale(network.scaleY, Targets(algorithm.classes))),
        maximumEpochs, batchSize)
  }

  /** The classifier branch. */
  function ClassifierRun(algorithmId: string, algorithm: Algorithm, algorithmName: string,
                         trainingDataValue: real, validationDataValue: real,
                         batchSize: Option<int>, maximumEpochs: Option<int>,
                         network: NetworkLibrary): Outcome
    requires trainingDataValue >= 0.0
  {
    var optimizer := GetOptimizer(algorithmName, LearningRate);
    if optimizer.Err? then Thrown(optimizer.message)
    else
      var fit := ClassifierFit(algorithm, trainingDataValue, validationDataValue, batchSize, maximumEpochs, network);
      var split := Split(fit.training, fit.validation);
      var best := BestAfter(network.epochs);
      var progress := ProgressOfEpochs(|network.epochs|, maximumEpochs);
      if best.weights.None? then RestoreFailed(fit, progress)
      else if split.validation == [] then StackFailed(fit, progress)
      else
        var predictionValues := PredictedClasses(network, split.validation);
        var correct := Matches(predictionValues, TrueClasses(network, split.validation));
        var accuracy := Accuracy(correct, |predictionValues|);
        var log := ClassifierRecord(algorithmId, algorithm, algorithmName, accuracy, best.loss,
                                    |predictionValues|, correct, batchSize, maximumEpochs);
        Classification(network.probeOutput, accuracy, log, fit, progress)
  }

  /** The whole of `run`, as a function of its arguments, the stored document and the libraries. */
  function RunResult(algorithmName: string, algorithmId: string, found: Option<Algorithm>,
                     trainingDataValue: real, validationDataValue: real,
                     batchSize: Option<int>, maximumEpochs: Option<int>,
                     forest: ForestLibrary, network: NetworkLibrary): Outcome
    requires trainingDataValue >= 0.0
  {
    if found.None? then NotFound
    else if algorithmName == "random-forest" then ForestRun(algorithmId, found.value, algorithmName, forest)
    else ClassifierRun(algorithmId, found.value, algorithmName, trainingDataValue, validationDataValue,
                       batchSize, maximumEpochs, network)
  }

  /** `run`: the lookup, the flattening loops, then one of the two branches. */
  method Run(algorithmName: string, algorithmId: string, found: Option<Algorithm>,
             trainingDataValue: real, validationDataValue: real,
             batchSize: Option<int>, maximumEpochs: Option<int>,
             forest: ForestLibrary, network: NetworkLibrary) returns (outcome: Outcome)
    requires trainingDataValue >= 0.0
    ensures outcome == RunResult(algorithmName, algorithmId, found, trainingDataValue, validationDataValue,
                                 batchSize, maximumEpochs, forest, network)
  {
    if found.None? {
      return NotFound;
    }
    var algorithm := found.value;
    var xsData, ysData := Flatten(algorithm.classes);
    if algorithmName == "random-forest" {
      outcome := TrainForest(algorithmId, algorithm, algorithmName, xsData, ysData, forest);
    } else {
      outcome := TrainClassifier(algorithmId, algorithm, algorithmName, ysData, trainingDataValue,
                                 validationDataValue, batchSize, maximumEpochs, network);
    }
  }

  /** The random-forest branch, from the flattened columns: the 80 / 20 split, the
      squared-error loop, the mean, and the record. */
  method TrainForest(algorithmId: string, algorithm: Algorithm, algorithmName: string,
                     xsData: seq<real>, ysData: seq<real>, forest: ForestLibrary) returns (outcome: Outcome)
    requires xsData == Features(algorithm.classes) && ysData == Targets(algorithm.classes)
    ensures outcome == ForestRun(algorithmId, algorithm, algorithmName, forest)
  {
    var xs := Scale(forest.scaleX, xsData);
    var ys := Scale(forest.scaleY, ysData);
    var splitIndex := ForestSplitIndex(|xs|);
    var validationData, validationLabels := xs[splitIndex..], ys[splitIndex..];
    var sumSquaredError := SumSquaredError(forest.predict, validationData, validationLabels);
    var meanSquaredError := MeanSquaredError(sumSquaredError, |validationData|);
    var log := ForestRecord(algorithmId, algorithm, algorithmName, meanSquaredError);
    outcome := Regression(forest.predict(forest.scaleX(5.0)), meanSquaredError, log);
  }

  /** The classifier branch, from the flattened labels: the optimizer, the split, the
      class weights, the epochs with their callback, and the accuracy loop. */
  method TrainClassifier(algorithmId: string, algorithm: Algorithm, algorithmName: string,
                         ysData: seq<real>, trainingDataValue: real, validationDataValue: real,
                         batchSize: Option<int>, maximumEpochs: Option<int>,
                         network: NetworkLibrary) returns (outcome: Outcome)
    requires ysData == Targets(algorithm.classes)
    requires trainingDataValue >= 0.0
    ensures outcome == ClassifierRun(algorithmId, algorithm, algorithmName, trainingDataValue,
                                     validationDataValue, batchSize, maximumEpochs, network)
  {
    var optimizer := GetOptimizer(algorithmName, LearningRate);
    if optimizer.Err? {
      return Thrown(optimizer.message);
    }
    var split := ClassifierSplit(network.shuffled, trainingDataValue, validationDataValue);
    var labels := Scale(network.scaleY, ysData);
    var classWeights := CalculateClassWeights(labels);
    assert classWeights == ClassWeightMap(labels);
    var run := new TrainingRun();
    RunEpochs(run, network.epochs, maximumEpochs);
    var fit := Fit(split.training, split.validation, classWeights, maximumEpochs, batchSize);
    if run.bestWeights.None? {
      return RestoreFailed(fit, run.scheduled);
    }
    if |split.validation| == 0 {
      return StackFailed(fit, run.scheduled);
    }
    var predictionValues := PredictedClasses(network, split.validation);
    var trueValues := TrueClasses(network, split.validation);
    var correctPredictions := CountCorrectPredictions(predictionValues, trueValues);
    var accuracy := Accuracy(correctPredictions, |predictionValues|);
    var log := ClassifierRecord(algorithmId, algorithm, algorithmName, accuracy, run.bestValLoss,
                                |predictionValues|, correctPredictions, batchSize, maximumEpochs);
    outcome := Classification(network.probeOutput, accuracy, log, fit, run.scheduled);
  }

  /** The random-forest branch always reports: the output for the probe input, a mean
      squared error that is a non-negative number once there is a sample (NaN for an
      empty document), and a record with the raw identifier and 50 rounds. */
  lemma ForestRunReport(algorithmId: string, algorithm: Algorithm, algorithmName: string, forest: ForestLibrary)
    ensures var o := ForestRun(algorithmId, algorithm, algorithmName, forest);
            o.Regression? && o.outputValue == forest.predict(forest.scaleX(5.0)) &&
            o.log == ForestLog(algorithmId, algorithm, o.meanSquaredError, Some(50), algorithmName) &&
            (DatasetSize(algorithm.classes) > 0 ==> o.meanSquaredError.Finite? && o.meanSquaredError.value >= 0.0) &&
            (DatasetSize(algorithm.classes) == 0 ==> o.meanSquaredError == NaN)
  {
    TraversalSize(algorithm.classes);
    var xs := Scale(forest.scaleX, Features(algorithm.classes));
    var ys := Scale(forest.scaleY, Targets(algorithm.classes));
    ForestSplitIsPartition(xs);
    ForestSplitIsPartition(ys);
    MeanSquaredErrorRange(forest.predict, ForestSplit(xs).validation, ForestSplit(ys).validation);
  }

  /** The regressor trains on `4n/5` rows of the `n` samples: on none exactly when the
      document has fewer than two, where `Math.floor(n * 0.8)` is zero. */
  lemma ForestTrainingRows(algorithm: Algorithm, forest: ForestLibrary)
    ensures var n := DatasetSize(algorithm.classes);
            var split := ForestSplit(Scale(forest.scaleX, Features(algorithm.classes)));
            |split.training| == (4 * n) / 5 && |split.validation| == n - (4 * n) / 5 &&
            (split.training == [] <==> n < 2)
  {
    TraversalSize(algorithm.classes);
    ForestSplitIsPartition(Scale(forest.scaleX, Features(algorithm.classes)));
  }

  /** A found document with a name other than the three identifiers ends in the optimizer
      error, before any training. */
  lemma UnsupportedNameThrows(algorithmName: string, algorithmId: string, algorithm: Algorithm,
                              trainingDataValue: real, validationDataValue: real,
                              batchSize: Option<int>, maximumEpochs: Option<int>,
                              forest: ForestLibrary, network: NetworkLibrary)
    requires trainingDataValue >= 0.0
    ensures RunResult(algorithmName, algorithmId, Some(algorithm), trainingDataValue, validationDataValue,
                      batchSize, maximumEpochs, forest, network).Thrown? <==>
            algorithmName != "random-forest" && algorithmName != "adam" && algorithmName != "sgd"
    ensures algorithmName != "random-forest" && algorithmName != "adam" && algorithmName != "sgd" ==>
            RunResult(algorithmName, algorithmId, Some(algorithm), trainingDataValue, validationDataValue,
                      batchSize, maximumEpochs, forest, network) == Thrown("Unsupported optimizer: " + algorithmName)
  {
  }

  /** The data handed to `fitDataset`: training and validation never use an example more
      often than the document has it, their sizes are the floored percentages, a split of
      `t` and `100 - t` drops at most one example, and the caller's epoch count and batch
      size pass through. */
  lemma ClassifierFitSplit(algorithm: Algorithm, trainingDataValue: real, validationDataValue: real,
                           batchSize: Option<int>, maximumEpochs: Option<int>, network: NetworkLibrary)
    requires trainingDataValue >= 0.0
    requires multiset(network.shuffled) == multiset(Examples(algorithm.classes, network))
    ensures var fit := ClassifierFit(algorithm, trainingDataValue, validationDataValue, batchSize, maximumEpochs, network);
            var n := DatasetSize(algorithm.classes);
            fit.epochs == maximumEpochs && fit.batchSize == batchSize &&
            multiset(fit.training) + multiset(fit.validation) <= multiset(Examples(algorithm.classes, network)) &&
            (validationDataValue >= 0.0 && trainingDataValue + validationDataValue <= 100.0 ==>
               |fit.training| == PercentSize(n, trainingDataValue) &&
               |fit.validation| == PercentSize(n, validationDataValue)) &&
            (trainingDataValue <= 100.0 && validationDataValue == 100.0 - trainingDataValue ==>
               n - 1 <= |fit.training| + |fit.validation| <= n)
  {
    var examples := Examples(algorithm.classes, network);
    TraversalSize(algorithm.classes);
    assert |examples| == DatasetSize(algorithm.classes);
    ClassifierSplitOfShuffle(examples, network.shuffled, trainingDataValue, validationDataValue);
  }

  /** The class weights handed to `fitDataset` cover the three buckets and every
      normalised label, weigh each bucket by inverse frequency over the whole document,
      and are at least one once there is a sample. */
  lemma ClassifierFitWeights(algorithm: Algorithm, trainingDataValue: real, validationDataValue: real,
                             batchSize: Option<int>, maximumEpochs: Option<int>, network: NetworkLibrary,
                             key: real)
    requires trainingDataValue >= 0.0
    ensures var fit := ClassifierFit(algorithm, trainingDataValue, validationDataValue, batchSize, maximumEpochs, network);
            var labels := Scale(network.scaleY, Targets(algorithm.classes));
            {0.0, 1.0, 2.0} <= fit.classWeight.Keys &&
            (key in fit.classWeight <==> IsBucket(key) || key in labels) &&
            (IsBucket(key) && Occurrences(labels, key) > 0 ==>
               fit.classWeight[key] == (DatasetSize(algorithm.classes) as real) / (Occurrences(labels, key) as real)) &&
            (key in fit.classWeight && (!IsBucket(key) || Occurrences(labels, key) == 0) ==>
               fit.classWeight[key] == DatasetSize(algorithm.classes) as real) &&
            (key in fit.classWeight && DatasetSize(algorithm.classes) > 0 ==> fit.classWeight[key] >= 1.0)
  {
    var fit := ClassifierFit(algorithm, trainingDataValue, validationDataValue, batchSize, maximumEpochs, network);
    var labels := Scale(network.scaleY, Targets(algorithm.classes));
    assert fit.classWeight == ClassWeightMap(labels);
    assert |labels| == DatasetSize(algorithm.classes) by {
      TraversalSize(algorithm.classes);
    }
    assert key in fit.classWeight ==> fit.classWeight[key] == ClassWeight(labels, key);
    WeightBalancesCount(labels, key);
  }

  /** For an accepted optimizer, the run trains on `ClassifierFit` and reports the
      progress events of its epochs; with a checkpoint set, it stops at `tf.stack`
      exactly when the validation set is empty. */
  lemma ClassifierRunFits(algorithmId: string, algorithm: Algorithm, algorithmName: string,
                          trainingDataValue: real, validationDataValue: real,
                          batchSize: Option<int>, maximumEpochs: Option<int>, network: NetworkLibrary)
    requires algorithmName == "adam" || algorithmName == "sgd"
    requires trainingDataValue >= 0.0
    ensures var o := ClassifierRun(algorithmId, algorithm, algorithmName, trainingDataValue,
                                   validationDataValue, batchSize, maximumEpochs, network);
            (o.RestoreFailed? || o.StackFailed? || o.Classification?) &&
            (o.StackFailed? <==> BestAfter(network.epochs).weights.Some? && o.fit.validation == []) &&
            o.fit == ClassifierFit(algorithm, trainingDataValue, validationDataValue, batchSize, maximumEpochs, network) &&
            o.progress == ProgressOfEpochs(|network.epochs|, maximumEpochs)
  {
  }

  /** For an accepted optimizer, the checkpoint: the run fails to restore exactly when no
      epoch's loss was below `+Infinity`; otherwise the logged loss is a number no
      higher than any epoch's loss that is a number. With an epoch count of `t` and at most
      `t + 1` epochs, every epoch scheduled one progress event carrying its index and `t`. */
  lemma ClassifierRunCheckpoint(algorithmId: string, algorithm: Algorithm, algorithmName: string,
                                trainingDataValue: real, validationDataValue: real,
                                batchSize: Option<int>, maximumEpochs: Option<int>, network: NetworkLibrary)
    requires algorithmName == "adam" || algorithmName == "sgd"
    requires trainingDataValue >= 0.0
    ensures var o := ClassifierRun(algorithmId, algorithm, algorithmName, trainingDataValue,
                                   validationDataValue, batchSize, maximumEpochs, network);
            var epochs := network.epochs;
            (o.RestoreFailed? <==> forall k :: 0 <= k < |epochs| ==> !Less(epochs[k].valLoss, PosInf)) &&
            (o.Classification? ==>
               o.log.loss != NaN &&
               forall k :: 0 <= k < |epochs| && epochs[k].valLoss != NaN ==> AtMost(o.log.loss, epochs[k].valLoss)) &&
            (maximumEpochs.Some? && |epochs| <= maximumEpochs.value + 1 ==>
               |o.progress| == |epochs| &&
               forall k :: 0 <= k < |epochs| ==> o.progress[k] == Progress(k, maximumEpochs.value))
  {
    var epochs := network.epochs;
    var o := ClassifierRun(algorithmId, algorithm, algorithmName, trainingDataValue,
                           validationDataValue, batchSize, maximumEpochs, network);
    assert o.RestoreFailed? <==> BestAfter(epochs).weights.None?;
    assert o.Classification? ==> o.log.loss == BestAfter(epochs).loss;
    assert o.progress == ProgressOfEpochs(|epochs|, maximumEpochs);
    BestIsFirstAttained(epochs);
    BestAfterConsistent(epochs);
    forall k | 0 <= k < |epochs| && epochs[k].valLoss != NaN
      ensures AtMost(BestAfter(epochs).loss, epochs[k].valLoss)
    {
      BestIsLowest(epochs, k);
    }
    if maximumEpochs.Some? && |epochs| <= maximumEpochs.value + 1 {
      ProgressOnePerEpoch(|epochs|, maximumEpochs.value);
    }
  }

  /** Counting over the validation examples: the count is at most their number, equals it
      exactly when every predicted class is the true class, and gives an accuracy in
      `[0, 1]` (NaN for no examples). */
  lemma ValidationCount(network: NetworkLibrary, validation: seq<Example>)
    ensures var predictionValues := PredictedClasses(network, validation);
            var correct := Matches(predictionValues, TrueClasses(network, validation));
            correct <= |validation| &&
            (correct == |validation| <==>
               forall i :: 0 <= i < |validation| ==>
                 network.predictClass(validation[i].x) == network.labelClass(validation[i].target)) &&
            (validation != [] ==> Accuracy(correct, |predictionValues|).Finite? &&
                                  0.0 <= Accuracy(correct, |predictionValues|).value <= 1.0) &&
            (validation == [] ==> Accuracy(correct, |predictionValues|) == NaN)
  {
    var predictionValues := PredictedClasses(network, validation);
    var trueValues := TrueClasses(network, validation);
    assert forall i :: 0 <= i < |validation| ==>
             predictionValues[i] == network.predictClass(validation[i].x) &&
             trueValues[i] == network.labelClass(validation[i].target);
    MatchesExtremes(predictionValues, trueValues);
    AccuracyRange(predictionValues, trueValues);
  }

  /** For an accepted optimizer and a restored checkpoint, the validation set is not
      empty, the reported accuracy is the share of validation examples whose predicted
      class is their true class (a number in `[0, 1]`), and the
      record counts the same predictions, names the optimizer capitalized and passes the
      caller's settings through. */
  lemma ClassifierRunAccuracy(algorithmId: string, algorithm: Algorithm, algorithmName: string,
                              trainingDataValue: real, validationDataValue: real,
                              batchSize: Option<int>, maximumEpochs: Option<int>, network: NetworkLibrary)
    requires algorithmName == "adam" || algorithmName == "sgd"
    requires trainingDataValue >= 0.0
    ensures var o := ClassifierRun(algorithmId, algorithm, algorithmName, trainingDataValue,
                                   validationDataValue, batchSize, maximumEpochs, network);
            var validation := o.fit.validation;
            var correct := Matches(PredictedClasses(network, validation), TrueClasses(network, validation));
            o.Classification? ==>
              validation != [] &&
              o.accuracy.Finite? && 0.0 <= o.accuracy.value <= 1.0 &&
              o.outputValue == network.probeOutput &&
              o.accuracy == o.log.accuracy == Accuracy(correct, |validation|) &&
              o.log.totalPredictions == |validation| && o.log.correctPredictions == correct &&
              o.log.loss == BestAfter(network.epochs).loss &&
              o.log.trainingAlgorithm == (if algorithmName == "adam" then "Adam" else "Sgd") &&
              o.log.batches == batchSize && o.log.trainingRounds == maximumEpochs
  {
    CapitalizedOptimizerNames();
    var o := ClassifierRun(algorithmId, algorithm, algorithmName, trainingDataValue,
                           validationDataValue, batchSize, maximumEpochs, network);
    if o.Classification? {
      ValidationCount(network, o.fit.validation);
    }
  }
}
