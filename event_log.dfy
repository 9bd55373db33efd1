/** Optimizer dispatch and the record a training run hands to the event-log service. */
module EventLog {
  import opened Wrappers
  import opened JsNumber
  import opened TrainingData

  /** The learning rate `run` passes to `getOptimizer`. */
  const LearningRate: real := 0.001

  /** The number of estimators of the random-forest options, logged as its training rounds. */
  const ForestEstimators: int := 50

  /** The optimizer objects of the training library, identified by kind and learning rate. */
  datatype Optimizer = Adam(learningRate: real) | Sgd(learningRate: real)

  /** `getOptimizer`: exactly `"adam"` and `"sgd"` are accepted; anything else throws
      `Unsupported optimizer: <name>`. */
  function GetOptimizer(algorithmName: string, learningRate: real): (r: Result<Optimizer>)
    ensures r.Ok? <==> algorithmName == "adam" || algorithmName == "sgd"
    ensures r.Ok? ==> r.value.learningRate == learningRate
    ensures r.Ok? ==> (r.value.Adam? <==> algorithmName == "adam")
    ensures r.Err? ==> r.message == "Unsupported optimizer: " + algorithmName
  {
    if algorithmName == "adam" then Ok(Adam(learningRate))
    else if algorithmName == "sgd" then Ok(Sgd(learningRate))
    else Err("Unsupported optimizer: " + algorithmName)
  }

  /** `toUpperCase` of one character, for the ASCII letters. */
  function UpperCase(c: char): char
  {
    if 'a' <= c <= 'z' then (c as int - 32) as char else c
  }

  /** `name.charAt(0).toUpperCase() + name.slice(1)`; the empty name stays empty. */
  function Capitalize(name: string): (r: string)
    ensures |r| == |name|
    ensures 0 < |name| ==> r[1..] == name[1..] && r[0] == UpperCase(name[0])
  {
    if name == [] then [] else [UpperCase(name[0])] + name[1..]
  }

  /** Capitalizing twice is capitalizing once, and only a leading lowercase letter changes. */
  lemma CapitalizeIdempotent(name: string)
    ensures Capitalize(Capitalize(name)) == Capitalize(name)
    ensures Capitalize(name) == name <==> (name == [] || !('a' <= name[0] <= 'z'))
  {
    if name != [] {
      assert Capitalize(Capitalize(name))[1..] == name[1..];
      if 'a' <= name[0] <= 'z' {
        assert Capitalize(name)[0] != name[0];
      }
    }
  }

  /** The identifiers the classifier branch accepts are logged as `Adam` and `Sgd`. */
  lemma CapitalizedOptimizerNames()
    ensures Capitalize("adam") == "Adam"
    ensures Capitalize("sgd") == "Sgd"
  {
    assert Capitalize("adam") == ['A'] + "dam";
    assert Capitalize("sgd") == ['S'] + "gd";
  }

  /** The two shapes of the event-log record: a random-forest run logs the mean squared
      error; a classifier run logs accuracy, the best validation loss and its settings. */
  datatype EventLog =
    | ForestLog(algorithmId: string, algorithm: Algorithm, mse: Num, trainingRounds: Option<int>,
                trainingAlgorithm: string)
    | ClassifierLog(algorithmId: string, algorithm: Algorithm, accuracy: Num, loss: Num,
                    totalPredictions: nat, correctPredictions: nat, batches: Option<int>,
                    trainingRounds: Option<int>, trainingAlgorithm: string)

  /** The random-forest record: the raw identifier and the estimator count as rounds. */
  function ForestRecord(algorithmId: string, algorithm: Algorithm, algorithmName: string, mse: Num): (log: EventLog)
    ensures log.ForestLog? && log.trainingRounds == Some(50) && log.trainingAlgorithm == algorithmName
    ensures log.algorithmId == algorithmId && log.algorithm == algorithm && log.mse == mse
  {
    ForestLog(algorithmId, algorithm, mse, Some(ForestEstimators), algorithmName)
  }

  /** The classifier record: the capitalized identifier, the caller's batch size and epoch
      count as given, and the predictions counted over the validation set. */
  function ClassifierRecord(algorithmId: string, algorithm: Algorithm, algorithmName: string,
                            accuracy: Num, bestValLoss: Num, totalPredictions: nat,
                            correctPredictions: nat, batchSize: Option<int>,
                            maximumEpochs: Option<int>): (log: EventLog)
    ensures log.ClassifierLog? && log.trainingAlgorithm == Capitalize(algorithmName)
    ensures log.loss == bestValLoss && log.batches == batchSize && log.trainingRounds == maximumEpochs
    ensures log.totalPredictions == totalPredictions && log.correctPredictions == correctPredictions
    ensures log.algorithmId == algorithmId && log.algorithm == algorithm && log.accuracy == accuracy
  {
    ClassifierLog(algorithmId, algorithm, accuracy, bestValLoss, totalPredictions,
                  correctPredictions, batchSize, maximumEpochs, Capitalize(algorithmName))
  }
}
