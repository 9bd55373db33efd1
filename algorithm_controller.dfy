/** `AlgorithmController.run`: maps the display name of the request body to the
    identifier `AlgorithmService.run` understands and forwards the rest unchanged. */
module AlgorithmController {
  import opened Wrappers
  import opened EventLog

  /** The fields of the request body; `algorithmName`, `batchSize` and `trainingRounds`
      are optional. */
  datatype RunBody = RunBody(trainingDataValue: real, validationDataValue: real,
                             algorithmName: Option<string>, batchSize: Option<int>,
                             trainingRounds: Option<int>)

  /** The arguments of the forwarded `algorithmService.run` call, in its parameter order. */
  datatype ServiceCall = ServiceCall(algorithmName: string, algorithmId: string,
                                     trainingDataValue: real, validationDataValue: real,
                                     batchSize: Option<int>, maximumEpochs: Option<int>)

  /** The `switch` on the display name; `None` is the `default: return`. */
  function AlgorithmIdentifier(displayName: Option<string>): (id: Option<string>)
    ensures id == Some("adam") <==> displayName == Some("ADAM Optimizer")
    ensures id == Some("sgd") <==> displayName == Some("SGD Optimizer")
    ensures id == Some("random-forest") <==> displayName == Some("Random Forest Classifier")
    ensures id.Some? ==> id.value in {"adam", "sgd", "random-forest"}
  {
    if displayName == Some("ADAM Optimizer") then Some("adam")
    else if displayName == Some("SGD Optimizer") then Some("sgd")
    else if displayName == Some("Random Forest Classifier") then Some("random-forest")
    else None
  }

  /** The handler: no service call for an unknown or absent name; otherwise one call
      with the identifier and the body's values as given. */
  function Run(algorithmId: string, body: RunBody): (call: Option<ServiceCall>)
    ensures call.None? <==> AlgorithmIdentifier(body.algorithmName).None?
    ensures call.Some? ==>
              call.value.algorithmName == AlgorithmIdentifier(body.algorithmName).value &&
              call.value.algorithmId == algorithmId &&
              call.value.trainingDataValue == body.trainingDataValue &&
              call.value.validationDataValue == body.validationDataValue &&
              call.value.batchSize == body.batchSize &&
              call.value.maximumEpochs == body.trainingRounds
  {
    match AlgorithmIdentifier(body.algorithmName)
    case None => None
    case Some(algorithmName) =>
      Some(ServiceCall(algorithmName, algorithmId, body.trainingDataValue, body.validationDataValue,
                       body.batchSize, body.trainingRounds))
  }

  /** The option values of the settings dropdown of the web client. */
  const DropdownValues: seq<string> := ["ADAM Optimizer", "SGD Optimizer", "Random Forest Classifier"]

  /** Distinct display names reach distinct identifiers, and every dropdown value is
      recognised, so no selection in the client reaches the default branch. */
  lemma IdentifiersDistinctAndOffered(a: Option<string>, b: Option<string>)
    ensures AlgorithmIdentifier(a).Some? && AlgorithmIdentifier(a) == AlgorithmIdentifier(b) ==> a == b
    ensures forall v :: v in DropdownValues ==> AlgorithmIdentifier(Some(v)).Some?
  {
  }

  /** Every identifier the controller forwards is either the random-forest branch or an
      optimizer `getOptimizer` accepts: the service never throws the optimizer error for
      a request that came through the controller. */
  lemma ForwardedNamesAccepted(algorithmId: string, body: RunBody, learningRate: real)
    ensures Run(algorithmId, body).Some? ==>
              Run(algorithmId, body).value.algorithmName == "random-forest" ||
              GetOptimizer(Run(algorithmId, body).value.algorithmName, learningRate).Ok?
  {
  }
}
