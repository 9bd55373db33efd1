/** The per-epoch bookkeeping of the classifier's training run: the progress
    emission `sendProgress` schedules and the best-validation-loss checkpoint
    (`bestValLoss`, `bestWeights`) that the `onEpochEnd` callback updates. */
module Checkpoint {
  import opened Wrappers
  import opened JsNumber

  /** The parameters `model.getWeights()` returns; their content is the library's. */
  type Weights = seq<real>

  /** What the training library hands to `onEpochEnd`: the epoch's validation loss,
      and the weights the model holds at that moment. */
  datatype EpochEnd = EpochEnd(valLoss: Num, weights: Weights)

  /** One progress event handed to the gateway. */
  datatype Progress = Progress(epoch: int, totalEpochs: int)

  /** `sendProgress`: schedules an event only when `currentEpoch <= totalEpochs`; an
      absent total (`undefined`) makes the comparison false. */
  function SendProgress(currentEpoch: int, totalEpochs: Option<int>): seq<Progress>
  {
    if totalEpochs.Some? && currentEpoch <= totalEpochs.value
    then [Progress(currentEpoch, totalEpochs.value)]
    else []
  }

  /** The events scheduled by the first `count` epochs (numbered from 0), in order. */
  function ProgressOfEpochs(count: nat, totalEpochs: Option<int>): seq<Progress>
  {
    if count == 0 then [] else ProgressOfEpochs(count - 1, totalEpochs) + SendProgress(count - 1, totalEpochs)
  }

  /** With a total of `t` and at most `t + 1` epochs, every epoch emits exactly one event,
      carrying its own index and the unchanged total. */
  lemma {:induction false} ProgressOnePerEpoch(count: nat, t: int)
    requires count <= t + 1
    ensures |ProgressOfEpochs(count, Some(t))| == count
    ensures forall k :: 0 <= k < count ==> ProgressOfEpochs(count, Some(t))[k] == Progress(k, t)
  {
    if count > 0 {
      ProgressOnePerEpoch(count - 1, t);
    }
  }

  /** Without a total, nothing is ever emitted; and no event ever carries an epoch past its total. */
  lemma {:induction false} ProgressGuarded(count: nat, totalEpochs: Option<int>)
    ensures totalEpochs.None? ==> ProgressOfEpochs(count, totalEpochs) == []
    ensures forall e :: e in ProgressOfEpochs(count, totalEpochs) ==>
              totalEpochs == Some(e.totalEpochs) && 0 <= e.epoch <= e.totalEpochs && e.epoch < count
  {
    if count > 0 {
      ProgressGuarded(count - 1, totalEpochs);
    }
  }

  /** The checkpoint `(bestValLoss, bestWeights)`; `weights == None` is the unset `bestWeights`. */
  datatype Best = Best(loss: Num, weights: Option<Weights>)

  /** The callback's comparison: replace the checkpoint only on a strictly lower loss. */
  function Improve(b: Best, e: EpochEnd): Best
  {
    if Less(e.valLoss, b.loss) then Best(e.valLoss, Some(e.weights)) else b
  }

  /** The checkpoint after the given epochs, starting from `+Infinity` and no weights. */
  function BestAfter(epochs: seq<EpochEnd>): Best
  {
    if epochs == [] then Best(PosInf, None)
    else Improve(BestAfter(epochs[..|epochs| - 1]), epochs[|epochs| - 1])
  }

  /** The checkpoint is never NaN, and it holds weights exactly when its loss is finite
      or minus infinity. */
  predicate Consistent(b: Best)
  {
    b.loss != NaN && (b.weights.None? <==> b.loss == PosInf)
  }

  lemma {:induction false} BestAfterConsistent(epochs: seq<EpochEnd>)
    ensures Consistent(BestAfter(epochs))
  {
    if epochs != [] {
      BestAfterConsistent(epochs[..|epochs| - 1]);
    }
  }

  /** The best loss never increases from one epoch to the next, and so over any span of epochs. */
  lemma {:induction false} BestNonIncreasing(epochs: seq<EpochEnd>, i: nat, j: nat)
    requires i <= j <= |epochs|
    ensures AtMost(BestAfter(epochs[..j]).loss, BestAfter(epochs[..i]).loss)
  {
    BestAfterConsistent(epochs[..i]);
    BestAfterConsistent(epochs[..j]);
    if i < j {
      BestNonIncreasing(epochs, i, j - 1);
      assert epochs[..j][..j - 1] == epochs[..j - 1];
      BestAfterConsistent(epochs[..j - 1]);
      AtMostTrans(BestAfter(epochs[..j]).loss, BestAfter(epochs[..j - 1]).loss, BestAfter(epochs[..i]).loss);
    }
  }

  /** The final best loss is at most every loss seen that is a number. */
  lemma {:induction false} BestIsLowest(epochs: seq<EpochEnd>, k: nat)
    requires k < |epochs| && epochs[k].valLoss != NaN
    ensures AtMost(BestAfter(epochs).loss, epochs[k].valLoss)
  {
    var n := |epochs| - 1;
    assert epochs[..n + 1] == epochs;
    BestAfterConsistent(epochs[..n]);
    BestAfterConsistent(epochs);
    if k == n {
      LessIsStrictOrder(epochs[n].valLoss, BestAfter(epochs[..n]).loss, PosInf);
    } else {
      assert epochs[..n][k] == epochs[k];
      BestIsLowest(epochs[..n], k);
      BestNonIncreasing(epochs, n, n + 1);
      AtMostTrans(BestAfter(epochs).loss, BestAfter(epochs[..n]).loss, epochs[k].valLoss);
    }
  }

  /** The saved weights are those of the first epoch that reached the best loss, and they
      stay unset exactly when no epoch's loss was below `+Infinity`. */
  lemma {:induction false} BestIsFirstAttained(epochs: seq<EpochEnd>)
    ensures BestAfter(epochs).weights.None? <==> forall k :: 0 <= k < |epochs| ==> !Less(epochs[k].valLoss, PosInf)
    ensures BestAfter(epochs).weights.Some? ==>
              exists k :: 0 <= k < |epochs| && epochs[k].valLoss == BestAfter(epochs).loss &&
                          BestAfter(epochs).weights == Some(epochs[k].weights) &&
                          forall j :: 0 <= j < k ==> epochs[j].valLoss != BestAfter(epochs).loss
  {
    if epochs != [] {
      var n := |epochs| - 1;
      var prefix := epochs[..n];
      assert forall k :: 0 <= k < n ==> prefix[k] == epochs[k];
      BestIsFirstAttained(prefix);
      BestAfterConsistent(prefix);
      var before := BestAfter(prefix);
      if Less(epochs[n].valLoss, before.loss) {
        forall j | 0 <= j < n
          ensures epochs[j].valLoss != epochs[n].valLoss
        {
          if epochs[j].valLoss == epochs[n].valLoss {
            BestIsLowest(prefix, j);
            LessIsStrictOrder(epochs[n].valLoss, before.loss, before.loss);
          }
        }
      } else if before.weights.Some? {
        var k :| 0 <= k < n && prefix[k].valLoss == before.loss &&
                 before.weights == Some(prefix[k].weights) &&
                 forall j :: 0 <= j < k ==> prefix[j].valLoss != before.loss;
        assert epochs[k] == prefix[k];
      } else {
        assert before.loss == PosInf;
      }
    }
  }

  /** The state the `onEpochEnd` callback closes over, and the events it has scheduled. */
  class TrainingRun {
    var bestValLoss: Num
    var bestWeights: Option<Weights>
    var scheduled: seq<Progress>

    ghost predicate Valid()
      reads this
    {
      Consistent(Best(bestValLoss, bestWeights))
    }

    /** `let bestValLoss = Number.POSITIVE_INFINITY; let bestWeights;` */
    constructor ()
      ensures Valid()
      ensures bestValLoss == PosInf && bestWeights == None && scheduled == []
    {
      bestValLoss := PosInf;
      bestWeights := None;
      scheduled := [];
    }

    /** `onEpochEnd`: schedule the progress event, then keep the checkpoint if the
        epoch's validation loss is strictly lower. */
    method OnEpochEnd(epoch: int, maximumEpochs: Option<int>, logs: EpochEnd)
      requires Valid()
      modifies this
      ensures Valid()
      ensures scheduled == old(scheduled) + SendProgress(epoch, maximumEpochs)
      ensures Best(bestValLoss, bestWeights) == Improve(old(Best(bestValLoss, bestWeights)), logs)
    {
      scheduled := scheduled + SendProgress(epoch, maximumEpochs);
      if Less(logs.valLoss, bestValLoss) {
        bestValLoss := logs.valLoss;
        bestWeights := Some(logs.weights);
      }
    }
  }

  /** The epochs of `fitDataset` driving the callback, once per epoch in order. */
  method RunEpochs(run: TrainingRun, epochs: seq<EpochEnd>, maximumEpochs: Option<int>)
    requires run.Valid() && run.bestValLoss == PosInf && run.bestWeights == None && run.scheduled == []
    modifies run
    ensures run.Valid()
    ensures Best(run.bestValLoss, run.bestWeights) == BestAfter(epochs)
    ensures run.scheduled == ProgressOfEpochs(|epochs|, maximumEpochs)
  {
    for e := 0 to |epochs|
      invariant run.Valid()
      invariant Best(run.bestValLoss, run.bestWeights) == BestAfter(epochs[..e])
      invariant run.scheduled == ProgressOfEpochs(e, maximumEpochs)
    {
      run.OnEpochEnd(e, maximumEpochs, epochs[e]);
      assert epochs[..e + 1][..e] == epochs[..e];
    }
    assert epochs[..|epochs|] == epochs;
  }
}
