# Algoxpert training runs and recording import, modelled in Dafny

Algoxpert lets a user record gas-sensor sessions, cut them into labelled specimens,
and train a model on the specimens of an algorithm: a neural classifier optimised
with Adam or SGD, or a random-forest regressor. This project models the parts of that
system that are logic rather than plumbing:

- **The training run** (`AlgorithmService.run` of the API). The stored document is
  flattened into a feature column (sample clocks) and a target column (gas
  resistances). The random-forest branch trains on the first 80 % and reports the mean
  squared error on the rest. The classifier branch picks the optimizer, splits the
  shuffled examples by the caller's percentages with take / skip / take, computes
  inverse-frequency class weights over all labels, keeps the weights of the epoch with
  the lowest validation loss, schedules one progress event per epoch, and counts correct
  predictions. Both branches build an event-log record. TensorFlow, the random-forest
  library and the normalisations are parameters (`ForestLibrary`, `NetworkLibrary`).
  The model states what `run` does with whatever they produce.
- **The controller** in front of it. It maps the three display names of the web client
  to `adam`, `sgd` and `random-forest`, and forwards the request unchanged.
- **The import of a recording** in the web client. For each step index it selects the
  rows of one sensor and cuts them into one specimen per run of equal label tags. The
  cursor carries over from one step to the next. Specimens are deduplicated through a
  map keyed by their serialisation, sorted by start and end time, and filtered against
  their predecessor with a one-second threshold. Each kept specimen is then given the
  step's readings inside its interval.

Numbers follow JavaScript where it matters. `JsNumber.Num` adds `Infinity`,
`-Infinity` and `NaN` to exact reals, so a document without samples gives the
random-forest branch a mean squared error of `NaN`, as `0 / 0` does. In the classifier
branch an empty validation set never reaches the accuracy division: `tf.stack` of no
tensors fails first (line 324), modelled as the outcome `StackFailed`. The checkpoint compares with
`<` the way JavaScript does, where NaN compares false. Integers are unbounded and reals
are exact.

Modules, by source file:

| module | file | models |
|---|---|---|
| `Wrappers`, `JsNumber` | `wrappers.dfy`, `js_number.dfy` | option/result values, JavaScript's number line and division |
| `TrainingData` | `training_data.dfy` | the stored document and the flattening loops |
| `Partition` | `partition.dfy` | the two train/validation splits |
| `ClassWeights` | `class_weights.dfy` | `calculateClassWeights` |
| `Checkpoint` | `checkpoint.dfy` | `sendProgress` and the `onEpochEnd` checkpoint (`TrainingRun` class) |
| `Evaluation` | `evaluation.dfy` | correct-prediction count, accuracy, squared errors, MSE |
| `EventLog` | `event_log.dfy` | `getOptimizer`, name capitalisation, the two record shapes |
| `AlgorithmService` | `algorithm_service.dfy` | `run` end to end, and its properties |
| `AlgorithmController` | `algorithm_controller.dfy` | the display-name switch and forwarding |
| `Segmentation` | `segmentation.dfy` | row selection, run segmentation, the specimen map |
| `SpecimenOrder` | `specimen_order.dfy` | sort, near-duplicate filter, `specificData` assignment |
| `ImportData` | `import_data.dfy` | the step loop of the import effect |

Two behaviours of the code that the contracts make visible:

- **Previous-element comparison.** The near-duplicate filter compares each specimen with
  the element before it in the *unfiltered* sorted list. Kept specimens therefore start
  more than a second apart (`SpecimenOrder.KeptStartsSeparated`), but two kept specimens
  can end at the same second (`SpecimenOrder.KeptEndsMayCoincide`).
- **Cursor carried across steps.** The open specimen carries over from step to step. A
  step therefore lists the specimen left open by the step before, even when that step
  has no readings (`ImportData.EmptyStepListsOpenSpecimen`,
  `ImportData.CursorContinuesAcrossSteps`).

The code does not round the split sizes, guard the mean squared error against an
empty validation set, turn away a document without samples, or guard the
normalisations; neither does the model:

- Split sizes use `Math.floor`, not rounding.
- The MSE of an empty validation set is `NaN`; the classifier's accuracy has no guard
  either, but `tf.stack` fails before it is computed.
- A document with no samples is not turned away before training.
- No normalisation guard exists for a zero-variance or non-positive column.

## Model

| member | source | states |
|---|---|---|
| `TrainingData.Flatten` | api-app/src/algorithm/services/algorithm.service.ts:64-73 | the three nested push loops produce exactly the feature and target columns of the traversal |
| `TrainingData.PushSpecimens` | api-app/src/algorithm/services/algorithm.service.ts:66-72 | the middle loop appends the columns of one class's specimens to what was pushed before |
| `TrainingData.PushSamples` | api-app/src/algorithm/services/algorithm.service.ts:67-71 | the inner loop appends one specimen's clocks and resistances to what was pushed before |
| `TrainingData.Clocks` | api-app/src/algorithm/services/algorithm.service.ts:69 | one entry per sample, entry i the clock of sample i |
| `TrainingData.Resistances` | api-app/src/algorithm/services/algorithm.service.ts:70 | one entry per sample, entry i the resistance of sample i |
| `TrainingData.ColumnsAppend` | api-app/src/algorithm/services/algorithm.service.ts:64-73 | both columns of concatenated samples are the concatenated columns |
| `TrainingData.TraversalSize` | api-app/src/algorithm/services/algorithm.service.ts:64-73 | the traversal has exactly as many entries as the document has samples, counted independently |
| `TrainingData.TraversalContainsEverySample` | api-app/src/algorithm/services/algorithm.service.ts:66-71 | no filtering: every sample of every specimen of every class occurs in the traversal |
| `TrainingData.Features` | api-app/src/algorithm/services/algorithm.service.ts:69 | `xsData` has one entry per traversed sample, entry i the clock of the i-th sample in class, specimen, sample order |
| `TrainingData.Targets` | api-app/src/algorithm/services/algorithm.service.ts:70 | `ysData` has one entry per traversed sample, entry i the resistance of the i-th sample in that order |
| `Partition.ForestSplitIndex` | api-app/src/algorithm/services/algorithm.service.ts:82 | `floor(0.8 n)` equals the integer quotient `4n / 5` and never exceeds n |
| `Partition.ForestSplit` | api-app/src/algorithm/services/algorithm.service.ts:82-88 | the first `floor(0.8 n)` items of a column train and the rest validate; `ForestSplitIsPartition` and `ForestSplitAligned` prove this an aligned partition |
| `Partition.ForestSplitIsPartition` | api-app/src/algorithm/services/algorithm.service.ts:82-88 | training followed by validation is exactly the column, with `4n / 5` items in training |
| `Partition.ForestSplitAligned` | api-app/src/algorithm/services/algorithm.service.ts:83-88 | data and labels split at the same index stay aligned position by position |
| `Partition.PercentSize` | api-app/src/algorithm/services/algorithm.service.ts:203-206 | `Math.floor(n * (p / 100))` in exact arithmetic; `ClassifierSplitSizes` gives the resulting sizes |
| `Partition.Take` | api-app/src/algorithm/services/algorithm.service.ts:209 | `take` yields a prefix; its length is the count, or the whole sequence past the end or for a negative count |
| `Partition.Skip` | api-app/src/algorithm/services/algorithm.service.ts:210 | `skip` yields the suffix after the count, empty past the end |
| `Partition.ClassifierSplit` | api-app/src/algorithm/services/algorithm.service.ts:203-210 | `take(trainingSize)` and `skip(trainingSize).take(validationSize)` of the shuffled dataset; the four lemmas below state prefix, no overuse, sizes and coverage |
| `Partition.ClassifierSplitIsPrefix` | api-app/src/algorithm/services/algorithm.service.ts:203-210 | validation starts where training ends: training plus validation is a prefix of the shuffled sequence |
| `Partition.ClassifierSplitDisjoint` | api-app/src/algorithm/services/algorithm.service.ts:199-210 | for a shuffle that permutes the examples, training and validation together use no example more often than it occurs |
| `Partition.ClassifierSplitSizes` | api-app/src/algorithm/services/algorithm.service.ts:203-210 | with non-negative percentages summing to at most 100, the parts have `floor(n t / 100)` and `floor(n v / 100)` items and together at most n |
| `Partition.ClassifierSplitCoversAllButOne` | api-app/src/algorithm/services/algorithm.service.ts:203-210 | percentages t and 100 - t leave out at most one example |
| `Partition.ClassifierSplitOfShuffle` | api-app/src/algorithm/services/algorithm.service.ts:199-210 | for a permutation of n examples: no example overused, the floored sizes of n, and at most one dropped for t and 100 - t |
| `ClassWeights.CountOrOne` | api-app/src/algorithm/services/algorithm.service.ts:379 | `count \|\| 1` is at least one, for a zero and for a NaN count |
| `ClassWeights.CountOneMore` | api-app/src/algorithm/services/algorithm.service.ts:369-371 | one `classCounts[label]++` turns the counts of a prefix into the counts of the prefix one longer |
| `ClassWeights.CountLabels` | api-app/src/algorithm/services/algorithm.service.ts:366-371 | the counts have keys 0, 1, 2 and every label seen; a bucket holds its number of occurrences, any other key NaN |
| `ClassWeights.CalculateClassWeights` | api-app/src/algorithm/services/algorithm.service.ts:364-383 | the weights have exactly the keys of the counts, and each is the total divided by `count \|\| 1` |
| `ClassWeights.WeightBalancesCount` | api-app/src/algorithm/services/algorithm.service.ts:374-380 | count times weight is the total for a bucket that occurs; a weight is at least one for non-empty labels; an absent bucket or a non-bucket label weighs the total |
| `ClassWeights.OccurrencesAtMostTotal` | api-app/src/algorithm/services/algorithm.service.ts:369-374 | no label occurs more often than the array is long |
| `ClassWeights.BucketCountsCoverAll` | api-app/src/algorithm/services/algorithm.service.ts:366-371 | when every label is 0, 1 or 2 the three counts add up to the total |
| `Checkpoint.SendProgress` | api-app/src/algorithm/services/algorithm.service.ts:385-394 | one call schedules a single `{ epoch, totalEpochs }` event when a total is given and the epoch is at most it, and none otherwise; `ProgressOnePerEpoch` and `ProgressGuarded` state what this gives over a run |
| `Checkpoint.ProgressOnePerEpoch` | api-app/src/algorithm/services/algorithm.service.ts:385-394 | with a total t and at most t + 1 epochs, epoch k schedules exactly one event `{ epoch: k, totalEpochs: t }` |
| `Checkpoint.ProgressGuarded` | api-app/src/algorithm/services/algorithm.service.ts:385-394 | no total means no event; every event carries the unchanged total and an epoch between 0 and that total |
| `Checkpoint.Improve` | api-app/src/algorithm/services/algorithm.service.ts:227-230 | one callback's update: the epoch's loss and weights replace the checkpoint when that loss is `<` the best loss, otherwise the checkpoint is kept |
| `Checkpoint.BestAfter` | api-app/src/algorithm/services/algorithm.service.ts:221-230 | the checkpoint after a sequence of epochs, starting from `+Infinity` and no weights; `BestAfterConsistent`, `BestNonIncreasing`, `BestIsLowest` and `BestIsFirstAttained` state what it holds |
| `Checkpoint.BestAfterConsistent` | api-app/src/algorithm/services/algorithm.service.ts:221-230 | the best loss is never NaN, and weights are saved exactly when it is below `+Infinity` |
| `Checkpoint.BestNonIncreasing` | api-app/src/algorithm/services/algorithm.service.ts:227-230 | the best loss never increases from an earlier epoch to a later one |
| `Checkpoint.BestIsLowest` | api-app/src/algorithm/services/algorithm.service.ts:227-230 | the final best loss is at most every epoch loss that is a number |
| `Checkpoint.BestIsFirstAttained` | api-app/src/algorithm/services/algorithm.service.ts:221-230 | the saved weights are those of the first epoch reaching the best loss, and stay unset exactly when no loss was below `+Infinity` |
| `Checkpoint.TrainingRun.constructor` | api-app/src/algorithm/services/algorithm.service.ts:221-222 | the checkpoint starts at `+Infinity` without weights and nothing is scheduled |
| `Checkpoint.TrainingRun.OnEpochEnd` | api-app/src/algorithm/services/algorithm.service.ts:225-231 | the callback appends the guarded progress event and replaces the checkpoint only on a strictly lower loss |
| `Checkpoint.RunEpochs` | api-app/src/algorithm/services/algorithm.service.ts:224-253 | after the epochs the checkpoint is `BestAfter` of their losses and the scheduled events are one guarded event per epoch in order |
| `JsNumber.Divide` | api-app/src/algorithm/services/algorithm.service.ts:112 | division by a non-zero number is the exact quotient; `0 / 0` is NaN and another number over zero is infinite |
| `JsNumber.DivideFraction` | api-app/src/algorithm/services/algorithm.service.ts:342 | a part over a positive whole is a finite number between 0 and 1 |
| `JsNumber.LessIsStrictOrder` | api-app/src/algorithm/services/algorithm.service.ts:227 | `<` is irreflexive, asymmetric and transitive, NaN included |
| `Evaluation.CountCorrectPredictions` | api-app/src/algorithm/services/algorithm.service.ts:332-337 | the counter is the number of indices where prediction and true class agree, at most the number of predictions |
| `Evaluation.MatchesExtremes` | api-app/src/algorithm/services/algorithm.service.ts:332-337 | the count equals the total exactly when every prediction is right and is zero exactly when none is |
| `Evaluation.MatchesAppend` | api-app/src/algorithm/services/algorithm.service.ts:333-337 | counting over two aligned pieces adds their counts |
| `Evaluation.Accuracy` | api-app/src/algorithm/services/algorithm.service.ts:342 | `correctPredictions / predictionValues.length` in JavaScript division; `AccuracyRange` bounds it |
| `Evaluation.AccuracyRange` | api-app/src/algorithm/services/algorithm.service.ts:342 | accuracy is a number in [0, 1] for a non-empty validation set and NaN for an empty one |
| `Evaluation.SevenOfTen` | api-app/src/algorithm/services/algorithm.service.ts:332-342 | seven agreeing predictions out of ten give an accuracy of 0.7 |
| `Evaluation.SumSquaredError` | api-app/src/algorithm/services/algorithm.service.ts:104-109 | the accumulator is the sum of squared prediction errors and is never negative |
| `Evaluation.SquaredErrorsZero` | api-app/src/algorithm/services/algorithm.service.ts:104-109 | the sum is non-negative and is zero when every prediction is exact |
| `Evaluation.MeanSquaredError` | api-app/src/algorithm/services/algorithm.service.ts:112 | `sumSquaredError / validationData.length` in JavaScript division; `MeanSquaredErrorRange` bounds it |
| `Evaluation.MeanSquaredErrorRange` | api-app/src/algorithm/services/algorithm.service.ts:112 | the MSE is a non-negative number for a non-empty validation set and NaN for an empty one |
| `Evaluation.MeanOfTwo` | api-app/src/algorithm/services/algorithm.service.ts:104-112 | predictions 2 and 4 against labels 1 and 4 give an MSE of 0.5 |
| `EventLog.GetOptimizer` | api-app/src/algorithm/services/algorithm.service.ts:37-45 | exactly `adam` and `sgd` yield an optimizer of that kind with the given rate; anything else fails with `Unsupported optimizer: <name>` |
| `EventLog.Capitalize` | api-app/src/algorithm/services/algorithm.service.ts:354 | the length is kept, only the first character is upper-cased, the rest is unchanged |
| `EventLog.CapitalizeIdempotent` | api-app/src/algorithm/services/algorithm.service.ts:354 | capitalising twice is capitalising once; a name is unchanged exactly when it does not start with a lowercase letter |
| `EventLog.CapitalizedOptimizerNames` | api-app/src/algorithm/services/algorithm.service.ts:353-354 | `adam` is logged as `Adam` and `sgd` as `Sgd` |
| `EventLog.ForestRecord` | api-app/src/algorithm/services/algorithm.service.ts:114-120 | the random-forest record has the raw name, 50 training rounds and the MSE |
| `EventLog.ClassifierRecord` | api-app/src/algorithm/services/algorithm.service.ts:344-355 | the classifier record has the capitalised name, the best loss, the counts and the caller's batch size and epochs |
| `AlgorithmService.ClassWeightMap` | api-app/src/algorithm/services/algorithm.service.ts:245 | the weights passed to training have the keys of `calculateClassWeights` over every label |
| `AlgorithmService.RunResult` | api-app/src/algorithm/services/algorithm.service.ts:47-361 | the whole of `run` as a value: not found for a missing document, the forest branch for `random-forest`, the classifier branch otherwise |
| `AlgorithmService.ForestRun` | api-app/src/algorithm/services/algorithm.service.ts:76-125 | the forest branch: scale, split 80 / 20, predict the probe, sum squared errors, divide, build the record; `ForestRunReport` and `ForestTrainingRows` state its properties |
| `AlgorithmService.ClassifierFit` | api-app/src/algorithm/services/algorithm.service.ts:196-252 | the arguments of `fitDataset`: the two parts of the shuffled split, the class weights of all labels, the caller's epochs and batch size; `ClassifierFitSplit` and `ClassifierFitWeights` state their properties |
| `AlgorithmService.ClassifierRun` | api-app/src/algorithm/services/algorithm.service.ts:158-361 | the classifier branch: optimizer error, fit, checkpoint, restore, `tf.stack`, count and record; `ClassifierRunFits`, `ClassifierRunCheckpoint` and `ClassifierRunAccuracy` state its properties |
| `AlgorithmService.Run` | api-app/src/algorithm/services/algorithm.service.ts:47-361 | the method's outcome is `RunResult`: not found, the forest result, the optimizer error, a failed restore, a failed `tf.stack` of an empty validation set, or the classifier result |
| `AlgorithmService.TrainForest` | api-app/src/algorithm/services/algorithm.service.ts:76-125 | the random-forest branch, step by step, equals `ForestRun` |
| `AlgorithmService.TrainClassifier` | api-app/src/algorithm/services/algorithm.service.ts:158-361 | the classifier branch, step by step, equals `ClassifierRun` |
| `AlgorithmService.ForestRunReport` | api-app/src/algorithm/services/algorithm.service.ts:76-125 | the forest branch returns the probe prediction, logs the raw name with 50 rounds, and its MSE is a non-negative number, or NaN for a document without samples |
| `AlgorithmService.ForestTrainingRows` | api-app/src/algorithm/services/algorithm.service.ts:82-98 | the regressor trains on `4n/5` of the n samples and validates on the rest; it trains on no rows exactly when the document has fewer than two samples |
| `AlgorithmService.UnsupportedNameThrows` | api-app/src/algorithm/services/algorithm.service.ts:37-45 | a found document ends in the optimizer error exactly when the name is none of the three identifiers |
| `AlgorithmService.ClassifierFitSplit` | api-app/src/algorithm/services/algorithm.service.ts:196-210 | training and validation overuse no example, have the floored sizes, drop at most one example for t and 100 - t, and carry the caller's epochs and batch size |
| `AlgorithmService.ClassifierFitWeights` | api-app/src/algorithm/services/algorithm.service.ts:237-252 | the class weights cover 0, 1, 2 and every label seen, a present bucket weighs total / count over the whole document, others weigh the total, and all weigh at least one |
| `AlgorithmService.ClassifierRunFits` | api-app/src/algorithm/services/algorithm.service.ts:245-329 | for `adam` and `sgd` the run trains on `ClassifierFit` and reports the progress of its epochs; with a checkpoint set it fails at `tf.stack` exactly when the validation set is empty |
| `AlgorithmService.ClassifierRunCheckpoint` | api-app/src/algorithm/services/algorithm.service.ts:221-256 | restoring fails exactly when no loss was below `+Infinity`; otherwise the logged loss is a number no higher than any numeric epoch loss; one progress event per epoch |
| `AlgorithmService.ValidationCount` | api-app/src/algorithm/services/algorithm.service.ts:320-342 | the count is at most the validation size, equals it exactly when every predicted class is the true class, and the accuracy formula gives a number in [0, 1] for a non-empty set (NaN for an empty one, which the run never divides) |
| `AlgorithmService.ClassifierRunAccuracy` | api-app/src/algorithm/services/algorithm.service.ts:311-361 | the classifier result has a non-empty validation set, returns the probe output and the accuracy of the validation count, a number in [0, 1], and logs the counts, the best loss, `Adam` / `Sgd` and the caller's settings |
| `AlgorithmController.AlgorithmIdentifier` | api-app/src/algorithm/controllers/algorithm.controller.ts:21-34 | each identifier is reached from exactly its display name; anything else, or no name, reaches none |
| `AlgorithmController.Run` | api-app/src/algorithm/controllers/algorithm.controller.ts:20-44 | no service call for an unrecognised name; otherwise one call with the identifier and the id, percentages, batch size and rounds unchanged, in order |
| `AlgorithmController.IdentifiersDistinctAndOffered` | api-app/src/algorithm/controllers/algorithm.controller.ts:22-31 | distinct recognised names give distinct identifiers, and every value of the settings dropdown is recognised |
| `AlgorithmController.ForwardedNamesAccepted` | api-app/src/algorithm/controllers/algorithm.controller.ts:22-43 | every forwarded identifier is `random-forest` or accepted by `getOptimizer` |
| `Segmentation.StepReadings` | web-app/src/components/import-data.component.tsx:116-122 | the rows of the sensor at that step, in order, as readings of columns 3, 7 and 10; `StepReadingsAppend` and `StepReadingsMembers` state its order and members |
| `Segmentation.StepReadingsAppend` | web-app/src/components/import-data.component.tsx:116-122 | selection keeps input order: it distributes over concatenation |
| `Segmentation.StepReadingsMembers` | web-app/src/components/import-data.component.tsx:116-122 | a reading is selected exactly when a row of that sensor and step maps to it through columns 3, 7 and 10 |
| `Segmentation.Store` | web-app/src/components/import-data.component.tsx:136-138 | setting a specimen keeps earlier entries in order, adds it at most once, and keeps the map duplicate-free |
| `Segmentation.Feed` | web-app/src/components/import-data.component.tsx:131-147 | one `forEach` iteration: a new label (or no open specimen) stores the open specimen and opens one at the reading's clock; the same label moves the end to the reading's clock |
| `Segmentation.FeedAll` | web-app/src/components/import-data.component.tsx:130-148 | the `forEach` over a step's readings in order; `FeedAllSegments` gives its result independently |
| `Segmentation.Close` | web-app/src/components/import-data.component.tsx:150-155 | the final `set` of the open specimen, if any, into the map |
| `Segmentation.SegmentStep` | web-app/src/components/import-data.component.tsx:128-155 | the loop over a step's readings and the final `set` produce `FeedAll` and `Close` of the inherited cursor, and the map holds the step's segments, each stored once in order |
| `Segmentation.RunLength` | web-app/src/components/import-data.component.tsx:130-148 | the run at the front is maximal: all its readings share the first label and the next reading does not |
| `Segmentation.Runs` | web-app/src/components/import-data.component.tsx:130-148 | the maximal runs, one specimen each from its first to its last clock; none for no readings; neighbouring runs have different labels |
| `Segmentation.StoreAll` | web-app/src/components/import-data.component.tsx:136-138 | storing in turn keeps what was stored, holds exactly the stored and the new specimens, and stays duplicate-free |
| `Segmentation.FeedAllAppend` | web-app/src/components/import-data.component.tsx:130-148 | the `forEach` over two pieces in turn is the `forEach` over their concatenation |
| `Segmentation.SegmentsContinue` | web-app/src/components/import-data.component.tsx:131-147 | a reading that continues the open specimen's label leaves the remaining segments unchanged |
| `Segmentation.RunsFromFirst` | web-app/src/components/import-data.component.tsx:140-147 | a fresh specimen at the first reading, segmented onwards, gives the maximal runs |
| `Segmentation.FeedAllSegments` | web-app/src/components/import-data.component.tsx:128-155 | for any cursor and map, the map after the loop and the final `set` is `StoreAll` of the segments: the inherited specimen, extended over a first run with its label and keeping its start, then every maximal run |
| `Segmentation.FeedAllKeepsShape` | web-app/src/components/import-data.component.tsx:128-155 | the map never holds a specimen twice and neither it nor the cursor holds readings |
| `Segmentation.FeedAllFinalRun` | web-app/src/components/import-data.component.tsx:130-148 | a specimen begins where the label differs from the cursor's (or there is none) and runs from its first reading's clock to its last's |
| `Segmentation.FeedAllLastLabel` | web-app/src/components/import-data.component.tsx:140-147 | after a reading the open specimen has its label and ends at its clock |
| `Segmentation.FeedAllContinues` | web-app/src/components/import-data.component.tsx:108-148 | readings with the open specimen's label extend it, keep its start and store nothing |
| `SpecimenOrder.SortByTime` | web-app/src/components/import-data.component.tsx:159-166 | insertion sort by start then end time; `SortByTimeCorrect` and `SortByTimeStable` state order, permutation and stability |
| `SpecimenOrder.InsertPermutes` | web-app/src/components/import-data.component.tsx:159-166 | inserting adds exactly the one specimen to the multiset |
| `SpecimenOrder.ConsSorted` | web-app/src/components/import-data.component.tsx:159-166 | a specimen not after any element of a sorted list can head it |
| `SpecimenOrder.InsertSorted` | web-app/src/components/import-data.component.tsx:159-166 | inserting into a sorted list keeps it sorted and adds exactly the one specimen |
| `SpecimenOrder.SortByTimeCorrect` | web-app/src/components/import-data.component.tsx:159-166 | the sort orders by start time then end time and is a permutation |
| `SpecimenOrder.SortByTimeStable` | web-app/src/components/import-data.component.tsx:159-166 | specimens with equal start and end times keep their input order, as the stable `Array.prototype.sort` keeps them |
| `SpecimenOrder.KeptPrefix` | web-app/src/components/import-data.component.tsx:167-183 | the filter over the first n elements, each tested against its unfiltered predecessor; `KeptPrefixMembers` states which survive |
| `SpecimenOrder.DropNearDuplicates` | web-app/src/components/import-data.component.tsx:167-183 | the filter over the whole sorted list |
| `SpecimenOrder.KeptPrefixMembers` | web-app/src/components/import-data.component.tsx:167-183 | a specimen survives exactly when it sits first or far apart from its unfiltered predecessor |
| `SpecimenOrder.FarApartInSeconds` | web-app/src/components/import-data.component.tsx:170-180 | more than 1000 ms apart means more than one whole second apart, in both start and end |
| `SpecimenOrder.KeptStartsSeparated` | web-app/src/components/import-data.component.tsx:159-183 | on the sorted list each kept specimen starts more than a second after the previous kept one |
| `SpecimenOrder.KeptEndsMayCoincide` | web-app/src/components/import-data.component.tsx:167-183 | a sorted list on which two kept specimens end at the same second |
| `SpecimenOrder.Within` | web-app/src/components/import-data.component.tsx:191-197 | the step's readings whose clock lies in the closed interval, in order; `WithinMembers` and `WithinAppend` state its members and order |
| `SpecimenOrder.WithinMembers` | web-app/src/components/import-data.component.tsx:191-197 | a reading is assigned exactly when it is a step reading with clock in [start, end] inclusive |
| `SpecimenOrder.WithinAppend` | web-app/src/components/import-data.component.tsx:191-197 | the assigned readings keep the step's order |
| `SpecimenOrder.WithSpecificData` | web-app/src/components/import-data.component.tsx:186-200 | assignment keeps the number of specimens and each one's label, start and end |
| `SpecimenOrder.WithSpecificDataReadings` | web-app/src/components/import-data.component.tsx:186-200 | each specimen receives exactly the step's readings inside its own closed interval |
| `SpecimenOrder.AssignSpecificData` | web-app/src/components/import-data.component.tsx:186-200 | each specimen gets the readings of its interval and keeps its label, start and end |
| `ImportData.SeriesOf` | web-app/src/components/import-data.component.tsx:202-210 | a chart trace has one point per reading of the step: its clock and its resistance |
| `ImportData.StepCount` | web-app/src/components/import-data.component.tsx:111-115 | the number of iterations of `for (let i = 1; i <= maxStepIndex; i++)`: the largest step index when it is positive, otherwise zero (no rows, or no positive index) |
| `ImportData.MaxStepIndex` | web-app/src/components/import-data.component.tsx:111-113 | the largest step index of all rows, attained by a row; none for no rows |
| `ImportData.Chart` | web-app/src/components/import-data.component.tsx:202-210 | k traces for steps 1..k, trace i drawn from the readings of step i + 1 |
| `ImportData.ProcessStep` | web-app/src/components/import-data.component.tsx:128-200 | one step: segment from the inherited cursor, close, sort, filter, and assign each kept specimen its readings |
| `ImportData.AfterSteps` | web-app/src/components/import-data.component.tsx:115-211 | the cursor and listed specimens after steps 1..k, each step fed the cursor the previous one left |
| `ImportData.ImportStep` | web-app/src/components/import-data.component.tsx:128-200 | one pass of the step loop yields the cursor and the listed specimens of `ProcessStep` |
| `ImportData.ImportRecording` | web-app/src/components/import-data.component.tsx:104-220 | one chart trace per step 1..max, trace i from step i; the listed specimens are those after the last step, and their count |
| `ImportData.ListedReadings` | web-app/src/components/import-data.component.tsx:186-200 | each listed specimen's readings are exactly the step's readings in its closed interval |
| `ImportData.ListedFromLastStep` | web-app/src/components/import-data.component.tsx:184-218 | what is listed is what the last step lists from its own readings; with no step nothing is listed |
| `ImportData.ListedSeparated` | web-app/src/components/import-data.component.tsx:157-184 | the listed specimens are in time order, starts more than a second apart, none twice |
| `ImportData.StartsIncrease` | web-app/src/components/import-data.component.tsx:159-183 | increasing consecutive starts give increasing starts at any two positions |
| `ImportData.CursorContinuesAcrossSteps` | web-app/src/components/import-data.component.tsx:108-148 | a step whose readings all carry the open specimen's label extends it, keeping its start |
| `ImportData.EmptyStepListsOpenSpecimen` | web-app/src/components/import-data.component.tsx:151-155 | a step without readings lists the specimen left open before, with no readings |
| `ImportData.StepMapsDuplicateFree` | web-app/src/components/import-data.component.tsx:128-155 | every step's map is duplicate-free and holds no readings, and neither does the cursor |

## Left out

- TensorFlow and ml-random-forest are not modelled: model construction, `compile`, `fitDataset`, `predict`, `oneHot`, `argMax`, and `RandomForestRegression` training and prediction. They are foreign library calls. What they produce (per-epoch losses and weights, predicted classes, the class of a label, probe outputs) is given by the `ForestLibrary` and `NetworkLibrary` parameters.
- The z-score and max-scaling normalisations are floating-point numerics and are parameters (`scaleX`, `scaleY`). The model does not guard a zero variance or a non-positive maximum, and neither does the code.
- Arithmetic is exact. IEEE-754 rounding can make `Math.floor(n * (t / 100))` one lower than the exact floor, e.g. n = 100 and t = 29.
- The sort at line 193 is deterministic and the shuffle after it is random. Their combined effect is modelled as any permutation of the examples: the `multiset` precondition of the split lemmas. Re-shuffling on each epoch is not modelled. The split is taken once.
- `AlgorithmService.Run`: requires a non-negative `trainingDataValue`. tf.data's `skip` on a negative count is not modelled. The web client sends a slider value between 0 and 100.
- `AlgorithmService.ClassifierRun`: a missing checkpoint ends in `RestoreFailed`. This assumes the library's `setWeights(undefined)` throws; its message is not modelled.
- How many epochs `fitDataset` runs, and its checks of `epochs` and `batchSize`, belong to the library. The epochs are the given `epochs` sequence.
- The `ysTensor.rank` check (lines 237-242) is not modelled. A flat array always has rank 1, so the `console.error` branch never runs.
- Console output (`console.log`, `output.print`) is not modelled.
- The Mongo lookup is the `found` parameter. The event-log write's persistence and the `await`s are not modelled. The record is part of the outcome.
- The one-second `setTimeout` and the socket broadcast of progress events are not modelled. Events are the sequence in scheduling order, without delivery timing.
- `EventLog.Capitalize`: upper-cases ASCII letters only. JavaScript's `toUpperCase` is Unicode-aware (`ß` becomes `SS`, changing the length). Only `adam` and `sgd` reach it.
- `Checkpoint.BestIsFirstAttained` and `Checkpoint.TrainingRun`: assume `model.getWeights()` (line 229) returns a snapshot. In the library it returns the model's live variables, which later epochs update in place. `bestWeights` may then alias the final weights rather than keep the best epoch's.
- `AlgorithmService.ForestRunReport`: for a document with fewer than two samples, `Math.floor(n * 0.8)` is zero and the regressor is trained on no rows (`AlgorithmService.ForestTrainingRows`). Whether the library throws there is not modelled. The model assumes `predict` still returns a number. With one sample the MSE is then that number's squared error, finite and non-negative. Without samples it is `NaN`.
- `Checkpoint.SendProgress`: the total is `Option<int>`, so an explicit `null` is treated like an absent one and sends nothing. In JavaScript, `epoch <= null` compares against 0, so epoch 0 would still send an event. The settings modal always sends a number of training rounds.
- `AlgorithmService.ValidationCount`: its `NaN` case states the accuracy formula for an empty set. The run never reaches that division there: `StackFailed` comes first, and its library message is not modelled.
- The random-forest `outputValue` is the single prediction of the one-element array `predict` returns; the classifier's is `dataSync()[0]` of the probe output.
- JavaScript object keys are strings: labels `0` and `-0` share a key, and `for…in` visits keys in a fixed order. The model keys weights by number and has no key order. The resulting key-to-weight map is the same.
- `ClassWeights.CalculateClassWeights`: labels are exact reals, so a NaN label cannot occur. In the source, a constant resistance column z-scores to `0 / 0`, and all such labels share the key `"NaN"`. That case is not representable.
- Import: label tags are integers, and `!==` on them is integer inequality. Timestamps are whole seconds. `convertTimestampToDate` and `new Date(...).getTime()` are modelled by the number itself and by `1000 * t`. This ignores time zones and daylight-saving jumps. `localeCompare` on the printed dates is numeric order.
- `generateLogScaleTicks`, `resistanceValues` (they only feed the ticks), chart styling constants, the React state setters and `handleSave` are not modelled. They are presentation.
- `SpecimenOrder.AssignSpecificData`: models the in-place `specimen.specificData = …` on values. It returns the updated sequence. Aliasing between the map's values and `tempSpecimens` is not captured.
- `Math.max(...)` on very large inputs can fail to spread; that is not modelled. Neither are step indices that are not integers.
- The `create` and `findAll` endpoints, Nest wiring and schemas are persistence and transport. The other React components are presentation.
