/** The import effect of the web client: for each step index from 1 to the largest one
    in the upload, select the sensor's rows of that step, chart them, cut them into
    specimens with a cursor that carries over from step to step, and list the sorted,
    filtered specimens with their readings. The listed specimens are overwritten on
    every step, so those of the last step are the ones shown. */
module ImportData {
  import opened Wrappers
  import opened Segmentation
  import opened SpecimenOrder

  /** One chart trace: the clocks and the resistances of a step's readings. */
  datatype Series = Series(x: seq<int>, y: seq<real>)

  function SeriesOf(data: seq<Reading>): (s: Series)
    ensures |s.x| == |s.y| == |data|
    ensures forall i :: 0 <= i < |data| ==>
              s.x[i] == data[i].realTimeClock && s.y[i] == data[i].resistanceGasSensor
  {
    Series(seq(|data|, i requires 0 <= i < |data| => data[i].realTimeClock),
           seq(|data|, i requires 0 <= i < |data| => data[i].resistanceGasSensor))
  }

  /** `Math.max(...data.map(item => item[8]))`; `None` is the `-Infinity` of no rows. */
  function MaxStepIndex(rows: seq<Row>): (m: Option<int>)
    ensures m.None? <==> rows == []
    ensures m.Some? ==> forall k :: 0 <= k < |rows| ==> rows[k].step <= m.value
    ensures m.Some? ==> exists k :: 0 <= k < |rows| && rows[k].step == m.value
  {
    if rows == [] then None
    else
      var n := |rows| - 1;
      match MaxStepIndex(rows[..n])
      case None => Some(rows[n].step)
      case Some(m) => if rows[n].step > m then Some(rows[n].step) else Some(m)
  }

  /** The number of iterations of `for (let i = 1; i <= maxStepIndex; i++)`. */
  function StepCount(rows: seq<Row>): nat
  {
    match MaxStepIndex(rows)
    case None => 0
    case Some(m) => if m < 1 then 0 else m
  }

  /** The cursor a step leaves behind, and the specimens it lists. */
  datatype StepResult = StepResult(cursor: Option<Specimen>, specimens: seq<Specimen>)

  /** One iteration of the step loop, from the cursor it inherits and the step's readings. */
  function ProcessStep(current: Option<Specimen>, data: seq<Reading>): StepResult
  {
    var c := FeedAll(Cursor(current, []), data);
    StepResult(c.current, WithSpecificData(DropNearDuplicates(SortByTime(Close(c))), data))
  }

  /** The state after the steps `1..k`. */
  function AfterSteps(rows: seq<Row>, sensorIndex: int, k: nat): StepResult
  {
    if k == 0 then StepResult(None, [])
    else ProcessStep(AfterSteps(rows, sensorIndex, k - 1).cursor, StepReadings(rows, sensorIndex, k))
  }

  /** The chart traces of the steps `1..k`, trace `i` drawn from step `i + 1`. */
  function Chart(rows: seq<Row>, sensorIndex: int, k: nat): (traces: seq<Series>)
    ensures |traces| == k
    ensures forall i :: 0 <= i < k ==> traces[i] == SeriesOf(StepReadings(rows, sensorIndex, i + 1))
  {
    if k == 0 then [] else Chart(rows, sensorIndex, k - 1) + [SeriesOf(StepReadings(rows, sensorIndex, k))]
  }

  /** One iteration of the step loop: segment, sort, filter and assign readings. */
  method ImportStep(current: Option<Specimen>, data: seq<Reading>) returns (next: Option<Specimen>, listed: seq<Specimen>)
    ensures StepResult(next, listed) == ProcessStep(current, data)
  {
    var stepSpecimens;
    next, stepSpecimens := SegmentStep(current, data);
    var sortedSpecimens := DropNearDuplicates(SortByTime(stepSpecimens));
    listed := AssignSpecificData(sortedSpecimens, data);
  }

  /** The body of the effect: the chart traces, `tempSpecimens` and its length. */
  method ImportRecording(rows: seq<Row>, sensorIndex: int)
    returns (chartData: seq<Series>, specimens: seq<Specimen>, noSpecimens: nat)
    ensures |chartData| == StepCount(rows)
    ensures forall i :: 0 <= i < |chartData| ==> chartData[i] == SeriesOf(StepReadings(rows, sensorIndex, i + 1))
    ensures specimens == AfterSteps(rows, sensorIndex, StepCount(rows)).specimens
    ensures noSpecimens == |specimens|
  {
    var maxStepIndex := StepCount(rows);
    var currentSpecimen: Option<Specimen> := None;
    var tempSpecimens: seq<Specimen> := [];
    chartData := [];
    for i := 1 to maxStepIndex + 1
      invariant chartData == Chart(rows, sensorIndex, i - 1)
      invariant StepResult(currentSpecimen, tempSpecimens) == AfterSteps(rows, sensorIndex, i - 1)
    {
      var data := StepReadings(rows, sensorIndex, i);
      currentSpecimen, tempSpecimens := ImportStep(currentSpecimen, data);
      chartData := chartData + [SeriesOf(data)];
    }
    specimens := tempSpecimens;
    noSpecimens := |tempSpecimens|;
  }

  /** Each listed specimen's readings are readings of its step inside its closed
      interval, in the step's order. */
  lemma ListedReadings(current: Option<Specimen>, data: seq<Reading>)
    ensures var listed := ProcessStep(current, data).specimens;
            forall i :: 0 <= i < |listed| ==>
              listed[i].specificData == Within(data, listed[i].startTime, listed[i].endTime) &&
              forall r :: r in listed[i].specificData <==>
                r in data && listed[i].startTime <= r.realTimeClock <= listed[i].endTime
  {
    var kept := DropNearDuplicates(SortByTime(Close(FeedAll(Cursor(current, []), data))));
    assert ProcessStep(current, data).specimens == WithSpecificData(kept, data);
    WithSpecificDataReadings(kept, data);
  }

  /** `tempSpecimens` is overwritten by every step: what is listed is what the last step
      lists from its own readings, and with no step nothing is listed. */
  lemma ListedFromLastStep(rows: seq<Row>, sensorIndex: int)
    ensures StepCount(rows) == 0 ==> AfterSteps(rows, sensorIndex, StepCount(rows)).specimens == []
    ensures StepCount(rows) > 0 ==>
              var listed := AfterSteps(rows, sensorIndex, StepCount(rows)).specimens;
              var data := StepReadings(rows, sensorIndex, StepCount(rows));
              listed == ProcessStep(AfterSteps(rows, sensorIndex, StepCount(rows) - 1).cursor, data).specimens &&
              forall i :: 0 <= i < |listed| ==>
                forall r :: r in listed[i].specificData <==>
                  r in data && listed[i].startTime <= r.realTimeClock <= listed[i].endTime
  {
    var n := StepCount(rows);
    if n > 0 {
      ListedReadings(AfterSteps(rows, sensorIndex, n - 1).cursor, StepReadings(rows, sensorIndex, n));
    }
  }

  /** The listed specimens are in time order, each starting more than one second after the
      one before it, so none is listed twice. */
  lemma ListedSeparated(current: Option<Specimen>, data: seq<Reading>)
    ensures var listed := ProcessStep(current, data).specimens;
            SortedByTime(listed) &&
            (forall k :: 0 <= k < |listed| - 1 ==> listed[k + 1].startTime > listed[k].startTime + 1) &&
            forall i, j :: 0 <= i < j < |listed| ==> listed[i] != listed[j]
  {
    var c := FeedAll(Cursor(current, []), data);
    var sorted := SortByTime(Close(c));
    SortByTimeCorrect(Close(c));
    var kept := DropNearDuplicates(sorted);
    KeptStartsSeparated(sorted, |sorted|);
    var listed := ProcessStep(current, data).specimens;
    assert forall k :: 0 <= k < |listed| ==> listed[k].startTime == kept[k].startTime && listed[k].endTime == kept[k].endTime;
    assert forall k :: 0 <= k < |kept| ==> kept[k] in sorted;
    forall i, j | 0 <= i < j < |kept|
      ensures NotAfter(kept[i], kept[j]) && kept[i].startTime < kept[j].startTime
    {
      StartsIncrease(kept, i, j);
    }
  }

  /** Strict increase of consecutive starts carries over to any two positions. */
  lemma {:induction false} StartsIncrease(s: seq<Specimen>, i: nat, j: nat)
    requires forall k :: 0 <= k < |s| - 1 ==> s[k + 1].startTime > s[k].startTime + 1
    requires i < j < |s|
    ensures s[i].startTime < s[j].startTime
  {
    if i + 1 < j {
      StartsIncrease(s, i, j - 1);
    }
  }

  /** The cursor is never reset between steps: when every reading of step `k` carries the
      label of the specimen still open after step `k - 1`, that specimen keeps its start
      and, if there were readings, ends at the step's last one. */
  lemma CursorContinuesAcrossSteps(rows: seq<Row>, sensorIndex: int, k: nat)
    requires k > 0 && AfterSteps(rows, sensorIndex, k - 1).cursor.Some?
    requires var open := AfterSteps(rows, sensorIndex, k - 1).cursor.value;
             forall r :: r in StepReadings(rows, sensorIndex, k) ==> r.labelTag == open.labelTag
    ensures var open := AfterSteps(rows, sensorIndex, k - 1).cursor.value;
            var data := StepReadings(rows, sensorIndex, k);
            AfterSteps(rows, sensorIndex, k).cursor ==
              Some(open.(endTime := if data == [] then open.endTime else data[|data| - 1].realTimeClock))
  {
    var open := AfterSteps(rows, sensorIndex, k - 1).cursor;
    var data := StepReadings(rows, sensorIndex, k);
    assert AfterSteps(rows, sensorIndex, k).cursor == FeedAll(Cursor(open, []), data).current;
    assert forall i :: 0 <= i < |data| ==> data[i] in data;
    FeedAllContinues(Cursor(open, []), data);
  }

  /** A step without readings still lists the specimen left open by the step before,
      with no readings of its own. */
  lemma EmptyStepListsOpenSpecimen(current: Specimen)
    requires current.specificData == []
    ensures ProcessStep(Some(current), []).specimens == [current]
  {
    var listed := ProcessStep(Some(current), []).specimens;
    assert SortByTime([current]) == [current];
    assert KeptPrefix([current], 0) == [] && Kept([current], 0);
    assert DropNearDuplicates([current]) == [current];
    assert Within([], current.startTime, current.endTime) == [];
    assert listed[0] == current;
  }

  /** The map of every step holds each specimen once, and none of its specimens nor the
      cursor carries readings before assignment: the serialised key always has an empty
      `specificData`, so equal keys are equal specimens. */
  lemma {:induction false} StepMapsDuplicateFree(rows: seq<Row>, sensorIndex: int, k: nat)
    ensures var cursor := AfterSteps(rows, sensorIndex, k).cursor;
            cursor.Some? ==> cursor.value.specificData == []
    ensures k > 0 ==>
              var c := FeedAll(Cursor(AfterSteps(rows, sensorIndex, k - 1).cursor, []), StepReadings(rows, sensorIndex, k));
              NoDup(Close(c)) && Bare(Close(c))
  {
    if k > 0 {
      StepMapsDuplicateFree(rows, sensorIndex, k - 1);
      FeedAllKeepsShape(Cursor(AfterSteps(rows, sensorIndex, k - 1).cursor, []), StepReadings(rows, sensorIndex, k));
    }
  }
}
