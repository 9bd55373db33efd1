/** The first half of importing a recording in the web client: selecting one step's
    rows of one sensor, and cutting them into specimens, one per run of equal
    `labelTag`s, collected in a map keyed by the serialised specimen.

    Timestamps are whole seconds. `convertTimestampToDate` is order-preserving and
    one-to-one on them (it prints the date to the second), so the model keeps the
    number itself where the source keeps the printed date. */
module Segmentation {
  import opened Wrappers

  /** The columns of an uploaded row that the import reads: 0 (sensor), 3 (clock),
      7 (resistance), 8 (step index) and 10 (label tag). */
  datatype Row = Row(sensor: int, realTimeClock: int, resistanceGasSensor: real, step: int, labelTag: int)

  /** `{ realTimeClock, resistanceGasSensor, labelTag }` of a selected row. */
  datatype Reading = Reading(realTimeClock: int, resistanceGasSensor: real, labelTag: int)

  /** A specimen: its label, the clocks of the first and last row of its run, and the
      readings assigned to it. */
  datatype Specimen = Specimen(labelTag: int, startTime: int, endTime: int, specificData: seq<Reading>)

  predicate Selected(row: Row, sensorIndex: int, step: int)
  {
    row.sensor == sensorIndex && row.step == step
  }

  function ReadingOf(row: Row): Reading
  {
    Reading(row.realTimeClock, row.resistanceGasSensor, row.labelTag)
  }

  /** `data` for one step: the rows of the sensor at that step index, mapped to readings. */
  function StepReadings(rows: seq<Row>, sensorIndex: int, step: int): seq<Reading>
  {
    if rows == [] then []
    else
      var last := rows[|rows| - 1];
      StepReadings(rows[..|rows| - 1], sensorIndex, step) +
      (if Selected(last, sensorIndex, step) then [ReadingOf(last)] else [])
  }

  /** Selection keeps input order: it distributes over concatenation. */
  lemma {:induction false} StepReadingsAppend(a: seq<Row>, b: seq<Row>, sensorIndex: int, step: int)
    ensures StepReadings(a + b, sensorIndex, step) == StepReadings(a, sensorIndex, step) + StepReadings(b, sensorIndex, step)
  {
    if b == [] {
      assert a + b == a;
    } else {
      var n := |b| - 1;
      assert (a + b)[..|a| + n] == a + b[..n];
      StepReadingsAppend(a, b[..n], sensorIndex, step);
    }
  }

  /** A reading is selected exactly when some row of that sensor and step maps to it. */
  lemma {:induction false} StepReadingsMembers(rows: seq<Row>, sensorIndex: int, step: int, r: Reading)
    ensures r in StepReadings(rows, sensorIndex, step) <==>
              exists k :: 0 <= k < |rows| && Selected(rows[k], sensorIndex, step) && ReadingOf(rows[k]) == r
  {
    if rows != [] {
      var n := |rows| - 1;
      StepReadingsMembers(rows[..n], sensorIndex, step, r);
      assert forall k :: 0 <= k < n ==> rows[..n][k] == rows[k];
    }
  }

  /** No specimen occurs twice. */
  predicate NoDup(s: seq<Specimen>)
  {
    forall i, j :: 0 <= i < j < |s| ==> s[i] != s[j]
  }

  /** Every specimen still has the empty `specificData` it was created with. */
  predicate Bare(s: seq<Specimen>)
  {
    forall i :: 0 <= i < |s| ==> s[i].specificData == []
  }

  /** `specimensMap.set(JSON.stringify(s), { ...s })`: a specimen whose serialisation is
      already a key leaves the map as it is; any other is appended in insertion order.
      Equal serialisations are equal specimens, so the map is the duplicate-free sequence
      of its values. */
  function Store(stored: seq<Specimen>, s: Specimen): (r: seq<Specimen>)
    ensures stored <= r && |r| <= |stored| + 1
    ensures forall x :: x in r <==> x in stored || x == s
    ensures NoDup(stored) ==> NoDup(r)
    ensures Bare(stored) && s.specificData == [] ==> Bare(r)
  {
    if s in stored then stored else stored + [s]
  }

  /** The segmentation state: `currentSpecimen` and the map of one step. */
  datatype Cursor = Cursor(current: Option<Specimen>, stored: seq<Specimen>)

  /** One iteration of the `forEach` over a step's readings. */
  function Feed(c: Cursor, r: Reading): Cursor
  {
    if c.current.None? || r.labelTag != c.current.value.labelTag then
      Cursor(Some(Specimen(r.labelTag, r.realTimeClock, r.realTimeClock, [])),
             if c.current.Some? then Store(c.stored, c.current.value) else c.stored)
    else
      Cursor(Some(c.current.value.(endTime := r.realTimeClock)), c.stored)
  }

  /** The state after feeding the readings in order. */
  function FeedAll(c: Cursor, readings: seq<Reading>): Cursor
  {
    if readings == [] then c
    else Feed(FeedAll(c, readings[..|readings| - 1]), readings[|readings| - 1])
  }

  /** The `set` after the loop: the map's values once the open specimen is stored. */
  function Close(c: Cursor): seq<Specimen>
  {
    if c.current.Some? then Store(c.stored, c.current.value) else c.stored
  }

  /** The length of the maximal run of equal labels at the front of `readings`. */
  function RunLength(readings: seq<Reading>): (n: nat)
    requires readings != []
    ensures 1 <= n <= |readings|
    ensures forall k :: 0 <= k < n ==> readings[k].labelTag == readings[0].labelTag
    ensures n < |readings| ==> readings[n].labelTag != readings[0].labelTag
    decreases |readings|
  {
    if |readings| > 1 && readings[1].labelTag == readings[0].labelTag then 1 + RunLength(readings[1..]) else 1
  }

  /** The maximal runs of equal labels, in order, each as the specimen that spans it:
      its label, the clock of its first reading and the clock of its last. */
  function Runs(readings: seq<Reading>): (r: seq<Specimen>)
    ensures r == [] <==> readings == []
    ensures r != [] ==> r[0].labelTag == readings[0].labelTag && r[0].startTime == readings[0].realTimeClock
    ensures forall i :: 0 <= i < |r| - 1 ==> r[i].labelTag != r[i + 1].labelTag
    decreases |readings|
  {
    if readings == [] then []
    else
      var n := RunLength(readings);
      [Specimen(readings[0].labelTag, readings[0].realTimeClock, readings[n - 1].realTimeClock, [])] + Runs(readings[n..])
  }

  /** The specimens a step closes or leaves open, in order, from the cursor it inherits:
      an inherited specimen whose label the first run continues spans that run too and
      keeps its start; any other inherited specimen is closed as it is; then come the
      maximal runs. */
  function Segments(current: Option<Specimen>, readings: seq<Reading>): seq<Specimen>
  {
    if current.Some? && readings != [] && readings[0].labelTag == current.value.labelTag then
      var n := RunLength(readings);
      [current.value.(endTime := readings[n - 1].realTimeClock)] + Runs(readings[n..])
    else if current.Some? then [current.value] + Runs(readings)
    else Runs(readings)
  }

  /** `Store` of each specimen in turn. */
  function StoreAll(stored: seq<Specimen>, specimens: seq<Specimen>): (r: seq<Specimen>)
    ensures stored <= r
    ensures forall x :: x in r <==> x in stored || x in specimens
    ensures NoDup(stored) ==> NoDup(r)
    decreases |specimens|
  {
    if specimens == [] then stored else StoreAll(Store(stored, specimens[0]), specimens[1..])
  }

  /** Feeding two pieces in turn is feeding their concatenation. */
  lemma {:induction false} FeedAllAppend(c: Cursor, a: seq<Reading>, b: seq<Reading>)
    ensures FeedAll(c, a + b) == FeedAll(FeedAll(c, a), b)
  {
    if b == [] {
      assert a + b == a;
    } else {
      var n := |b| - 1;
      assert (a + b)[..|a + b| - 1] == a + b[..n];
      FeedAllAppend(c, a, b[..n]);
    }
  }

  lemma FeedAllCons(c: Cursor, r: Reading, rest: seq<Reading>)
    ensures FeedAll(c, [r] + rest) == FeedAll(Feed(c, r), rest)
  {
    FeedAllAppend(c, [r], rest);
    assert [r][..0] == [];
  }

  /** A reading that continues the open specimen's label extends it: what remains to be
      segmented is the same as before the reading. */
  lemma SegmentsContinue(s: Specimen, r: Reading, rest: seq<Reading>)
    requires s.labelTag == r.labelTag
    ensures Segments(Some(s.(endTime := r.realTimeClock)), rest) == Segments(Some(s), [r] + rest)
  {
    var data := [r] + rest;
    var s1 := s.(endTime := r.realTimeClock);
    assert data[0] == r && data[1..] == rest;
    if rest != [] && rest[0].labelTag == r.labelTag {
      var m := RunLength(rest);
      assert RunLength(data) == 1 + m;
      assert data[m] == rest[m - 1];
      assert data[1 + m..] == rest[m..];
      assert Segments(Some(s), data) == [s.(endTime := rest[m - 1].realTimeClock)] + Runs(rest[m..]);
      assert Segments(Some(s1), rest) == [s1.(endTime := rest[m - 1].realTimeClock)] + Runs(rest[m..]);
    } else {
      assert RunLength(data) == 1;
      assert Segments(Some(s), data) == [s1] + Runs(rest);
      assert Segments(Some(s1), rest) == [s1] + Runs(rest);
    }
  }

  /** A fresh specimen at the first reading, segmented onwards, gives the maximal runs. */
  lemma RunsFromFirst(r: Reading, rest: seq<Reading>)
    ensures Segments(Some(Specimen(r.labelTag, r.realTimeClock, r.realTimeClock, [])), rest) == Runs([r] + rest)
  {
    var s0 := Specimen(r.labelTag, r.realTimeClock, r.realTimeClock, []);
    SegmentsContinue(s0, r, rest);
    assert s0.(endTime := r.realTimeClock) == s0;
    var data := [r] + rest;
    assert data != [] && data[0] == r;
  }

  /** The specimen map of a step holds exactly the step's segments, stored in order and
      once each: the loop and the final `set` compute `StoreAll` of `Segments`. */
  lemma {:induction false} FeedAllSegments(current: Option<Specimen>, stored: seq<Specimen>, data: seq<Reading>)
    ensures Close(FeedAll(Cursor(current, stored), data)) == StoreAll(stored, Segments(current, data))
    decreases |data|
  {
    if data == [] {
      if current.Some? {
        assert Segments(current, data) == [current.value];
        assert StoreAll(stored, [current.value]) == StoreAll(Store(stored, current.value), []);
      } else {
        assert Segments(current, data) == [];
      }
    } else {
      var r, rest := data[0], data[1..];
      assert data == [r] + rest;
      var c := Cursor(current, stored);
      FeedAllCons(c, r, rest);
      var next := Feed(c, r);
      FeedAllSegments(next.current, next.stored, rest);
      if current.None? {
        RunsFromFirst(r, rest);
      } else if r.labelTag != current.value.labelTag {
        RunsFromFirst(r, rest);
        var segments := Segments(current, data);
        assert segments == [current.value] + Runs(data);
        assert segments[0] == current.value && segments[1..] == Runs(data);
      } else {
        SegmentsContinue(current.value, r, rest);
      }
    }
  }

  /** The `forEach` over one step's readings with the cursor it inherits, followed by
      storing the open specimen. `next` is the cursor the next step inherits; the map
      holds the step's segments (`Segments`), each stored once in order. */
  method SegmentStep(current: Option<Specimen>, data: seq<Reading>) returns (next: Option<Specimen>, specimens: seq<Specimen>)
    ensures next == FeedAll(Cursor(current, []), data).current
    ensures specimens == Close(FeedAll(Cursor(current, []), data))
    ensures specimens == StoreAll([], Segments(current, data))
  {
    FeedAllSegments(current, [], data);
    var currentSpecimen := current;
    var specimensMap: seq<Specimen> := [];
    for i := 0 to |data|
      invariant Cursor(currentSpecimen, specimensMap) == FeedAll(Cursor(current, []), data[..i])
    {
      var item := data[i];
      if currentSpecimen.None? || item.labelTag != currentSpecimen.value.labelTag {
        if currentSpecimen.Some? {
          if currentSpecimen.value !in specimensMap {
            specimensMap := specimensMap + [currentSpecimen.value];
          }
        }
        currentSpecimen := Some(Specimen(item.labelTag, item.realTimeClock, 0, []));
      }
      currentSpecimen := Some(currentSpecimen.value.(endTime := item.realTimeClock));
      assert data[..i + 1][..i] == data[..i];
    }
    assert data[..|data|] == data;
    next := currentSpecimen;
    if currentSpecimen.Some? {
      if currentSpecimen.value !in specimensMap {
        specimensMap := specimensMap + [currentSpecimen.value];
      }
    }
    specimens := specimensMap;
  }

  /** The map never holds two equal specimens, and neither it nor the cursor ever holds
      assigned readings. */
  lemma {:induction false} FeedAllKeepsShape(c: Cursor, readings: seq<Reading>)
    requires NoDup(c.stored) && Bare(c.stored) && (c.current.Some? ==> c.current.value.specificData == [])
    ensures var d := FeedAll(c, readings);
            NoDup(d.stored) && Bare(d.stored) && (d.current.Some? ==> d.current.value.specificData == [])
    ensures NoDup(Close(FeedAll(c, readings))) && Bare(Close(FeedAll(c, readings)))
  {
    if readings != [] {
      FeedAllKeepsShape(c, readings[..|readings| - 1]);
    }
  }

  /** A new specimen begins at the first reading of the final run of equal labels:
      when the cursor's label (or its absence) differs from the run's, the open specimen
      starts at the run's first reading and ends at its last. */
  lemma {:induction false} FeedAllFinalRun(c: Cursor, readings: seq<Reading>, j: nat)
    requires j < |readings|
    requires forall k :: j <= k < |readings| ==> readings[k].labelTag == readings[j].labelTag
    requires if j == 0 then c.current.None? || c.current.value.labelTag != readings[0].labelTag
             else readings[j - 1].labelTag != readings[j].labelTag
    ensures FeedAll(c, readings).current ==
              Some(Specimen(readings[j].labelTag, readings[j].realTimeClock,
                            readings[|readings| - 1].realTimeClock, []))
  {
    var n := |readings| - 1;
    var prefix := readings[..n];
    if n > j {
      assert forall k :: j <= k < |prefix| ==> prefix[k] == readings[k];
      FeedAllFinalRun(c, prefix, j);
    } else if j > 0 {
      assert prefix[j - 1] == readings[j - 1];
      FeedAllLastLabel(c, prefix);
    }
  }

  /** After at least one reading the cursor holds a specimen of the last reading's label,
      ending at its clock. */
  lemma FeedAllLastLabel(c: Cursor, readings: seq<Reading>)
    requires readings != []
    ensures FeedAll(c, readings).current.Some?
    ensures FeedAll(c, readings).current.value.labelTag == readings[|readings| - 1].labelTag
    ensures FeedAll(c, readings).current.value.endTime == readings[|readings| - 1].realTimeClock
  {
  }

  /** The cursor is never reset between steps: readings that all carry the open
      specimen's label extend it, keeping its start and storing nothing. */
  lemma {:induction false} FeedAllContinues(c: Cursor, readings: seq<Reading>)
    requires c.current.Some?
    requires forall k :: 0 <= k < |readings| ==> readings[k].labelTag == c.current.value.labelTag
    ensures FeedAll(c, readings).stored == c.stored
    ensures FeedAll(c, readings).current ==
              Some(c.current.value.(endTime := if readings == [] then c.current.value.endTime
                                                else readings[|readings| - 1].realTimeClock))
  {
    if readings != [] {
      var n := |readings| - 1;
      assert forall k :: 0 <= k < n ==> readings[..n][k] == readings[k];
      FeedAllContinues(c, readings[..n]);
    }
  }
}
