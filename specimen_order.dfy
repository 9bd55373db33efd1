/** The second half of importing a recording: sorting a step's specimens by start and
    end time, dropping those within a second of their predecessor, and assigning each
    kept specimen the step's readings inside its interval. */
module SpecimenOrder {
  import opened Segmentation

  /** The comparator of the sort, as "a may precede b": by start time, then end time. */
  predicate NotAfter(a: Specimen, b: Specimen)
  {
    a.startTime < b.startTime || (a.startTime == b.startTime && a.endTime <= b.endTime)
  }

  predicate SortedByTime(s: seq<Specimen>)
  {
    forall i, j :: 0 <= i < j < |s| ==> NotAfter(s[i], s[j])
  }

  /** Inserting before the first element that `x` may precede keeps equal keys in their
      original order, as the stable `Array.prototype.sort` does. */
  function Insert(x: Specimen, s: seq<Specimen>): seq<Specimen>
  {
    if s == [] then [x]
    else if NotAfter(x, s[0]) then [x] + s
    else [s[0]] + Insert(x, s[1..])
  }

  /** The sort of the map's values. */
  function SortByTime(s: seq<Specimen>): seq<Specimen>
  {
    if s == [] then [] else Insert(s[0], SortByTime(s[1..]))
  }

  lemma {:induction false} InsertPermutes(x: Specimen, s: seq<Specimen>)
    ensures multiset(Insert(x, s)) == multiset(s) + multiset{x}
  {
    if s != [] && !NotAfter(x, s[0]) {
      InsertPermutes(x, s[1..]);
      assert s == [s[0]] + s[1..];
    }
  }

  /** A specimen not after any element of a sorted list may head it. */
  lemma ConsSorted(a: Specimen, r: seq<Specimen>)
    requires SortedByTime(r)
    requires forall k :: 0 <= k < |r| ==> NotAfter(a, r[k])
    ensures SortedByTime([a] + r)
  {
    var t := [a] + r;
    forall i, j | 0 <= i < j < |t|
      ensures NotAfter(t[i], t[j])
    {
      if i > 0 {
        assert t[i] == r[i - 1] && t[j] == r[j - 1];
      } else {
        assert t[j] == r[j - 1];
      }
    }
  }

  lemma {:induction false} InsertSorted(x: Specimen, s: seq<Specimen>)
    requires SortedByTime(s)
    ensures SortedByTime(Insert(x, s))
    ensures multiset(Insert(x, s)) == multiset(s) + multiset{x}
  {
    InsertPermutes(x, s);
    if s == [] {
    } else if NotAfter(x, s[0]) {
      forall k | 0 <= k < |s|
        ensures NotAfter(x, s[k])
      {
        if k > 0 {
          assert NotAfter(s[0], s[k]);
        }
      }
      ConsSorted(x, s);
    } else {
      var tail := s[1..];
      assert SortedByTime(tail) by {
        forall i, j | 0 <= i < j < |tail|
          ensures NotAfter(tail[i], tail[j])
        {
          assert tail[i] == s[i + 1] && tail[j] == s[j + 1];
        }
      }
      InsertSorted(x, tail);
      var r := Insert(x, tail);
      InsertPermutes(x, tail);
      forall k | 0 <= k < |r|
        ensures NotAfter(s[0], r[k])
      {
        assert r[k] in multiset(tail) + multiset{x};
        if r[k] != x {
          assert r[k] in tail;
          var m :| 0 <= m < |tail| && tail[m] == r[k];
          assert s[m + 1] == r[k];
        }
      }
      ConsSorted(s[0], r);
    }
  }

  /** The sort orders by (start, end) and rearranges without losing or adding specimens. */
  lemma {:induction false} SortByTimeCorrect(s: seq<Specimen>)
    ensures SortedByTime(SortByTime(s))
    ensures multiset(SortByTime(s)) == multiset(s)
  {
    if s != [] {
      SortByTimeCorrect(s[1..]);
      InsertSorted(s[0], SortByTime(s[1..]));
      assert s == [s[0]] + s[1..];
    }
  }

  /** The specimens of `s` whose start and end times are `startTime` and `endTime`, in order. */
  function WithKey(s: seq<Specimen>, startTime: int, endTime: int): seq<Specimen>
  {
    if s == [] then []
    else (if s[0].startTime == startTime && s[0].endTime == endTime then [s[0]] else []) +
         WithKey(s[1..], startTime, endTime)
  }

  /** Insertion only passes elements that strictly precede `x`, so it never passes one
      with `x`'s times: among equal times, `x` comes first. */
  lemma {:induction false} InsertWithKey(x: Specimen, s: seq<Specimen>, startTime: int, endTime: int)
    ensures WithKey(Insert(x, s), startTime, endTime) ==
            (if x.startTime == startTime && x.endTime == endTime then [x] else []) + WithKey(s, startTime, endTime)
  {
    if s == [] {
      assert [x][1..] == [];
    } else if NotAfter(x, s[0]) {
      assert ([x] + s)[1..] == s;
    } else {
      InsertWithKey(x, s[1..], startTime, endTime);
      assert ([s[0]] + Insert(x, s[1..]))[1..] == Insert(x, s[1..]);
    }
  }

  /** The sort is stable: specimens with equal start and end times keep their input order. */
  lemma {:induction false} SortByTimeStable(s: seq<Specimen>, startTime: int, endTime: int)
    ensures WithKey(SortByTime(s), startTime, endTime) == WithKey(s, startTime, endTime)
  {
    if s != [] {
      SortByTimeStable(s[1..], startTime, endTime);
      InsertWithKey(s[0], SortByTime(s[1..]), startTime, endTime);
    }
  }

  /** The filter's threshold, in milliseconds. */
  const Threshold: int := 1000

  /** `new Date(convertTimestampToDate(t)).getTime()`, up to the zone's constant offset,
      which every difference cancels. */
  function Millis(t: int): int
  {
    1000 * t
  }

  function Abs(x: int): nat
  {
    if x < 0 then -x else x
  }

  /** The filter's test against the preceding element: both start and end differ by more
      than the threshold. */
  predicate FarApart(specimen: Specimen, previous: Specimen)
  {
    Abs(Millis(specimen.startTime) - Millis(previous.startTime)) > Threshold &&
    Abs(Millis(specimen.endTime) - Millis(previous.endTime)) > Threshold
  }

  /** The element at `index` survives the filter: it is the first, or it is far apart from
      the element before it in the unfiltered sorted list. */
  predicate Kept(self: seq<Specimen>, index: nat)
    requires index < |self|
  {
    index == 0 || FarApart(self[index], self[index - 1])
  }

  /** `.filter((specimen, index, self) => ...)` over the first `n` elements. */
  function KeptPrefix(self: seq<Specimen>, n: nat): seq<Specimen>
    requires n <= |self|
  {
    if n == 0 then []
    else KeptPrefix(self, n - 1) + (if Kept(self, n - 1) then [self[n - 1]] else [])
  }

  function DropNearDuplicates(self: seq<Specimen>): seq<Specimen>
  {
    KeptPrefix(self, |self|)
  }

  /** A specimen is in the result exactly when it sits at a position the filter keeps. */
  lemma {:induction false} KeptPrefixMembers(self: seq<Specimen>, n: nat, x: Specimen)
    requires n <= |self|
    ensures x in KeptPrefix(self, n) <==> exists i :: 0 <= i < n && self[i] == x && Kept(self, i)
  {
    if n > 0 {
      KeptPrefixMembers(self, n - 1, x);
    }
  }

  /** Only whole seconds matter: far apart means more than one second apart in both times. */
  lemma FarApartInSeconds(specimen: Specimen, previous: Specimen)
    ensures FarApart(specimen, previous) <==>
              Abs(specimen.startTime - previous.startTime) > 1 && Abs(specimen.endTime - previous.endTime) > 1
  {
  }

  /** On a sorted list each kept specimen starts more than one second after the kept
      specimen before it, and in particular no two kept specimens share a start. */
  lemma {:induction false} KeptStartsSeparated(self: seq<Specimen>, n: nat)
    requires n <= |self| && SortedByTime(self)
    ensures forall k :: 0 <= k < |KeptPrefix(self, n)| - 1 ==>
              KeptPrefix(self, n)[k + 1].startTime > KeptPrefix(self, n)[k].startTime + 1
    ensures forall k :: 0 <= k < |KeptPrefix(self, n)| ==> KeptPrefix(self, n)[k] in self[..n]
  {
    if n > 0 {
      KeptStartsSeparated(self, n - 1);
      var before := KeptPrefix(self, n - 1);
      if Kept(self, n - 1) && before != [] {
        var last := before[|before| - 1];
        assert last in self[..n - 1];
        var i :| 0 <= i < n - 1 && self[i] == last;
        assert NotAfter(self[i], self[n - 2]) || i == n - 2;
        assert NotAfter(self[n - 2], self[n - 1]);
        FarApartInSeconds(self[n - 1], self[n - 2]);
      }
      forall k | 0 <= k < |KeptPrefix(self, n)|
        ensures KeptPrefix(self, n)[k] in self[..n]
      {
        if k < |before| {
          assert before[k] in self[..n - 1];
        }
      }
    }
  }

  /** What the filter does not ensure: comparing with the unfiltered predecessor lets two
      kept specimens end at the same second. */
  lemma KeptEndsMayCoincide()
    ensures var p, d, k := Specimen(1, 0, 10, []), Specimen(2, 0, 50, []), Specimen(1, 5, 10, []);
            SortedByTime([p, d, k]) && DropNearDuplicates([p, d, k]) == [p, k] && p.endTime == k.endTime
  {
    var p, d, k := Specimen(1, 0, 10, []), Specimen(2, 0, 50, []), Specimen(1, 5, 10, []);
    var self := [p, d, k];
    assert KeptPrefix(self, 1) == [p];
    assert !Kept(self, 1);
    assert KeptPrefix(self, 2) == [p];
    assert Kept(self, 2);
    assert KeptPrefix(self, 3) == [p] + [k];
  }

  /** `data.filter(...)`: the readings whose clock lies in `[startTime, endTime]`, in order. */
  function Within(data: seq<Reading>, startTime: int, endTime: int): seq<Reading>
  {
    if data == [] then []
    else
      var last := data[|data| - 1];
      Within(data[..|data| - 1], startTime, endTime) +
      (if Millis(last.realTimeClock) >= Millis(startTime) && Millis(last.realTimeClock) <= Millis(endTime)
       then [last] else [])
  }

  /** A reading is assigned exactly when it is one of the step's readings inside the
      closed interval; the assigned readings keep the step's order. */
  lemma {:induction false} WithinMembers(data: seq<Reading>, startTime: int, endTime: int, r: Reading)
    ensures r in Within(data, startTime, endTime) <==> r in data && startTime <= r.realTimeClock <= endTime
  {
    if data != [] {
      var n := |data| - 1;
      WithinMembers(data[..n], startTime, endTime, r);
      assert data == data[..n] + [data[n]];
    }
  }

  lemma {:induction false} WithinAppend(a: seq<Reading>, b: seq<Reading>, startTime: int, endTime: int)
    ensures Within(a + b, startTime, endTime) == Within(a, startTime, endTime) + Within(b, startTime, endTime)
  {
    if b == [] {
      assert a + b == a;
    } else {
      var n := |b| - 1;
      assert (a + b)[..|a| + n] == a + b[..n];
      WithinAppend(a, b[..n], startTime, endTime);
    }
  }

  /** Each specimen with its interval's readings assigned. */
  function WithSpecificData(specimens: seq<Specimen>, data: seq<Reading>): (r: seq<Specimen>)
    ensures |r| == |specimens|
    ensures forall i :: 0 <= i < |r| ==>
              r[i].labelTag == specimens[i].labelTag &&
              r[i].startTime == specimens[i].startTime && r[i].endTime == specimens[i].endTime
  {
    seq(|specimens|, i requires 0 <= i < |specimens| =>
      specimens[i].(specificData := Within(data, specimens[i].startTime, specimens[i].endTime)))
  }

  /** Every specimen receives exactly the step's readings inside its own closed interval. */
  lemma WithSpecificDataReadings(specimens: seq<Specimen>, data: seq<Reading>)
    ensures var r := WithSpecificData(specimens, data);
            forall i :: 0 <= i < |r| ==>
              r[i].specificData == Within(data, r[i].startTime, r[i].endTime) &&
              forall x :: x in r[i].specificData <==> x in data && r[i].startTime <= x.realTimeClock <= r[i].endTime
  {
    var r := WithSpecificData(specimens, data);
    forall i | 0 <= i < |r|
      ensures r[i].specificData == Within(data, r[i].startTime, r[i].endTime)
      ensures forall x :: x in r[i].specificData <==> x in data && r[i].startTime <= x.realTimeClock <= r[i].endTime
    {
      forall x
        ensures x in r[i].specificData <==> x in data && r[i].startTime <= x.realTimeClock <= r[i].endTime
      {
        WithinMembers(data, r[i].startTime, r[i].endTime, x);
      }
    }
  }

  /** `tempSpecimens.forEach(specimen => specimen.specificData = filteredData)`. */
  method AssignSpecificData(specimens: seq<Specimen>, data: seq<Reading>) returns (updated: seq<Specimen>)
    ensures updated == WithSpecificData(specimens, data)
    ensures forall i :: 0 <= i < |updated| ==>
              updated[i].labelTag == specimens[i].labelTag &&
              updated[i].startTime == specimens[i].startTime && updated[i].endTime == specimens[i].endTime
  {
    updated := specimens;
    for i := 0 to |specimens|
      invariant |updated| == |specimens|
      invariant forall k :: 0 <= k < i ==>
                  updated[k] == specimens[k].(specificData := Within(data, specimens[k].startTime, specimens[k].endTime))
      invariant forall k :: i <= k < |specimens| ==> updated[k] == specimens[k]
    {
      var specimen := updated[i];
      var filteredData := Within(data, specimen.startTime, specimen.endTime);
      updated := updated[i := specimen.(specificData := filteredData)];
    }
  }
}
