/** The historical Treasury route (src/app/api/treasury/historical/route.ts): the observations
    kept from each FRED series, the join of the 2Y, 10Y and 30Y series by date, the sort by
    date and the down-sampling to about one hundred points. The network calls are abstracted:
    each series arrives as a list of raw observations, empty when the fetch failed. Dates are
    calendar days written as yyyymmdd integers, so that their numeric order is their
    chronological order. */
module HistoricalSeries {
  import opened Wrappers

  // ---------------------------------------------------------------------------------------
  // Observations

  /** The text of an observation's value: FRED's '.' for a missing value, text on which
      `parseFloat` gives NaN, or text that parses to a number. */
  datatype RawValue = Missing | Unparsable | Number(x: real)

  datatype RawObservation = RawObservation(date: int, value: RawValue)

  datatype Observation = Observation(date: int, value: real)

  /** The observations `fetchHistoricalSeries` returns: the raw ones whose value is a number,
      in their original order. */
  function ParseObservations(raw: seq<RawObservation>): (obs: seq<Observation>)
    ensures |obs| <= |raw|
    ensures forall o :: o in obs ==> RawObservation(o.date, Number(o.value)) in raw
    ensures forall r :: r in raw && r.value.Number? ==> Observation(r.date, r.value.x) in obs
  {
    if raw == [] then []
    else
      var rest := ParseObservations(raw[1..]);
      assert forall r :: r in raw ==> r == raw[0] || r in raw[1..];
      match raw[0].value
      case Number(x) => [Observation(raw[0].date, x)] + rest
      case _ => rest
  }

  /** The date column of a series. */
  function DatesOf(s: seq<Observation>): (ds: seq<int>)
    ensures |ds| == |s| && forall i :: 0 <= i < |s| ==> ds[i] == s[i].date
  {
    if s == [] then [] else DatesOf(s[..|s| - 1]) + [s[|s| - 1].date]
  }

  /** `new Set([...dates])`: the distinct dates, in order of first appearance. */
  function Distinct(s: seq<int>): (r: seq<int>)
    ensures forall d :: d in r <==> d in s
    ensures forall i, j :: 0 <= i < j < |r| ==> r[i] != r[j]
  {
    if s == [] then []
    else
      var r := Distinct(s[..|s| - 1]);
      assert s == s[..|s| - 1] + [s[|s| - 1]];
      if s[|s| - 1] in r then r else r + [s[|s| - 1]]
  }

  /** The value a series leaves in the point of `date` once each of its observations has been
      written, in turn, into the point of its own date: that of the LAST observation on the
      date, or none when the series has no observation on it. */
  function LastValue(s: seq<Observation>, date: int): (v: Option<real>)
    ensures v.Some? <==> date in DatesOf(s)
    ensures v.Some? ==> Observation(date, v.value) in s
  {
    if s == [] then None
    else
      var n := |s| - 1;
      assert DatesOf(s) == DatesOf(s[..n]) + [s[n].date];
      if s[n].date == date then Some(s[n].value) else LastValue(s[..n], date)
  }

  /** An observation written after the others decides the value of its date. */
  lemma LastObservationWins(s: seq<Observation>, o: Observation)
    ensures LastValue(s + [o], o.date) == Some(o.value)
    ensures forall d :: d != o.date ==> LastValue(s + [o], d) == LastValue(s, d)
  {
    assert (s + [o])[..|s|] == s;
  }

  // ---------------------------------------------------------------------------------------
  // The join by date

  /** One row of the response: a date, the three rates when known, and the 2s10s spread. */
  datatype HistoricalPoint = HistoricalPoint(
    date: int,
    y2: Option<real>,
    y10: Option<real>,
    y30: Option<real>,
    spread2s10s: Option<real>)

  /** The rate a series fills in. */
  datatype Column = Col2Y | Col10Y | Col30Y

  function SetColumn(p: HistoricalPoint, c: Column, v: real): HistoricalPoint
  {
    match c
    case Col2Y => p.(y2 := Some(v))
    case Col10Y => p.(y10 := Some(v))
    case Col30Y => p.(y30 := Some(v))
  }

  /** The point with column c set to v when there is a value, and unchanged otherwise. */
  function Overlay(p: HistoricalPoint, c: Column, v: Option<real>): HistoricalPoint
  {
    if v.Some? then SetColumn(p, c, v.value) else p
  }

  /** The point every date of the map starts from: no rate and no spread. */
  function EmptyPoint(date: int): HistoricalPoint
  {
    HistoricalPoint(date, None, None, None, None)
  }

  /** The point of `date` once the three series have been written into the map. */
  function FilledPoint(date: int, s2: seq<Observation>, s10: seq<Observation>,
                       s30: seq<Observation>): HistoricalPoint
  {
    HistoricalPoint(date, LastValue(s2, date), LastValue(s10, date), LastValue(s30, date), None)
  }

  predicate Complete(p: HistoricalPoint)
  {
    p.y2.Some? && p.y10.Some?
  }

  /** A complete point with its spread, 10Y minus 2Y, filled in. */
  function WithSpread(p: HistoricalPoint): HistoricalPoint
    requires Complete(p)
  {
    p.(spread2s10s := Some(p.y10.value - p.y2.value))
  }

  /** The points the spread pass pushes while it visits the dates in `order`: the complete
      ones, with their spread. */
  function Collect(order: seq<int>, s2: seq<Observation>, s10: seq<Observation>,
                   s30: seq<Observation>): seq<HistoricalPoint>
  {
    if order == [] then []
    else
      var r := Collect(order[..|order| - 1], s2, s10, s30);
      var p := FilledPoint(order[|order| - 1], s2, s10, s30);
      if Complete(p) then r + [WithSpread(p)] else r
  }

  /** Every date of the three series, each once, in order of first appearance. */
  function AllDates(s2: seq<Observation>, s10: seq<Observation>, s30: seq<Observation>): seq<int>
  {
    Distinct(DatesOf(s2) + DatesOf(s10) + DatesOf(s30))
  }

  /** The list the route builds before sorting. */
  function Merge(s2: seq<Observation>, s10: seq<Observation>, s30: seq<Observation>)
    : seq<HistoricalPoint>
  {
    Collect(AllDates(s2, s10, s30), s2, s10, s30)
  }

  /** Writes each observation of a series, in order, into the point of its date, when the
      map has one (`series.forEach(obs => { const point = dateMap.get(obs.date); ... })`). */
  method FillColumn(dateMap: map<int, HistoricalPoint>, series: seq<Observation>, col: Column)
    returns (m: map<int, HistoricalPoint>)
    ensures m.Keys == dateMap.Keys
    ensures forall d :: d in m ==> m[d] == Overlay(dateMap[d], col, LastValue(series, d))
  {
    m := dateMap;
    var i := 0;
    while i < |series|
      invariant 0 <= i <= |series|
      invariant m.Keys == dateMap.Keys
      invariant forall d :: d in m ==> m[d] == Overlay(dateMap[d], col, LastValue(series[..i], d))
    {
      var obs := series[i];
      assert series[..i + 1] == series[..i] + [obs];
      LastObservationWins(series[..i], obs);
      if obs.date in m {
        m := m[obs.date := SetColumn(m[obs.date], col, obs.value)];
      }
      i := i + 1;
    }
    assert series[..i] == series;
  }

  /** `allDates.forEach(date => dateMap.set(date, empty point))`. */
  method InitialMap(allDates: seq<int>) returns (dateMap: map<int, HistoricalPoint>)
    ensures forall d :: d in dateMap <==> d in allDates
    ensures forall d :: d in dateMap ==> dateMap[d] == EmptyPoint(d)
  {
    dateMap := map[];
    var i := 0;
    while i < |allDates|
      invariant 0 <= i <= |allDates|
      invariant forall d :: d in dateMap <==> d in allDates[..i]
      invariant forall d :: d in dateMap ==> dateMap[d] == EmptyPoint(d)
    {
      assert allDates[..i + 1] == allDates[..i] + [allDates[i]];
      dateMap := dateMap[allDates[i] := EmptyPoint(allDates[i])];
      i := i + 1;
    }
    assert allDates[..i] == allDates;
  }

  /** The three fill passes, starting from empty points, leave the last observed rates. */
  lemma FillThree(d: int, a: Option<real>, b: Option<real>, c: Option<real>)
    ensures Overlay(Overlay(Overlay(EmptyPoint(d), Col2Y, a), Col10Y, b), Col30Y, c)
      == HistoricalPoint(d, a, b, c, None)
  {
  }

  /** `dateMap.forEach(point => ...)`: visits the dates in insertion order and pushes each
      point with both a 2Y and a 10Y rate, after setting its spread. */
  method SpreadPass(allDates: seq<int>, dateMap: map<int, HistoricalPoint>,
                    s2: seq<Observation>, s10: seq<Observation>, s30: seq<Observation>)
    returns (historicalData: seq<HistoricalPoint>)
    requires forall d :: d in allDates ==> d in dateMap
    requires forall d :: d in dateMap ==> dateMap[d] == FilledPoint(d, s2, s10, s30)
    ensures historicalData == Collect(allDates, s2, s10, s30)
  {
    historicalData := [];
    var j := 0;
    while j < |allDates|
      invariant 0 <= j <= |allDates|
      invariant historicalData == Collect(allDates[..j], s2, s10, s30)
    {
      assert allDates[..j + 1][..j] == allDates[..j];
      var date := allDates[j];
      assert date in allDates;
      assert date in dateMap;
      var point := dateMap[date];
      if point.y2.Some? && point.y10.Some? {
        point := point.(spread2s10s := Some(point.y10.value - point.y2.value));
        historicalData := historicalData + [point];
      }
      j := j + 1;
    }
    assert allDates[..j] == allDates;
  }

  /** The map-building part of the route: one empty point per date, the three fill passes,
      then the spread pass. */
  method MergeSeries(dgs2: seq<Observation>, dgs10: seq<Observation>, dgs30: seq<Observation>)
    returns (historicalData: seq<HistoricalPoint>)
    ensures historicalData == Merge(dgs2, dgs10, dgs30)
  {
    var allDates := AllDates(dgs2, dgs10, dgs30);
    var dateMap := InitialMap(allDates);
    var m2 := FillColumn(dateMap, dgs2, Col2Y);
    var m10 := FillColumn(m2, dgs10, Col10Y);
    var m30 := FillColumn(m10, dgs30, Col30Y);
    forall d | d in m30
      ensures m30[d] == FilledPoint(d, dgs2, dgs10, dgs30)
    {
      FillThree(d, LastValue(dgs2, d), LastValue(dgs10, d), LastValue(dgs30, d));
    }
    historicalData := SpreadPass(allDates, m30, dgs2, dgs10, dgs30);
  }

  /** Some point of the list carries the date. */
  predicate HasPointOn(s: seq<HistoricalPoint>, date: int)
  {
    exists k :: 0 <= k < |s| && s[k].date == date
  }

  /** A point the route emits for the three series: both the 2Y and the 10Y series observe its
      date, its rates are the last ones observed on that date, its spread is 10Y minus 2Y, and
      its 30Y rate is known exactly when the 30Y series observes the date. */
  predicate Emitted(p: HistoricalPoint, s2: seq<Observation>, s10: seq<Observation>,
                    s30: seq<Observation>)
  {
    && p.date in DatesOf(s2) && p.date in DatesOf(s10)
    && p.y2 == LastValue(s2, p.date) && p.y10 == LastValue(s10, p.date)
    && p.y30 == LastValue(s30, p.date)
    && p.spread2s10s == Some(p.y10.value - p.y2.value)
    && (p.y30.Some? <==> p.date in DatesOf(s30))
  }

  /** The dates of a list are pairwise distinct. */
  predicate DistinctDates(s: seq<HistoricalPoint>)
  {
    forall i, j :: 0 <= i < j < |s| ==> s[i].date != s[j].date
  }

  /** Each point of r lies on a date of `order` and is emitted for the three series. */
  predicate AllEmitted(r: seq<HistoricalPoint>, order: seq<int>, s2: seq<Observation>,
                       s10: seq<Observation>, s30: seq<Observation>)
  {
    forall k :: 0 <= k < |r| ==> r[k].date in order && Emitted(r[k], s2, s10, s30)
  }

  /** Each collected point is emitted for the three series, on a date of `order`. */
  lemma {:induction false} CollectEmitted(order: seq<int>, s2: seq<Observation>,
                                          s10: seq<Observation>, s30: seq<Observation>)
    ensures AllEmitted(Collect(order, s2, s10, s30), order, s2, s10, s30)
  {
    if order != [] {
      var n := |order| - 1;
      var r0 := Collect(order[..n], s2, s10, s30);
      CollectEmitted(order[..n], s2, s10, s30);
      var p := FilledPoint(order[n], s2, s10, s30);
      var r := Collect(order, s2, s10, s30);
      forall k | 0 <= k < |r|
        ensures r[k].date in order && Emitted(r[k], s2, s10, s30)
      {
        if k < |r0| {
          assert r[k] == r0[k];
          assert r0[k].date in order[..n];
        } else {
          assert r[k] == WithSpread(p);
        }
      }
    }
  }

  /** A date of `order` has a collected point exactly when both the 2Y and the 10Y series
      observe it. */
  lemma {:induction false} CollectCovers(order: seq<int>, s2: seq<Observation>,
                                         s10: seq<Observation>, s30: seq<Observation>)
    ensures var r := Collect(order, s2, s10, s30);
      forall d :: HasPointOn(r, d) <==> d in order && d in DatesOf(s2) && d in DatesOf(s10)
  {
    if order != [] {
      var n := |order| - 1;
      var d := order[n];
      CollectCovers(order[..n], s2, s10, s30);
      assert order == order[..n] + [d];
      var r0 := Collect(order[..n], s2, s10, s30);
      var p := FilledPoint(d, s2, s10, s30);
      if Complete(p) {
        AppendPoint(r0, WithSpread(p));
      }
    }
  }

  /** The dates with a point after appending p are those before, and the date of p. */
  lemma AppendPoint(r: seq<HistoricalPoint>, p: HistoricalPoint)
    ensures forall e :: HasPointOn(r + [p], e) <==> HasPointOn(r, e) || e == p.date
  {
    var r1 := r + [p];
    assert r1[|r|] == p;
    forall e | HasPointOn(r1, e)
      ensures HasPointOn(r, e) || e == p.date
    {
      var k :| 0 <= k < |r1| && r1[k].date == e;
      if k < |r| {
        assert r[k].date == e;
      }
    }
    forall e | HasPointOn(r, e)
      ensures HasPointOn(r1, e)
    {
      var k :| 0 <= k < |r| && r[k].date == e;
      assert r1[k].date == e;
    }
  }

  /** Distinct dates in `order` give distinct dates among the collected points. */
  lemma {:induction false} CollectDistinct(order: seq<int>, s2: seq<Observation>,
                                           s10: seq<Observation>, s30: seq<Observation>)
    requires forall i, j :: 0 <= i < j < |order| ==> order[i] != order[j]
    ensures DistinctDates(Collect(order, s2, s10, s30))
  {
    if order != [] {
      var n := |order| - 1;
      var d := order[n];
      var r0 := Collect(order[..n], s2, s10, s30);
      CollectDistinct(order[..n], s2, s10, s30);
      CollectEmitted(order[..n], s2, s10, s30);
      var r := Collect(order, s2, s10, s30);
      forall i, j | 0 <= i < j < |r|
        ensures r[i].date != r[j].date
      {
        assert r[i] == r0[i];
        assert r0[i].date in order[..n];
        if j < |r0| {
          assert r[j] == r0[j];
        } else {
          assert r[j].date == d;
          assert d !in order[..n];
        }
      }
    }
  }

  /** The joined list holds one point per date observed by both the 2Y and the 10Y series,
      each emitted for the three series, and no date twice. */
  lemma MergeSpec(s2: seq<Observation>, s10: seq<Observation>, s30: seq<Observation>)
    ensures var r := Merge(s2, s10, s30);
      && (forall k :: 0 <= k < |r| ==> Emitted(r[k], s2, s10, s30))
      && (forall d :: HasPointOn(r, d) <==> d in DatesOf(s2) && d in DatesOf(s10))
      && DistinctDates(r)
  {
    var order := AllDates(s2, s10, s30);
    CollectEmitted(order, s2, s10, s30);
    CollectCovers(order, s2, s10, s30);
    CollectDistinct(order, s2, s10, s30);
    forall d | d in DatesOf(s2)
      ensures d in order
    {
      assert d in DatesOf(s2) + DatesOf(s10) + DatesOf(s30);
    }
  }

  // ---------------------------------------------------------------------------------------
  // Sorting by date

  predicate SortedByDate(s: seq<HistoricalPoint>)
  {
    forall i, j :: 0 <= i < j < |s| ==> s[i].date <= s[j].date
  }

  predicate StrictlyAscending(s: seq<HistoricalPoint>)
  {
    forall i, j :: 0 <= i < j < |s| ==> s[i].date < s[j].date
  }

  /** Puts p after every leading point whose date is not later than its own: one step of a
      stable insertion sort. */
  function Insert(s: seq<HistoricalPoint>, p: HistoricalPoint): (r: seq<HistoricalPoint>)
    ensures |r| == |s| + 1
    ensures multiset(r) == multiset(s) + multiset{p}
  {
    if s == [] then [p]
    else if p.date < s[0].date then [p] + s
    else
      assert s == [s[0]] + s[1..];
      [s[0]] + Insert(s[1..], p)
  }

  /** Every point of Insert(s, p) is p or a point of s. */
  lemma InsertMembers(s: seq<HistoricalPoint>, p: HistoricalPoint, x: HistoricalPoint)
    requires x in Insert(s, p)
    ensures x == p || exists i :: 0 <= i < |s| && s[i] == x
  {
    assert x in multiset(Insert(s, p));
    if x != p {
      assert x in multiset(s);
      assert x in s;
    }
  }

  /** Inserting into a sorted list keeps it sorted. */
  lemma {:induction false} InsertSorted(s: seq<HistoricalPoint>, p: HistoricalPoint)
    requires SortedByDate(s)
    ensures SortedByDate(Insert(s, p))
  {
    if s != [] && p.date >= s[0].date {
      var t := Insert(s[1..], p);
      InsertSorted(s[1..], p);
      var r := [s[0]] + t;
      forall j | 0 < j < |r|
        ensures s[0].date <= r[j].date
      {
        InsertMembers(s[1..], p, t[j - 1]);
      }
    }
  }

  /** Inserting a new date into a strictly ascending list keeps it strictly ascending. */
  lemma {:induction false} InsertStrict(s: seq<HistoricalPoint>, p: HistoricalPoint)
    requires StrictlyAscending(s)
    requires forall i :: 0 <= i < |s| ==> s[i].date != p.date
    ensures StrictlyAscending(Insert(s, p))
  {
    if s != [] && p.date >= s[0].date {
      var t := Insert(s[1..], p);
      InsertStrict(s[1..], p);
      var r := [s[0]] + t;
      forall j | 0 < j < |r|
        ensures s[0].date < r[j].date
      {
        InsertMembers(s[1..], p, t[j - 1]);
      }
    }
  }

  /** `historicalData.sort((a, b) => date(a) - date(b))`: a stable sort by ascending date. */
  function SortByDate(s: seq<HistoricalPoint>): (r: seq<HistoricalPoint>)
    ensures |r| == |s|
    ensures multiset(r) == multiset(s)
    ensures SortedByDate(r)
  {
    if s == [] then []
    else
      var n := |s| - 1;
      assert s == s[..n] + [s[n]];
      InsertSorted(SortByDate(s[..n]), s[n]);
      Insert(SortByDate(s[..n]), s[n])
  }

  /** Sorting a list whose dates are distinct leaves the dates strictly ascending. */
  lemma {:induction false} SortDistinct(s: seq<HistoricalPoint>)
    requires DistinctDates(s)
    ensures StrictlyAscending(SortByDate(s))
  {
    if s != [] {
      var n := |s| - 1;
      var t := SortByDate(s[..n]);
      SortDistinct(s[..n]);
      forall i | 0 <= i < |t|
        ensures t[i].date != s[n].date
      {
        assert t[i] in multiset(s[..n]);
        var k :| 0 <= k < n && s[..n][k] == t[i];
      }
      InsertStrict(t, s[n]);
    }
  }

  // ---------------------------------------------------------------------------------------
  // Down-sampling

  const MaxPoints: nat := 100

  /** `Math.ceil(n / maxPoints)`. */
  function StepFor(n: nat): (step: nat)
    requires n > 0
    ensures step >= 1
    ensures n <= MaxPoints * step && MaxPoints * (step - 1) < n
  {
    (n + MaxPoints - 1) / MaxPoints
  }

  /** `filter((_, index) => index % step === 0)`: the points whose index is a multiple of
      the step. */
  function EveryNth(s: seq<HistoricalPoint>, step: nat): seq<HistoricalPoint>
    requires step >= 1
  {
    if s == [] then []
    else
      var n := |s| - 1;
      var r := EveryNth(s[..n], step);
      if n % step == 0 then r + [s[n]] else r
  }

  /** Scaling by a positive step preserves order. */
  lemma ScaleOrder(a: int, b: int, step: int)
    requires step >= 1
    ensures a < b <==> a * step < b * step
    ensures a == b <==> a * step == b * step
  {
    if a < b {
      assert b * step - a * step == (b - a) * step;
    } else if b < a {
      assert a * step - b * step == (a - b) * step;
    }
  }

  /** A multiple of the step leaves remainder 0. */
  lemma MultipleMod(c: nat, step: nat)
    requires step >= 1
    ensures (c * step) % step == 0
  {
    var q, m := (c * step) / step, (c * step) % step;
    assert c * step == q * step + m;
    assert (c - q) * step == m;
    ScaleOrder(c - q, 0, step);
    ScaleOrder(c - q, 1, step);
  }

  /** EveryNth keeps the points at indices 0, step, 2 step, ... below |s|: the k-th kept
      point is s[k step], and (c - 1) step < |s| <= c step for the count c of kept points. */
  lemma {:induction false} EveryNthSpec(s: seq<HistoricalPoint>, step: nat)
    requires step >= 1
    ensures var r := EveryNth(s, step);
      && (|s| > 0 ==> |r| >= 1 && (|r| - 1) * step < |s| <= |r| * step)
      && (forall k :: 0 <= k < |r| ==> k * step < |s| && r[k] == s[k * step])
  {
    if s != [] {
      var n := |s| - 1;
      var r0 := EveryNth(s[..n], step);
      EveryNthSpec(s[..n], step);
      var c := |r0|;
      if n % step == 0 {
        var q := n / step;
        assert n == q * step;
        if n > 0 {
          ScaleOrder(c - 1, q, step);
          ScaleOrder(c, q, step);
        } else {
          ScaleOrder(q, 0, step);
        }
        assert n == c * step;
        assert (c + 1) * step == c * step + step;
      } else {
        MultipleMod(c, step);
        assert n != c * step;
      }
    }
  }

  /** The down-sampled list: every step-th point, then the last point when it was not kept.
      (`finalData[last] !== historicalData[last]` compares objects, which differ exactly when
      the last index is not a multiple of the step.) */
  function Resampled(data: seq<HistoricalPoint>): seq<HistoricalPoint>
  {
    if |data| <= MaxPoints then data
    else
      var step := StepFor(|data|);
      var kept := EveryNth(data, step);
      if (|data| - 1) % step != 0 then kept + [data[|data| - 1]] else kept
  }

  /** The down-sampling loop: keeps each index that is a multiple of the step, then appends
      the last point when it was not kept. */
  method Resample(historicalData: seq<HistoricalPoint>) returns (finalData: seq<HistoricalPoint>)
    ensures finalData == Resampled(historicalData)
  {
    var n := |historicalData|;
    finalData := historicalData;
    if n > MaxPoints {
      var step := StepFor(n);
      finalData := [];
      var index := 0;
      while index < n
        invariant 0 <= index <= n
        invariant finalData == EveryNth(historicalData[..index], step)
      {
        assert historicalData[..index + 1][..index] == historicalData[..index];
        if index % step == 0 {
          finalData := finalData + [historicalData[index]];
        }
        index := index + 1;
      }
      assert historicalData[..index] == historicalData;
      if (n - 1) % step != 0 {
        finalData := finalData + [historicalData[n - 1]];
      }
    }
  }

  /** `r` is the subsequence of `s` at the strictly increasing indices `idx`. */
  predicate SelectedAt(r: seq<HistoricalPoint>, s: seq<HistoricalPoint>, idx: seq<nat>)
  {
    && |idx| == |r|
    && (forall k :: 0 <= k < |idx| ==> idx[k] < |s| && r[k] == s[idx[k]])
    && (forall k, l :: 0 <= k < l < |idx| ==> idx[k] < idx[l])
  }

  /** The multiples of the step below n. */
  function Multiples(c: nat, step: nat): (m: seq<nat>)
    requires step >= 1
    ensures |m| == c
    ensures forall k :: 0 <= k < c ==> m[k] == k * step
    ensures forall k, l :: 0 <= k < l < c ==> m[k] < m[l]
  {
    if c == 0 then []
    else
      ScaleOrder(c - 1, c, step);
      var m := Multiples(c - 1, step);
      assert forall k :: 0 <= k < c - 1 ==> k * step < (c - 1) * step by {
        forall k | 0 <= k < c - 1 ensures k * step < (c - 1) * step {
          ScaleOrder(k, c - 1, step);
        }
      }
      m + [(c - 1) * step]
  }

  /** The indices the down-sampling keeps: all of them up to 100 points, otherwise the
      multiples of the step, and the last index when it is not one. */
  function ResampleIndices(n: nat): seq<nat>
  {
    if n <= MaxPoints then seq(n, k => k)
    else
      var step := StepFor(n);
      var multiples := Multiples((n - 1) / step + 1, step);
      if (n - 1) % step != 0 then multiples + [n - 1] else multiples
  }

  /** The points EveryNth keeps are those at the multiples of the step. */
  lemma KeptSelected(data: seq<HistoricalPoint>, step: nat)
    requires step >= 1
    ensures SelectedAt(EveryNth(data, step), data, Multiples(|EveryNth(data, step)|, step))
  {
    EveryNthSpec(data, step);
  }

  /** Appending a point after every selected index extends the selection. */
  lemma SelectAppend(r: seq<HistoricalPoint>, s: seq<HistoricalPoint>, idx: seq<nat>, i: nat)
    requires SelectedAt(r, s, idx) && i < |s|
    requires forall k :: 0 <= k < |idx| ==> idx[k] < i
    ensures SelectedAt(r + [s[i]], s, idx + [i])
  {
  }

  /** The last kept index (c - 1) step is the last index exactly when that index is a
      multiple of the step, and lies before it otherwise. */
  lemma LastKept(n: nat, c: nat, step: nat)
    requires n > MaxPoints && step == StepFor(n)
    requires (c - 1) * step < n <= c * step
    ensures c >= 1
    ensures (n - 1) % step == 0 ==> (c - 1) * step == n - 1
    ensures (n - 1) % step != 0 ==> (c - 1) * step < n - 1
  {
    ResampleCount(n, c, step);
    var q := (n - 1) / step;
    if (n - 1) % step == 0 {
      assert n - 1 == q * step;
    } else {
      MultipleMod(c - 1, step);
    }
  }

  /** The count of kept points, and where the last kept index lies, stated without
      products. */
  lemma KeptCount(data: seq<HistoricalPoint>)
    requires |data| > MaxPoints
    ensures var n, step := |data|, StepFor(|data|);
      var c := |EveryNth(data, step)|;
      && 1 <= c <= MaxPoints && c == (n - 1) / step + 1
      && ((n - 1) % step == 0 ==> Multiples(c, step)[c - 1] == n - 1)
      && ((n - 1) % step != 0 ==> Multiples(c, step)[c - 1] < n - 1)
  {
    var n, step := |data|, StepFor(|data|);
    var c := |EveryNth(data, step)|;
    EveryNthSpec(data, step);
    ResampleCount(n, c, step);
    LastKept(n, c, step);
  }

  /** With more than 100 points, the kept indices are the multiples of the step below the
      length, then the last index when it is not one; the result starts with the first point
      and ends with the last one. */
  lemma ResampleLong(data: seq<HistoricalPoint>)
    requires |data| > MaxPoints
    ensures SelectedAt(Resampled(data), data, ResampleIndices(|data|))
    ensures var r := Resampled(data);
      && |r| <= MaxPoints + 1
      && r[0] == data[0] && r[|r| - 1] == data[|data| - 1]
  {
    var n := |data|;
    var step := StepFor(n);
    var kept := EveryNth(data, step);
    var multiples := Multiples(|kept|, step);
    var appended := (n - 1) % step != 0;
    KeptCount(data);
    KeptSelected(data, step);
    assert ResampleIndices(n) == if appended then multiples + [n - 1] else multiples;
    assert Resampled(data) == if appended then kept + [data[n - 1]] else kept;
    if appended {
      LastAppended(kept, data, multiples);
    }
  }

  /** A selection whose first index is 0 and whose last index lies before the last point
      stays a selection, starting with the first point, once the last point is appended. */
  lemma LastAppended(kept: seq<HistoricalPoint>, data: seq<HistoricalPoint>, multiples: seq<nat>)
    requires SelectedAt(kept, data, multiples) && |multiples| >= 1
    requires multiples[|multiples| - 1] < |data| - 1
    ensures SelectedAt(kept + [data[|data| - 1]], data, multiples + [|data| - 1])
    ensures (kept + [data[|data| - 1]])[0] == kept[0]
  {
    var c := |multiples|;
    forall k | 0 <= k < c
      ensures multiples[k] < |data| - 1
    {
      if k < c - 1 {
        assert multiples[k] < multiples[c - 1];
      }
    }
    SelectAppend(kept, data, multiples, |data| - 1);
  }

  /** With at most 100 points the list is returned as it is. With more, the result is an
      order-preserving selection of at most 101 points that starts with the first point and
      ends with the last one. */
  lemma ResampleSpec(data: seq<HistoricalPoint>)
    ensures |data| <= MaxPoints ==> Resampled(data) == data
    ensures SelectedAt(Resampled(data), data, ResampleIndices(|data|))
    ensures |data| > MaxPoints ==>
      var r := Resampled(data);
      && |r| <= MaxPoints + 1
      && r[0] == data[0] && r[|r| - 1] == data[|data| - 1]
  {
    if |data| > MaxPoints {
      ResampleLong(data);
    }
  }

  /** The count c of kept points satisfies c = (n - 1) / step + 1 <= 100. */
  lemma ResampleCount(n: nat, c: nat, step: nat)
    requires n > MaxPoints && step == StepFor(n)
    requires (c - 1) * step < n <= c * step
    ensures c == (n - 1) / step + 1 && c <= MaxPoints
  {
    var q := (n - 1) / step;
    CountBetween(n - 1, q, (n - 1) % step, c, step);
    ScaleOrder(c - 1, MaxPoints, step);
  }

  /** If m = q step + r with 0 <= r < step and (c - 1) step <= m < c step then c = q + 1. */
  lemma CountBetween(m: int, q: int, r: int, c: int, step: int)
    requires step >= 1 && 0 <= r < step && m == q * step + r
    requires (c - 1) * step <= m < c * step
    ensures c == q + 1
  {
    ScaleOrder(c - 1, q + 1, step);
    ScaleOrder(q, c, step);
    assert (q + 1) * step == q * step + step;
  }

  // ---------------------------------------------------------------------------------------
  // The route

  /** The route's answer: the sample table, or the live rows with the count before
      down-sampling. */
  datatype Response =
    | SampleResponse(data: seq<HistoricalPoint>)
    | LiveResponse(data: seq<HistoricalPoint>, totalPoints: nat, displayedPoints: nat)

  /** `getSampleHistoricalData`: eleven dated rows from 2024. */
  const SampleHistoricalData: seq<HistoricalPoint> := [
    HistoricalPoint(20240102, Some(4.21), Some(3.95), Some(4.12), Some(-0.26)),
    HistoricalPoint(20240201, Some(4.43), Some(4.1), Some(4.25), Some(-0.33)),
    HistoricalPoint(20240301, Some(4.59), Some(4.2), Some(4.34), Some(-0.39)),
    HistoricalPoint(20240401, Some(4.72), Some(4.35), Some(4.48), Some(-0.37)),
    HistoricalPoint(20240501, Some(4.87), Some(4.42), Some(4.54), Some(-0.45)),
    HistoricalPoint(20240603, Some(4.71), Some(4.28), Some(4.43), Some(-0.43)),
    HistoricalPoint(20240701, Some(4.51), Some(4.18), Some(4.38), Some(-0.33)),
    HistoricalPoint(20240801, Some(4.38), Some(4.02), Some(4.26), Some(-0.36)),
    HistoricalPoint(20240903, Some(3.62), Some(3.71), Some(4.03), Some(0.09)),
    HistoricalPoint(20241001, Some(4.08), Some(4.21), Some(4.45), Some(0.13)),
    HistoricalPoint(20241101, Some(4.15), Some(4.28), Some(4.48), Some(0.13))
  ]

  /** The live rows the route returns for three parsed series. */
  function LiveData(s2: seq<Observation>, s10: seq<Observation>, s30: seq<Observation>)
    : seq<HistoricalPoint>
  {
    Resampled(SortByDate(Merge(s2, s10, s30)))
  }

  /** `GET`: sample data without an API key or when all three series come back empty;
      otherwise the joined, sorted and down-sampled rows. */
  method HistoricalRates(hasApiKey: bool, raw2: seq<RawObservation>, raw10: seq<RawObservation>,
                         raw30: seq<RawObservation>) returns (response: Response)
    ensures var s2, s10, s30 := ParseObservations(raw2), ParseObservations(raw10),
                                ParseObservations(raw30);
      && (!hasApiKey || (s2 == [] && s10 == [] && s30 == []) <==> response.SampleResponse?)
      && (response.SampleResponse? ==> response.data == SampleHistoricalData)
      && (response.LiveResponse? ==>
            && response.data == LiveData(s2, s10, s30)
            && response.totalPoints == |Merge(s2, s10, s30)|
            && response.displayedPoints == |response.data|)
  {
    if !hasApiKey {
      return SampleResponse(SampleHistoricalData);
    }
    var dgs2 := ParseObservations(raw2);
    var dgs10 := ParseObservations(raw10);
    var dgs30 := ParseObservations(raw30);
    if |dgs2| == 0 && |dgs10| == 0 && |dgs30| == 0 {
      return SampleResponse(SampleHistoricalData);
    }
    var historicalData := MergeSeries(dgs2, dgs10, dgs30);
    historicalData := SortByDate(historicalData);
    var finalData := Resample(historicalData);
    response := LiveResponse(finalData, |historicalData|, |finalData|);
  }

  /** A selection at increasing indices takes points of the list and keeps strict order. */
  lemma SelectionOrdered(r: seq<HistoricalPoint>, s: seq<HistoricalPoint>, idx: seq<nat>)
    requires SelectedAt(r, s, idx)
    ensures forall k :: 0 <= k < |r| ==> r[k] in s
    ensures StrictlyAscending(s) ==> StrictlyAscending(r)
  {
    forall k | 0 <= k < |r|
      ensures r[k] in s
    {
      assert r[k] == s[idx[k]];
    }
    if StrictlyAscending(s) {
      forall i, j | 0 <= i < j < |r|
        ensures r[i].date < r[j].date
      {
        assert r[i] == s[idx[i]] && r[j] == s[idx[j]];
      }
    }
  }

  /** The sorted join holds the same points as the join, in strictly ascending date order. */
  lemma SortedMerge(s2: seq<Observation>, s10: seq<Observation>, s30: seq<Observation>)
    ensures var merged := Merge(s2, s10, s30);
      var sorted := SortByDate(merged);
      && (forall x :: x in sorted <==> x in merged)
      && StrictlyAscending(sorted)
  {
    var merged := Merge(s2, s10, s30);
    MergeSpec(s2, s10, s30);
    SortDistinct(merged);
    var sorted := SortByDate(merged);
    forall x
      ensures x in sorted <==> x in merged
    {
      assert x in sorted <==> x in multiset(sorted);
      assert x in merged <==> x in multiset(merged);
    }
  }

  /** Every live row is emitted for the three series; the dates strictly ascend; at most 101
      rows are returned. */
  lemma LiveDataRows(s2: seq<Observation>, s10: seq<Observation>, s30: seq<Observation>)
    ensures var r := LiveData(s2, s10, s30);
      && (forall k :: 0 <= k < |r| ==> Emitted(r[k], s2, s10, s30))
      && StrictlyAscending(r)
      && |r| <= MaxPoints + 1
  {
    var merged := Merge(s2, s10, s30);
    var sorted := SortByDate(merged);
    var r := Resampled(sorted);
    MergeSpec(s2, s10, s30);
    SortedMerge(s2, s10, s30);
    ResampleSpec(sorted);
    SelectionOrdered(r, sorted, ResampleIndices(|sorted|));
    forall k | 0 <= k < |r|
      ensures Emitted(r[k], s2, s10, s30)
    {
      var i :| 0 <= i < |merged| && merged[i] == r[k];
    }
  }

  /** When at most 100 points were joined, a date has a live row exactly when both the 2Y
      and the 10Y series observe it. */
  lemma LiveDataCovers(s2: seq<Observation>, s10: seq<Observation>, s30: seq<Observation>)
    requires |Merge(s2, s10, s30)| <= MaxPoints
    ensures forall d :: HasPointOn(LiveData(s2, s10, s30), d) <==>
      d in DatesOf(s2) && d in DatesOf(s10)
  {
    var merged := Merge(s2, s10, s30);
    var r := SortByDate(merged);
    MergeSpec(s2, s10, s30);
    SortedMerge(s2, s10, s30);
    assert LiveData(s2, s10, s30) == r;
    forall d
      ensures HasPointOn(r, d) <==> HasPointOn(merged, d)
    {
      if HasPointOn(r, d) {
        var k :| 0 <= k < |r| && r[k].date == d;
        assert r[k] in merged;
        var i :| 0 <= i < |merged| && merged[i] == r[k];
      }
      if HasPointOn(merged, d) {
        var k :| 0 <= k < |merged| && merged[k].date == d;
        assert merged[k] in r;
        var i :| 0 <= i < |r| && r[i] == merged[k];
      }
    }
  }

  /** The sample rows are in date order and each spread is its 10Y rate minus its 2Y rate. */
  lemma SampleDataConsistent()
    ensures StrictlyAscending(SampleHistoricalData)
    ensures forall k :: 0 <= k < |SampleHistoricalData| ==>
      var p := SampleHistoricalData[k];
      Complete(p) && p.spread2s10s == Some(p.y10.value - p.y2.value)
  {
  }
}
