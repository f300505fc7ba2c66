/** The analyzer: daily cost and unit rate, and the hour of largest
    absolute imbalance, over the merged half-hourly series. */
module Analysis {
  import opened Results
  import opened Records
  import opened Reals
  import Timestamps

  /** An analysis input: a table of merged rows, or a value of another kind. */
  datatype Input = DataFrame(rows: seq<MergedRecord>) | NotDataFrame

  datatype DailyCosts = DailyCosts(date: int, totalCost: real, unitRate: real)

  datatype Direction = Surplus | Deficit

  /** The peak hour: its bucket (hours since 1970-01-01 00:00), its clock
      hour, its summed imbalance and whether that is a surplus or a deficit. */
  datatype PeakHour = PeakHour(date: int, bucket: int, hour: int, quantity: real, direction: Direction)

  const MinutesPerHour := 60
  const HoursPerDay := 24

  /** The calendar date (day number) of the minute `t`. */
  function DateOf(t: int): (d: int)
    ensures d * Timestamps.MinutesPerDay <= t < (d + 1) * Timestamps.MinutesPerDay
  {
    t / Timestamps.MinutesPerDay
  }

  /** The hour bucket (hours since 1970-01-01 00:00) holding the minute `t`. */
  function HourOf(t: int): (h: int)
    ensures h * MinutesPerHour <= t < (h + 1) * MinutesPerHour
  {
    t / MinutesPerHour
  }

  function Costs(rows: seq<MergedRecord>): seq<real>
  {
    seq(|rows|, i requires 0 <= i < |rows| => rows[i].imbalanceCost)
  }

  function Prices(rows: seq<MergedRecord>): seq<real>
  {
    seq(|rows|, i requires 0 <= i < |rows| => rows[i].imbalancePriceAmount)
  }

  function Quantities(rows: seq<MergedRecord>): seq<real>
  {
    seq(|rows|, i requires 0 <= i < |rows| => rows[i].imbalanceQuantity)
  }

  /** The day's total imbalance cost and mean price, dated by the first row.
      A table without rows has no first row, which fails the calculation. */
  function CalcDailyCosts(input: Input): (r: Result<DailyCosts, Error>)
    ensures r == Failure(NotADataFrame) <==> input.NotDataFrame?
    ensures r == Failure(CalculationFailed) <==> input.DataFrame? && |input.rows| == 0
    ensures input.DataFrame? && |input.rows| > 0 ==> r.Success?
    ensures r.Success? ==>
              && r.value.totalCost == Sum(Costs(input.rows))
              && r.value.unitRate * (|input.rows| as real) == Sum(Prices(input.rows))
              && r.value.date * Timestamps.MinutesPerDay <= input.rows[0].startTime
              && input.rows[0].startTime < (r.value.date + 1) * Timestamps.MinutesPerDay
  {
    match input
    case NotDataFrame => Failure(NotADataFrame)
    case DataFrame(rows) =>
      if |rows| == 0 then Failure(CalculationFailed)
      else Success(DailyCosts(DateOf(rows[0].startTime), Sum(Costs(rows)), Mean(Prices(rows))))
  }

  /** The unit rate lies between any bounds on the day's prices. */
  lemma UnitRateBetween(rows: seq<MergedRecord>, lo: real, hi: real)
    requires |rows| > 0
    requires forall i :: 0 <= i < |rows| ==> lo <= rows[i].imbalancePriceAmount <= hi
    ensures lo <= CalcDailyCosts(DataFrame(rows)).value.unitRate <= hi
  {
    MeanBetween(Prices(rows), lo, hi);
  }

  /** The total cost of two stretches of rows is the sum of their totals. */
  lemma TotalCostAdditive(a: seq<MergedRecord>, b: seq<MergedRecord>)
    requires |a| > 0
    ensures CalcDailyCosts(DataFrame(a + b)).value.totalCost ==
            Sum(Costs(a)) + Sum(Costs(b))
  {
    assert Costs(a + b) == Costs(a) + Costs(b);
    SumConcat(Costs(a), Costs(b));
  }

  /** The summed imbalance of the rows that start in hour bucket `h`. */
  function QtyInHour(rows: seq<MergedRecord>, h: int): real
    decreases |rows|
  {
    if |rows| == 0 then 0.0
    else
      var last := rows[|rows| - 1];
      QtyInHour(rows[..|rows| - 1], h) + (if HourOf(last.startTime) == h then last.imbalanceQuantity else 0.0)
  }

  /** The earliest hour bucket of a non-empty table. */
  function FirstHour(rows: seq<MergedRecord>): (h: int)
    requires |rows| > 0
    ensures forall i :: 0 <= i < |rows| ==> h <= HourOf(rows[i].startTime)
    ensures exists i :: 0 <= i < |rows| && h == HourOf(rows[i].startTime)
    decreases |rows|
  {
    var here := HourOf(rows[|rows| - 1].startTime);
    if |rows| == 1 then here
    else
      var h := FirstHour(rows[..|rows| - 1]);
      if here < h then here else h
  }

  /** The latest hour bucket of a non-empty table. */
  function LastHour(rows: seq<MergedRecord>): (h: int)
    requires |rows| > 0
    ensures forall i :: 0 <= i < |rows| ==> HourOf(rows[i].startTime) <= h
    ensures exists i :: 0 <= i < |rows| && h == HourOf(rows[i].startTime)
    decreases |rows|
  {
    var here := HourOf(rows[|rows| - 1].startTime);
    if |rows| == 1 then here
    else
      var h := LastHour(rows[..|rows| - 1]);
      if here > h then here else h
  }

  /** One more row adds its imbalance to its own hour only. */
  lemma QtyInHourSnoc(rows: seq<MergedRecord>, x: MergedRecord, h: int)
    ensures QtyInHour(rows + [x], h) ==
            QtyInHour(rows, h) + (if HourOf(x.startTime) == h then x.imbalanceQuantity else 0.0)
  {
    assert (rows + [x])[..|rows|] == rows;
  }

  /** One more row moves the hour range out to its own hour if needed. */
  lemma HourRangeSnoc(rows: seq<MergedRecord>, x: MergedRecord)
    requires |rows| > 0
    ensures FirstHour(rows + [x]) == if HourOf(x.startTime) < FirstHour(rows) then HourOf(x.startTime) else FirstHour(rows)
    ensures LastHour(rows + [x]) == if HourOf(x.startTime) > LastHour(rows) then HourOf(x.startTime) else LastHour(rows)
  {
    assert (rows + [x])[..|rows|] == rows;
  }

  /** The summed imbalance of `n` consecutive hour buckets from `lo`. */
  function Buckets(rows: seq<MergedRecord>, lo: int, n: nat): (b: seq<real>)
    ensures |b| == n
    ensures forall k :: 0 <= k < n ==> b[k] == QtyInHour(rows, lo + k)
  {
    if n == 0 then [] else Buckets(rows, lo, n - 1) + [QtyInHour(rows, lo + n - 1)]
  }

  /** Hourly sums over every hour from the first row's to the last row's,
      empty hours included with sum zero. */
  function HourlyVolumes(rows: seq<MergedRecord>): seq<real>
    requires |rows| > 0
  {
    Buckets(rows, FirstHour(rows), LastHour(rows) - FirstHour(rows) + 1)
  }

  /** Among the hours `lo..hi`, hour `h` has the largest |sum| and every
      earlier one a strictly smaller |sum|. */
  ghost predicate PeakAmong(rows: seq<MergedRecord>, lo: int, hi: int, h: int)
  {
    && lo <= h <= hi
    && (forall g :: lo <= g <= hi ==> Abs(QtyInHour(rows, g)) <= Abs(QtyInHour(rows, h)))
    && (forall g :: lo <= g < h ==> Abs(QtyInHour(rows, g)) < Abs(QtyInHour(rows, h)))
  }

  /** The first hour of largest |sum| among the `n` hours from `lo`: the
      first-occurrence arg-max of the absolute hourly series. */
  function PeakFrom(rows: seq<MergedRecord>, lo: int, n: nat): (h: int)
    requires n > 0
    ensures PeakAmong(rows, lo, lo + n - 1, h)
    decreases n
  {
    if n == 1 then lo
    else
      var h := PeakFrom(rows, lo, n - 1);
      if Abs(QtyInHour(rows, lo + n - 1)) > Abs(QtyInHour(rows, h)) then lo + n - 1 else h
  }

  /** The summed imbalance of the rows that start in hours `lo .. lo + n - 1`. */
  function QtyInRange(rows: seq<MergedRecord>, lo: int, n: nat): real
    decreases |rows|
  {
    if |rows| == 0 then 0.0
    else
      var last := rows[|rows| - 1];
      var h := HourOf(last.startTime);
      QtyInRange(rows[..|rows| - 1], lo, n) + (if lo <= h < lo + n then last.imbalanceQuantity else 0.0)
  }

  /** Widening a range by one hour adds that hour's sum. */
  lemma {:induction false} RangeGrows(rows: seq<MergedRecord>, lo: int, n: nat)
    ensures QtyInRange(rows, lo, n + 1) == QtyInRange(rows, lo, n) + QtyInHour(rows, lo + n)
    decreases |rows|
  {
    if |rows| > 0 {
      RangeGrows(rows[..|rows| - 1], lo, n);
    }
  }

  /** The buckets of a range sum to the range's total. */
  lemma {:induction false} BucketsSum(rows: seq<MergedRecord>, lo: int, n: nat)
    ensures Sum(Buckets(rows, lo, n)) == QtyInRange(rows, lo, n)
    decreases n
  {
    if n == 0 {
      EmptyRange(rows, lo);
    } else {
      var b := Buckets(rows, lo, n);
      assert b[..n - 1] == Buckets(rows, lo, n - 1);
      BucketsSum(rows, lo, n - 1);
      RangeGrows(rows, lo, n - 1);
    }
  }

  lemma {:induction false} EmptyRange(rows: seq<MergedRecord>, lo: int)
    ensures QtyInRange(rows, lo, 0) == 0.0
    decreases |rows|
  {
    if |rows| > 0 {
      EmptyRange(rows[..|rows| - 1], lo);
    }
  }

  /** A range holding every row's hour sums every row's imbalance. */
  lemma {:induction false} RangeCoversAll(rows: seq<MergedRecord>, lo: int, n: nat)
    requires forall i :: 0 <= i < |rows| ==> lo <= HourOf(rows[i].startTime) < lo + n
    ensures QtyInRange(rows, lo, n) == Sum(Quantities(rows))
    decreases |rows|
  {
    if |rows| > 0 {
      var init := rows[..|rows| - 1];
      assert forall i :: 0 <= i < |init| ==> init[i] == rows[i];
      assert Quantities(rows)[..|rows| - 1] == Quantities(init);
      RangeCoversAll(init, lo, n);
    }
  }

  /** The hourly series partitions the rows: its sums add up to the total
      imbalance of the table. */
  lemma HourlyVolumesPartition(rows: seq<MergedRecord>)
    requires |rows| > 0
    ensures Sum(HourlyVolumes(rows)) == Sum(Quantities(rows))
  {
    var lo := FirstHour(rows);
    var n := LastHour(rows) - lo + 1;
    BucketsSum(rows, lo, n);
    RangeCoversAll(rows, lo, n);
  }

  /** The hour of largest absolute summed imbalance, the earliest of equals.
      The direction is a surplus only for a positive sum. */
  function CalcHighestHourlyImbalance(input: Input): (r: Result<PeakHour, Error>)
    ensures r == Failure(NotADataFrame) <==> input.NotDataFrame?
    ensures r == Failure(CalculationFailed) <==> input.DataFrame? && |input.rows| == 0
    ensures input.DataFrame? && |input.rows| > 0 ==> r.Success?
    ensures r.Success? ==>
              && input.DataFrame? && |input.rows| > 0
              && FirstHour(input.rows) <= r.value.bucket <= LastHour(input.rows)
              && 0 <= r.value.hour < HoursPerDay
              && r.value.hour == r.value.bucket % HoursPerDay
              && r.value.quantity == QtyInHour(input.rows, r.value.bucket)
              && (r.value.direction == Surplus <==> r.value.quantity > 0.0)
              && r.value.date == DateOf(input.rows[0].startTime)
    ensures r.Success? ==> IsPeak(input.rows, r.value.bucket)
  {
    match input
    case NotDataFrame => Failure(NotADataFrame)
    case DataFrame(rows) =>
      if |rows| == 0 then Failure(CalculationFailed)
      else
        SelectPeakIsPeak(rows);
        Success(SelectPeak(rows))
  }

  /** The peak hour of a non-empty table. */
  function SelectPeak(rows: seq<MergedRecord>): (p: PeakHour)
    requires |rows| > 0
    ensures FirstHour(rows) <= p.bucket <= LastHour(rows)
    ensures 0 <= p.hour < HoursPerDay && p.hour == p.bucket % HoursPerDay
    ensures p.quantity == QtyInHour(rows, p.bucket)
    ensures p.direction == Surplus <==> p.quantity > 0.0
    ensures p.date == DateOf(rows[0].startTime)
  {
    var lo := FirstHour(rows);
    var bucket := PeakFrom(rows, lo, LastHour(rows) - lo + 1);
    var quantity := QtyInHour(rows, bucket);
    PeakHour(DateOf(rows[0].startTime), bucket, bucket % HoursPerDay, quantity,
             if quantity > 0.0 then Surplus else Deficit)
  }

  /** Bucket `h` holds a row, no hour's |sum| exceeds its |sum|, and every
      earlier hour holding a row has a strictly smaller |sum|. */
  ghost predicate IsPeak(rows: seq<MergedRecord>, h: int)
  {
    && (exists i :: 0 <= i < |rows| && HourOf(rows[i].startTime) == h)
    && (forall g :: Abs(QtyInHour(rows, g)) <= Abs(QtyInHour(rows, h)))
    && (forall i :: 0 <= i < |rows| && HourOf(rows[i].startTime) < h ==>
          Abs(QtyInHour(rows, HourOf(rows[i].startTime))) < Abs(QtyInHour(rows, h)))
  }

  lemma SelectPeakIsPeak(rows: seq<MergedRecord>)
    requires |rows| > 0
    ensures IsPeak(rows, SelectPeak(rows).bucket)
  {
    var lo := FirstHour(rows);
    assert SelectPeak(rows).bucket == PeakFrom(rows, lo, LastHour(rows) - lo + 1);
    PeakAmongIsPeak(rows, SelectPeak(rows).bucket);
  }

  /** The peak over the table's hour range is a peak over all hours. */
  lemma PeakAmongIsPeak(rows: seq<MergedRecord>, h: int)
    requires |rows| > 0
    requires PeakAmong(rows, FirstHour(rows), LastHour(rows), h)
    ensures IsPeak(rows, h)
  {
    var lo := FirstHour(rows);
    var hi := LastHour(rows);
    forall g
      ensures Abs(QtyInHour(rows, g)) <= Abs(QtyInHour(rows, h))
    {
      if g < lo || hi < g {
        EmptyHourIsZero(rows, g);
      }
    }
    if h == lo {
      var i :| 0 <= i < |rows| && lo == HourOf(rows[i].startTime);
    } else {
      assert Abs(QtyInHour(rows, lo)) < Abs(QtyInHour(rows, h));
      NonZeroHourHoldsRow(rows, h);
    }
  }

  /** An hour bucket holding no row sums to zero. */
  lemma {:induction false} EmptyHourIsZero(rows: seq<MergedRecord>, h: int)
    requires forall i :: 0 <= i < |rows| ==> HourOf(rows[i].startTime) != h
    ensures QtyInHour(rows, h) == 0.0
    decreases |rows|
  {
    if |rows| > 0 {
      var init := rows[..|rows| - 1];
      assert forall i :: 0 <= i < |init| ==> init[i] == rows[i];
      EmptyHourIsZero(init, h);
    }
  }

  /** An hour bucket with a non-zero sum holds a row. */
  lemma {:induction false} NonZeroHourHoldsRow(rows: seq<MergedRecord>, h: int)
    requires QtyInHour(rows, h) != 0.0
    ensures exists i :: 0 <= i < |rows| && HourOf(rows[i].startTime) == h
    decreases |rows|
  {
    var last := |rows| - 1;
    if HourOf(rows[last].startTime) != h {
      var init := rows[..last];
      NonZeroHourHoldsRow(init, h);
      var i :| 0 <= i < |init| && HourOf(init[i].startTime) == h;
      assert rows[i] == init[i];
    }
  }

  /** The peak bucket is unique: any bucket with the peak properties is the
      one the analysis selects. */
  lemma PeakIsUnique(rows: seq<MergedRecord>, h: int)
    requires |rows| > 0
    requires IsPeak(rows, h)
    ensures CalcHighestHourlyImbalance(DataFrame(rows)).value.bucket == h
  {
    var sel := CalcHighestHourlyImbalance(DataFrame(rows)).value.bucket;
    var i :| 0 <= i < |rows| && HourOf(rows[i].startTime) == h;
    var j :| 0 <= j < |rows| && HourOf(rows[j].startTime) == sel;
    assert Abs(QtyInHour(rows, h)) == Abs(QtyInHour(rows, sel));
  }

  /** The selected quantity is the hourly series' entry for the selected hour. */
  lemma PeakIsHourlyVolume(rows: seq<MergedRecord>)
    requires |rows| > 0
    ensures 0 <= SelectPeak(rows).bucket - FirstHour(rows) < |HourlyVolumes(rows)|
    ensures HourlyVolumes(rows)[SelectPeak(rows).bucket - FirstHour(rows)] == SelectPeak(rows).quantity
  {
    var lo, p := FirstHour(rows), SelectPeak(rows);
    var b := Buckets(rows, lo, LastHour(rows) - lo + 1);
    assert b[p.bucket - lo] == QtyInHour(rows, lo + (p.bucket - lo));
  }

  /** The lookup as written: the hourly series indexed by the clock hour,
      which reads the entry at that position rather than the entry of that
      hour; past the end of the series the lookup fails. */
  function CalcHighestHourlyImbalanceAsWritten(input: Input): (r: Result<PeakHour, Error>)
    ensures r == Failure(NotADataFrame) <==> input.NotDataFrame?
    ensures input.DataFrame? && |input.rows| == 0 ==> r == Failure(CalculationFailed)
    ensures input.DataFrame? && r.Failure? ==> r.error == CalculationFailed
    ensures input.DataFrame? && |input.rows| > 0 ==>
              (r.Success? <==> SelectPeak(input.rows).hour < |HourlyVolumes(input.rows)|)
    ensures r.Success? ==>
              && input.DataFrame? && |input.rows| > 0
              && r.value.hour == SelectPeak(input.rows).hour
              && r.value.hour < |HourlyVolumes(input.rows)|
              && r.value.quantity == HourlyVolumes(input.rows)[r.value.hour]
              && (r.value.direction == Surplus <==> r.value.quantity > 0.0)
              && r.value.date == DateOf(input.rows[0].startTime)
  {
    match input
    case NotDataFrame => Failure(NotADataFrame)
    case DataFrame(rows) =>
      if |rows| == 0 then Failure(CalculationFailed)
      else LookupByPosition(HourlyVolumes(rows), SelectPeak(rows))
  }

  /** Replaces the peak's quantity and direction by the series entry at
      position `peak.hour`, failing past the end of the series. */
  function LookupByPosition(volumes: seq<real>, peak: PeakHour): (r: Result<PeakHour, Error>)
    ensures r.Success? <==> 0 <= peak.hour < |volumes|
    ensures r.Failure? ==> r.error == CalculationFailed
    ensures r.Success? ==> r.value.hour == peak.hour && r.value.quantity == volumes[peak.hour]
    ensures r.Success? ==> r.value.date == peak.date && r.value.bucket == peak.bucket
    ensures r.Success? ==> (r.value.direction == Surplus <==> r.value.quantity > 0.0)
  {
    if 0 <= peak.hour < |volumes| then
      var quantity := volumes[peak.hour];
      Success(PeakHour(peak.date, peak.bucket, peak.hour, quantity,
                       if quantity > 0.0 then Surplus else Deficit))
    else Failure(CalculationFailed)
  }

  /** Reading the series at the peak's own position gives the peak back. */
  lemma LookupOwnPosition(volumes: seq<real>, peak: PeakHour)
    requires 0 <= peak.hour < |volumes|
    requires volumes[peak.hour] == peak.quantity
    requires peak.direction == Surplus <==> peak.quantity > 0.0
    ensures LookupByPosition(volumes, peak) == Success(peak)
  {
  }

  /** The two lookups agree when the series starts at midnight and the peak
      falls on its first day, as for a table covering one whole day. */
  lemma AsWrittenAgreesFromMidnight(rows: seq<MergedRecord>)
    requires |rows| > 0
    requires FirstHour(rows) % HoursPerDay == 0
    requires SelectPeak(rows).bucket < FirstHour(rows) + HoursPerDay
    ensures CalcHighestHourlyImbalanceAsWritten(DataFrame(rows)) == Success(SelectPeak(rows))
  {
    var peak := SelectPeak(rows);
    var lo := FirstHour(rows);
    var k := peak.bucket - lo;
    ClockHourFromMidnight(lo, peak.bucket);
    assert peak.hour == k;
    PeakIsHourlyVolume(rows);
    var volumes := HourlyVolumes(rows);
    assert 0 <= k < |volumes| && volumes[k] == peak.quantity;
    LookupOwnPosition(volumes, peak);
  }

  lemma ClockHourFromMidnight(lo: int, bucket: int)
    requires lo % HoursPerDay == 0
    requires lo <= bucket < lo + HoursPerDay
    ensures bucket % HoursPerDay == bucket - lo
  {
  }
}
