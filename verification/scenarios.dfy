/** The scenarios of the repository's tests (Tests.py), stated and proved
    as lemmas about the model. Dates are day numbers: 2022-01-01 is day
    18993, 2022-01-02 day 18994 and 2023-02-22 day 19410. Each scenario is unfolded one row at a
    time through the `...Snoc` lemmas of the modules it exercises. */
module Scenarios {
  import opened Results
  import opened Records
  import opened Seqs
  import opened Cleaning
  import opened Timestamps
  import opened Merge
  import opened Analysis

  // ---------------------------------------------------------------------
  // Cleaning prices: both rows of the report are final and active.

  const Area := "10YGB----------A"
  const Q0 := RawPriceRow("Final", "Y", 19410, 48, Area, 93.0, ExcessBalance)
  const Q1 := RawPriceRow("Final", "Y", 19410, 48, Area, 93.0, InsufficientBalance)

  const TestPriceReport: RawReport<RawPriceRow> := RawReport(
    {"DocumentID", "DocumentRevNum", "ActiveFlag", "ProcessType", "DocumentType",
     "Resolution", "CurveType", "PriceCategory", "ImbalancePriceAmount",
     "SettlementPeriod", "SettlementDate", "ControlArea", "BusinessType",
     "TimeSeriesID", "DocumentStatus"},
    [Q0, Q1])

  lemma KeptPricePositions()
    ensures Positions(TestPriceReport.rows, KeepPrice) == [0, 1]
  {
    assert KeepPrice(Q0) && KeepPrice(Q1);
    var s1 := [Q0];
    var s2 := s1 + [Q1];
    assert s2 == TestPriceReport.rows;
    PositionsSnoc([], Q0, KeepPrice);
    assert [] + [Q0] == s1;
    PositionsSnoc(s1, Q1, KeepPrice);
  }

  lemma SelectPrices()
    ensures Select(TestPriceReport.rows, KeepPrice, ProjectPrice) == [ProjectPrice(Q0), ProjectPrice(Q1)]
  {
    KeptPricePositions();
    var rows := Select(TestPriceReport.rows, KeepPrice, ProjectPrice);
    assert |rows| == 2 && rows[0] == ProjectPrice(Q0) && rows[1] == ProjectPrice(Q1);
  }

  /** The cleaned price table keeps both rows, reduced to the five columns. */
  lemma CleanPricesScenario()
    ensures CleanImbalancePrices(TestPriceReport) == Some(Table(
              ["SettlementDate", "SettlementPeriod", "ControlArea", "ImbalancePriceAmount", "PriceCategory"],
              [PriceRecord(19410, 48, Area, 93.0, ExcessBalance),
               PriceRecord(19410, 48, Area, 93.0, InsufficientBalance)]))
  {
    SelectPrices();
    assert RawPriceColumns <= TestPriceReport.columns;
  }

  // ---------------------------------------------------------------------
  // Cleaning volumes: a draft row and an inactive row among four.

  const V0 := RawVolumeRow("Final", "Y", 18993, 1, "CA1", 100.0)
  const V1 := RawVolumeRow("Draft", "Y", 18993, 2, "CA1", 200.0)
  const V2 := RawVolumeRow("Final", "N", 18994, 1, "CA1", 300.0)
  const V3 := RawVolumeRow("Final", "Y", 18994, 2, "CA1", 400.0)

  const TestVolumeReport: RawReport<RawVolumeRow> := RawReport(
    {"Document Status", "Active Flag", "Settlement Date", "Settlement Period",
     "Control Area", "Imbalance Quantity (MAW)"},
    [V0, V1, V2, V3])

  lemma KeptVolumePositions()
    ensures Positions(TestVolumeReport.rows, KeepVolume) == [0, 3]
  {
    assert KeepVolume(V0) && !KeepVolume(V1) && !KeepVolume(V2) && KeepVolume(V3);
    var s1 := [V0];
    var s2 := s1 + [V1];
    var s3 := s2 + [V2];
    var s4 := s3 + [V3];
    assert s4 == TestVolumeReport.rows;
    PositionsSnoc([], V0, KeepVolume);
    assert [] + [V0] == s1;
    PositionsSnoc(s1, V1, KeepVolume);
    PositionsSnoc(s2, V2, KeepVolume);
    PositionsSnoc(s3, V3, KeepVolume);
  }

  lemma SelectVolumes()
    ensures Select(TestVolumeReport.rows, KeepVolume, ProjectVolume) ==
            [VolumeRecord(18993, 1, "CA1", 100.0), VolumeRecord(18994, 2, "CA1", 400.0)]
  {
    KeptVolumePositions();
    var rows := Select(TestVolumeReport.rows, KeepVolume, ProjectVolume);
    assert |rows| == 2 && rows[0] == ProjectVolume(V0) && rows[1] == ProjectVolume(V3);
  }

  /** Only the first and last rows survive, renamed onto the price schema. */
  lemma CleanVolumesScenario()
    ensures CleanImbalanceVolumes(TestVolumeReport) == Some(Table(
              ["SettlementDate", "SettlementPeriod", "ControlArea", "ImbalanceQuantity"],
              [VolumeRecord(18993, 1, "CA1", 100.0), VolumeRecord(18994, 2, "CA1", 400.0)]))
  {
    SelectVolumes();
    VolumeColumnsNormalized();
    assert RawVolumeStatusColumns <= TestVolumeReport.columns;
    assert (set c | c in RawVolumeColumns) <= TestVolumeReport.columns;
  }

  // ---------------------------------------------------------------------
  // Half-hour timestamps.

  /** Periods 1 and 2 of a day start at 00:00 and 00:30; period 48 ends at
      the next midnight. */
  lemma TimestampScenario()
    ensures HalfHour(18993, 1) == Interval(18993 * 1440, 18993 * 1440 + 30)
    ensures HalfHour(18993, 2) == Interval(18993 * 1440 + 30, 18993 * 1440 + 60)
    ensures HalfHour(18994, 1) == Interval(18994 * 1440, 18994 * 1440 + 30)
    ensures HalfHour(18994, 48) == Interval(18995 * 1440 - 30, 18995 * 1440)
  {
  }

  // ---------------------------------------------------------------------
  // Merging: three slots, one price per slot.

  const P1 := PriceRecord(18993, 1, "UK1", 10.0, ExcessBalance)
  const P2 := PriceRecord(18993, 2, "UK1", 20.0, ExcessBalance)
  const P3 := PriceRecord(18994, 3, "UK1", 5.0, InsufficientBalance)
  const W1 := VolumeRecord(18993, 1, "UK1", 100.0)
  const W2 := VolumeRecord(18993, 2, "UK1", -50.0)
  const W3 := VolumeRecord(18994, 3, "UK1", 80.0)

  const TestPrices: Table<PriceRecord> := Table(
    ["SettlementPeriod", "SettlementDate", "ControlArea", "PriceCategory", "ImbalancePriceAmount"],
    [P1, P2, P3])

  const TestVolumes: Table<VolumeRecord> := Table(
    ["SettlementPeriod", "SettlementDate", "ControlArea", "ImbalanceQuantity"],
    [W1, W2, W3])

  const J1 := Join(P1, W1)
  const J2 := Join(P2, W2)
  const J3 := Join(P3, W3)

  /** The only merged row: 100 MWh surplus at 10 per MWh in period 1. */
  const M1 := MergedRecord(18993, 1, "UK1", 10.0, ExcessBalance, 100.0, 1000.0,
                           18993 * 1440, 18993 * 1440 + 30)

  /** Each price row meets exactly one volume row, the one of its own slot. */
  lemma JoinOneSlot(p: PriceRecord, w: VolumeRecord)
    requires (p, w) in {(P1, W1), (P2, W2), (P3, W3)}
    ensures JoinWith(p, TestVolumes.rows) == [Join(p, w)]
  {
    var v1 := [W1];
    var v2 := v1 + [W2];
    var v3 := v2 + [W3];
    assert v3 == TestVolumes.rows;
    JoinWithSnoc(p, [], W1);
    assert [] + [W1] == v1;
    JoinWithSnoc(p, v1, W2);
    JoinWithSnoc(p, v2, W3);
  }

  lemma JoinFirst()
    ensures InnerJoin([P1], TestVolumes.rows) == [J1]
  {
    InnerJoinSnoc([], P1, TestVolumes.rows);
    assert [] + [P1] == [P1];
    JoinOneSlot(P1, W1);
  }

  lemma JoinFirstTwo()
    ensures InnerJoin([P1, P2], TestVolumes.rows) == [J1, J2]
  {
    InnerJoinSnoc([P1], P2, TestVolumes.rows);
    assert [P1] + [P2] == [P1, P2];
    JoinFirst();
    JoinOneSlot(P2, W2);
  }

  lemma TestJoin()
    ensures InnerJoin(TestPrices.rows, TestVolumes.rows) == [J1, J2, J3]
  {
    InnerJoinSnoc([P1, P2], P3, TestVolumes.rows);
    assert [P1, P2] + [P3] == TestPrices.rows;
    JoinFirstTwo();
    JoinOneSlot(P3, W3);
  }

  lemma KeptFirstTwo()
    ensures Filter([J1, J2], KeepJoined) == [J1]
  {
    FilterSnoc([], J1, KeepJoined);
    assert [] + [J1] == [J1];
    FilterSnoc([J1], J2, KeepJoined);
    assert [J1] + [J2] == [J1, J2];
  }

  /** Period 2 is a deficit at the excess rate and period 3 a surplus at the
      insufficient rate, so both fail the tariff rule. */
  lemma TestKept()
    ensures Filter(InnerJoin(TestPrices.rows, TestVolumes.rows), KeepJoined) == [J1]
  {
    TestJoin();
    KeptFirstTwo();
    FilterSnoc([J1, J2], J3, KeepJoined);
    assert [J1, J2] + [J3] == [J1, J2, J3];
  }

  lemma TestPriced()
    ensures PriceMatches(TestPrices.rows, TestVolumes.rows) == [M1]
  {
    TestKept();
    assert Priced(J1) == M1;
  }

  /** The merge yields the single row of period 1, costed at 1000. */
  lemma MergeScenario()
    ensures MergeImbalDfs(TestPrices, TestVolumes) == Success([M1])
  {
    TestPriced();
    assert ColumnsFit(TestPrices, TestVolumes);
  }

  /** Either input without rows fails the merge with the empty-input error. */
  lemma MergeEmptyScenario()
    ensures MergeImbalDfs(Table(TestPrices.columns, []), TestVolumes) == Failure(EmptyInput)
    ensures MergeImbalDfs(TestPrices, Table(TestVolumes.columns, [])) == Failure(EmptyInput)
  {
  }

  // ---------------------------------------------------------------------
  // The peak hour: six half-hours over hours 21 to 23 of 2023-02-22.

  function At(date: int, hour: int, minute: int): int
  {
    date * 1440 + hour * 60 + minute
  }

  const R0 := MergedRecord(19410, 48, Area, 93.0, InsufficientBalance, -117.3014, -10909.0302, At(19410, 21, 30), At(19410, 22, 0))
  const R1 := MergedRecord(19410, 47, Area, 100.0, InsufficientBalance, -10.7602, -1076.02, At(19410, 21, 0), At(19410, 21, 30))
  const R2 := MergedRecord(19410, 46, Area, 92.63, InsufficientBalance, -2.7719, -256.761097, At(19410, 22, 0), At(19410, 20, 30))
  const R3 := MergedRecord(19410, 48, Area, 93.0, ExcessBalance, 66.3014, 6161.47, At(19410, 22, 30), At(19411, 23, 0))
  const R4 := MergedRecord(19410, 47, Area, 100.0, ExcessBalance, 10.7602, 1154.2, At(19410, 23, 0), At(19410, 23, 30))
  const R5 := MergedRecord(19410, 46, Area, 92.63, ExcessBalance, 2.7719, 276.467903, At(19410, 23, 30), At(19411, 0, 0))

  const PeakRows: seq<MergedRecord> := [R0, R1, R2, R3, R4, R5]

  /** Hours 21, 22 and 23 of 2023-02-22 as hour buckets. */
  const H21 := 19410 * 24 + 21
  const H22 := H21 + 1
  const H23 := H21 + 2

  /** The hour range of `rows` and its sums for the three hours. */
  predicate Summary(rows: seq<MergedRecord>, lo: int, hi: int, q21: real, q22: real, q23: real)
    requires |rows| > 0
  {
    && FirstHour(rows) == lo && LastHour(rows) == hi
    && QtyInHour(rows, H21) == q21 && QtyInHour(rows, H22) == q22 && QtyInHour(rows, H23) == q23
  }

  lemma Hours()
    ensures HourOf(R0.startTime) == H21 && HourOf(R1.startTime) == H21
    ensures HourOf(R2.startTime) == H22 && HourOf(R3.startTime) == H22
    ensures HourOf(R4.startTime) == H23 && HourOf(R5.startTime) == H23
  {
  }

  lemma Step(rows: seq<MergedRecord>, x: MergedRecord)
    requires |rows| > 0
    ensures FirstHour(rows + [x]) == if HourOf(x.startTime) < FirstHour(rows) then HourOf(x.startTime) else FirstHour(rows)
    ensures LastHour(rows + [x]) == if HourOf(x.startTime) > LastHour(rows) then HourOf(x.startTime) else LastHour(rows)
    ensures QtyInHour(rows + [x], H21) == QtyInHour(rows, H21) + (if HourOf(x.startTime) == H21 then x.imbalanceQuantity else 0.0)
    ensures QtyInHour(rows + [x], H22) == QtyInHour(rows, H22) + (if HourOf(x.startTime) == H22 then x.imbalanceQuantity else 0.0)
    ensures QtyInHour(rows + [x], H23) == QtyInHour(rows, H23) + (if HourOf(x.startTime) == H23 then x.imbalanceQuantity else 0.0)
  {
    HourRangeSnoc(rows, x);
    QtyInHourSnoc(rows, x, H21);
    QtyInHourSnoc(rows, x, H22);
    QtyInHourSnoc(rows, x, H23);
  }

  lemma Prefix1()
    ensures Summary([R0], H21, H21, -117.3014, 0.0, 0.0)
  {
    Hours();
    QtyInHourSnoc([], R0, H21);
    QtyInHourSnoc([], R0, H22);
    QtyInHourSnoc([], R0, H23);
    assert [] + [R0] == [R0];
  }

  lemma Prefix2()
    ensures Summary([R0, R1], H21, H21, -128.0616, 0.0, 0.0)
  {
    Hours();
    Prefix1();
    Step([R0], R1);
    assert [R0] + [R1] == [R0, R1];
  }

  lemma Prefix3()
    ensures Summary([R0, R1, R2], H21, H22, -128.0616, -2.7719, 0.0)
  {
    Hours();
    Prefix2();
    Step([R0, R1], R2);
    assert [R0, R1] + [R2] == [R0, R1, R2];
  }

  lemma Prefix4()
    ensures Summary([R0, R1, R2, R3], H21, H22, -128.0616, 63.5295, 0.0)
  {
    Hours();
    Prefix3();
    Step([R0, R1, R2], R3);
    assert [R0, R1, R2] + [R3] == [R0, R1, R2, R3];
  }

  lemma Prefix5()
    ensures Summary([R0, R1, R2, R3, R4], H21, H23, -128.0616, 63.5295, 10.7602)
  {
    Hours();
    Prefix4();
    Step([R0, R1, R2, R3], R4);
    assert [R0, R1, R2, R3] + [R4] == [R0, R1, R2, R3, R4];
  }

  /** Hour 21 sums to -128.0616, hour 22 to 63.5295 and hour 23 to 13.5321. */
  lemma PeakRowsSummary()
    ensures Summary(PeakRows, H21, H23, -128.0616, 63.5295, 13.5321)
  {
    Hours();
    Prefix5();
    Step([R0, R1, R2, R3, R4], R5);
    assert [R0, R1, R2, R3, R4] + [R5] == PeakRows;
  }

  lemma PeakScenarioPeak()
    ensures SelectPeak(PeakRows) == PeakHour(19410, H21, 21, -128.0616, Deficit)
  {
    PeakRowsSummary();
    assert PeakFrom(PeakRows, H21, 1) == H21;
    assert PeakFrom(PeakRows, H21, 2) == H21;
    assert PeakFrom(PeakRows, H21, 3) == H21;
  }

  /** The peak is hour 21 of 2023-02-22, a deficit of 128.0616 MWh. */
  lemma PeakScenario()
    ensures CalcHighestHourlyImbalance(DataFrame(PeakRows)) ==
            Success(PeakHour(19410, H21, 21, -128.0616, Deficit))
  {
    PeakScenarioPeak();
  }

  /** The lookup as written reads position 21 of a three-hour series and
      fails, where the peak hour itself is well defined. */
  lemma PeakScenarioAsWritten()
    ensures CalcHighestHourlyImbalanceAsWritten(DataFrame(PeakRows)) == Failure(CalculationFailed)
  {
    PeakScenarioPeak();
    PeakRowsSummary();
    assert |HourlyVolumes(PeakRows)| == 3;
  }
}
