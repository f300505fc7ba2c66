/** The merger: inner-join cleaned prices and volumes on (period, date,
    area), keep the price whose category matches the sign of the
    imbalance, price each half-hour and attach its interval. */
module Merge {
  import opened Results
  import opened Records
  import opened Seqs
  import Timestamps

  /** A price row and a volume row describe the same settlement slot. */
  predicate SameSlot(p: PriceRecord, v: VolumeRecord)
  {
    && p.settlementPeriod == v.settlementPeriod
    && p.settlementDate == v.settlementDate
    && p.controlArea == v.controlArea
  }

  /** A row of the inner join, before pricing. */
  datatype JoinedRow = JoinedRow(
    settlementPeriod: int,
    settlementDate: int,
    controlArea: string,
    imbalancePriceAmount: real,
    priceCategory: string,
    imbalanceQuantity: real)

  function Join(p: PriceRecord, v: VolumeRecord): JoinedRow
  {
    JoinedRow(p.settlementPeriod, p.settlementDate, p.controlArea,
              p.imbalancePriceAmount, p.priceCategory, v.imbalanceQuantity)
  }

  /** The joined rows of one price row, in the order of the volume rows. */
  function JoinWith(p: PriceRecord, vs: seq<VolumeRecord>): (r: seq<JoinedRow>)
    ensures |r| <= |vs|
    decreases |vs|
  {
    if |vs| == 0 then []
    else JoinWith(p, vs[..|vs| - 1]) + (if SameSlot(p, vs[|vs| - 1]) then [Join(p, vs[|vs| - 1])] else [])
  }

  /** The inner join: every pair of rows on the same slot, price-row major. */
  function InnerJoin(ps: seq<PriceRecord>, vs: seq<VolumeRecord>): seq<JoinedRow>
    decreases |ps|
  {
    if |ps| == 0 then []
    else InnerJoin(ps[..|ps| - 1], vs) + JoinWith(ps[|ps| - 1], vs)
  }

  /** Every volume row on the price row's slot contributes its join. */
  lemma {:induction false} JoinWithComplete(p: PriceRecord, vs: seq<VolumeRecord>, v: VolumeRecord)
    requires v in vs && SameSlot(p, v)
    ensures Join(p, v) in JoinWith(p, vs)
    decreases |vs|
  {
    var init := vs[..|vs| - 1];
    assert vs == init + [vs[|vs| - 1]];
    if v != vs[|vs| - 1] {
      JoinWithComplete(p, init, v);
    }
  }

  /** Every row of `JoinWith` is the join with a volume row on the slot. */
  lemma {:induction false} JoinWithSound(p: PriceRecord, vs: seq<VolumeRecord>, x: JoinedRow)
    requires x in JoinWith(p, vs)
    ensures exists v :: v in vs && SameSlot(p, v) && x == Join(p, v)
    decreases |vs|
  {
    var init := vs[..|vs| - 1];
    var last := vs[|vs| - 1];
    assert vs == init + [last];
    if x in JoinWith(p, init) {
      JoinWithSound(p, init, x);
      var v :| v in init && SameSlot(p, v) && x == Join(p, v);
      assert v in vs;
    } else {
      assert SameSlot(p, last) && x == Join(p, last);
    }
  }

  /** Every pair of rows on the same slot has its join in the inner join. */
  lemma {:induction false} InnerJoinComplete(ps: seq<PriceRecord>, vs: seq<VolumeRecord>, p: PriceRecord, v: VolumeRecord)
    requires p in ps && v in vs && SameSlot(p, v)
    ensures Join(p, v) in InnerJoin(ps, vs)
    decreases |ps|
  {
    var init := ps[..|ps| - 1];
    assert ps == init + [ps[|ps| - 1]];
    if p == ps[|ps| - 1] {
      JoinWithComplete(p, vs, v);
    } else {
      InnerJoinComplete(init, vs, p, v);
    }
  }

  /** Every row of the inner join is the join of two rows on the same slot. */
  lemma {:induction false} InnerJoinSound(ps: seq<PriceRecord>, vs: seq<VolumeRecord>, x: JoinedRow)
    requires x in InnerJoin(ps, vs)
    ensures exists p, v :: p in ps && v in vs && SameSlot(p, v) && x == Join(p, v)
    decreases |ps|
  {
    var init := ps[..|ps| - 1];
    var last := ps[|ps| - 1];
    assert ps == init + [last];
    if x in InnerJoin(init, vs) {
      InnerJoinSound(init, vs, x);
      var p, v :| p in init && v in vs && SameSlot(p, v) && x == Join(p, v);
      assert p in ps;
    } else {
      JoinWithSound(last, vs, x);
    }
  }

  /** One more volume row adds its join when it is on the price row's slot. */
  lemma JoinWithSnoc(p: PriceRecord, vs: seq<VolumeRecord>, v: VolumeRecord)
    ensures JoinWith(p, vs + [v]) == JoinWith(p, vs) + (if SameSlot(p, v) then [Join(p, v)] else [])
  {
    assert (vs + [v])[..|vs|] == vs;
  }

  /** One more price row adds its joins after those of the earlier rows. */
  lemma InnerJoinSnoc(ps: seq<PriceRecord>, p: PriceRecord, vs: seq<VolumeRecord>)
    ensures InnerJoin(ps + [p], vs) == InnerJoin(ps, vs) + JoinWith(p, vs)
  {
    assert (ps + [p])[..|ps|] == ps;
  }

  /** The tariff rule: a surplus is priced at the excess-balance rate and a
      deficit at the insufficient-balance rate; a zero imbalance has no price. */
  predicate DirectionMatches(quantity: real, category: string)
  {
    || (quantity > 0.0 && category == ExcessBalance)
    || (quantity < 0.0 && category == InsufficientBalance)
  }

  predicate KeepJoined(j: JoinedRow)
  {
    DirectionMatches(j.imbalanceQuantity, j.priceCategory)
  }

  /** A joined row with its cost and its half-hour interval. */
  function Priced(j: JoinedRow): MergedRecord
  {
    var iv := Timestamps.HalfHour(j.settlementDate, j.settlementPeriod);
    MergedRecord(j.settlementDate, j.settlementPeriod, j.controlArea,
                 j.imbalancePriceAmount, j.priceCategory, j.imbalanceQuantity,
                 j.imbalanceQuantity * j.imbalancePriceAmount,
                 iv.startTime, iv.endTime)
  }

  /** The join and value columns are present, and no value column appears on
      both sides (the join would rename it). */
  predicate ColumnsFit(prices: Table<PriceRecord>, volumes: Table<VolumeRecord>)
  {
    && "SettlementPeriod" in prices.columns && "SettlementPeriod" in volumes.columns
    && "SettlementDate" in prices.columns && "SettlementDate" in volumes.columns
    && "ControlArea" in prices.columns && "ControlArea" in volumes.columns
    && "ImbalancePriceAmount" in prices.columns && "ImbalancePriceAmount" !in volumes.columns
    && "PriceCategory" in prices.columns && "PriceCategory" !in volumes.columns
    && "ImbalanceQuantity" in volumes.columns && "ImbalanceQuantity" !in prices.columns
  }

  /** Merged row `m` is the join of price row `p` and volume row `v`. */
  predicate Links(m: MergedRecord, p: PriceRecord, v: VolumeRecord)
  {
    && SameSlot(p, v)
    && m.settlementDate == p.settlementDate
    && m.settlementPeriod == p.settlementPeriod
    && m.controlArea == p.controlArea
    && m.imbalancePriceAmount == p.imbalancePriceAmount
    && m.priceCategory == p.priceCategory
    && m.imbalanceQuantity == v.imbalanceQuantity
  }

  /** Joins, keeps the rows whose category matches their direction, and
      prices them. */
  function PriceMatches(ps: seq<PriceRecord>, vs: seq<VolumeRecord>): (r: seq<MergedRecord>)
    ensures forall m :: m in r ==>
              && DirectionMatches(m.imbalanceQuantity, m.priceCategory)
              && m.imbalanceCost == m.imbalanceQuantity * m.imbalancePriceAmount
              && Timestamps.HalfHour(m.settlementDate, m.settlementPeriod) == Timestamps.Interval(m.startTime, m.endTime)
    ensures forall m :: m in r ==> exists p, v :: p in ps && v in vs && Links(m, p, v)
    ensures forall p, v ::
              p in ps && v in vs && SameSlot(p, v) && DirectionMatches(v.imbalanceQuantity, p.priceCategory) ==>
                exists m :: m in r && Links(m, p, v)
  {
    var kept := Filter(InnerJoin(ps, vs), KeepJoined);
    var r := seq(|kept|, k requires 0 <= k < |kept| => Priced(kept[k]));
    PriceMatchesPriced(kept, r);
    PriceMatchesSound(ps, vs, kept, r);
    PriceMatchesComplete(ps, vs, kept, r);
    r
  }

  lemma PriceMatchesPriced(kept: seq<JoinedRow>, r: seq<MergedRecord>)
    requires forall k :: 0 <= k < |kept| ==> KeepJoined(kept[k])
    requires |r| == |kept| && forall k :: 0 <= k < |r| ==> r[k] == Priced(kept[k])
    ensures forall m :: m in r ==>
              && DirectionMatches(m.imbalanceQuantity, m.priceCategory)
              && m.imbalanceCost == m.imbalanceQuantity * m.imbalancePriceAmount
              && Timestamps.HalfHour(m.settlementDate, m.settlementPeriod) == Timestamps.Interval(m.startTime, m.endTime)
  {
    forall m | m in r
      ensures DirectionMatches(m.imbalanceQuantity, m.priceCategory)
    {
      var k :| 0 <= k < |r| && r[k] == m;
      assert KeepJoined(kept[k]);
    }
  }

  lemma PriceMatchesSound(ps: seq<PriceRecord>, vs: seq<VolumeRecord>, kept: seq<JoinedRow>, r: seq<MergedRecord>)
    requires kept == Filter(InnerJoin(ps, vs), KeepJoined)
    requires |r| == |kept| && forall k :: 0 <= k < |r| ==> r[k] == Priced(kept[k])
    ensures forall m :: m in r ==> exists p, v :: p in ps && v in vs && Links(m, p, v)
  {
    forall m | m in r
      ensures exists p, v :: p in ps && v in vs && Links(m, p, v)
    {
      var k :| 0 <= k < |r| && r[k] == m;
      assert kept[k] in InnerJoin(ps, vs);
      InnerJoinSound(ps, vs, kept[k]);
      var p, v :| p in ps && v in vs && SameSlot(p, v) && kept[k] == Join(p, v);
      assert Links(m, p, v);
    }
  }

  lemma PriceMatchesComplete(ps: seq<PriceRecord>, vs: seq<VolumeRecord>, kept: seq<JoinedRow>, r: seq<MergedRecord>)
    requires kept == Filter(InnerJoin(ps, vs), KeepJoined)
    requires |r| == |kept| && forall k :: 0 <= k < |r| ==> r[k] == Priced(kept[k])
    ensures forall p, v ::
              p in ps && v in vs && SameSlot(p, v) && DirectionMatches(v.imbalanceQuantity, p.priceCategory) ==>
                exists m :: m in r && Links(m, p, v)
  {
    var joined := InnerJoin(ps, vs);
    forall p, v | p in ps && v in vs && SameSlot(p, v) && DirectionMatches(v.imbalanceQuantity, p.priceCategory)
      ensures exists m :: m in r && Links(m, p, v)
    {
      var j := Join(p, v);
      InnerJoinComplete(ps, vs, p, v);
      assert j in joined && KeepJoined(j);
      var i :| 0 <= i < |joined| && joined[i] == j;
      assert j in kept;
      var k :| 0 <= k < |kept| && kept[k] == j;
      assert r[k] in r && Links(r[k], p, v);
    }
  }

  /** Merges a cleaned price table with a cleaned volume table. */
  function MergeImbalDfs(prices: Table<PriceRecord>, volumes: Table<VolumeRecord>): (r: Result<seq<MergedRecord>, Error>)
    ensures r == Failure(EmptyInput) <==> IsEmpty(prices) || IsEmpty(volumes)
    ensures r == Failure(ColumnsMismatch) <==> !IsEmpty(prices) && !IsEmpty(volumes) && !ColumnsFit(prices, volumes)
    ensures !IsEmpty(prices) && !IsEmpty(volumes) && ColumnsFit(prices, volumes) ==> r.Success?
    ensures r.Success? ==> forall m :: m in r.value ==>
              && DirectionMatches(m.imbalanceQuantity, m.priceCategory)
              && m.imbalanceCost == m.imbalanceQuantity * m.imbalancePriceAmount
              && Timestamps.HalfHour(m.settlementDate, m.settlementPeriod) == Timestamps.Interval(m.startTime, m.endTime)
    ensures r.Success? ==> forall m :: m in r.value ==>
              exists p, v :: p in prices.rows && v in volumes.rows && Links(m, p, v)
    ensures r.Success? ==> forall p, v ::
              p in prices.rows && v in volumes.rows && SameSlot(p, v) && DirectionMatches(v.imbalanceQuantity, p.priceCategory) ==>
                exists m :: m in r.value && Links(m, p, v)
  {
    if IsEmpty(prices) || IsEmpty(volumes) then Failure(EmptyInput)
    else if !ColumnsFit(prices, volumes) then Failure(ColumnsMismatch)
    else Success(PriceMatches(prices.rows, volumes.rows))
  }
}
