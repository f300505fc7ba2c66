/** How often a row appears in the merge: the pairs of price and volume
    rows behind the merged rows, by index. Every pair of rows on one slot
    whose price category matches the imbalance's direction gives exactly one
    merged row, and no other pair gives one. */
module MergePairs {
  import opened Results
  import opened Records
  import opened Seqs
  import opened Merge

  /** Index pair `a` comes before `b` in price-row-major order. */
  predicate Before(a: (int, int), b: (int, int))
  {
    a.0 < b.0 || (a.0 == b.0 && a.1 < b.1)
  }

  /** The index pairs behind `JoinWith(p, vs)`, with `i` the index of `p`. */
  function JoinWithIndices(i: int, p: PriceRecord, vs: seq<VolumeRecord>): seq<(int, int)>
    decreases |vs|
  {
    if |vs| == 0 then []
    else JoinWithIndices(i, p, vs[..|vs| - 1]) + (if SameSlot(p, vs[|vs| - 1]) then [(i, |vs| - 1)] else [])
  }

  /** The index pairs behind `InnerJoin(ps, vs)`, row by row. */
  function JoinIndices(ps: seq<PriceRecord>, vs: seq<VolumeRecord>): seq<(int, int)>
    decreases |ps|
  {
    if |ps| == 0 then []
    else JoinIndices(ps[..|ps| - 1], vs) + JoinWithIndices(|ps| - 1, ps[|ps| - 1], vs)
  }

  /** Row k of `JoinWith(p, vs)` joins `p` with the volume row at pair k's
      second index; the indices ascend and cover every volume row on the slot. */
  lemma {:induction false} JoinWithIndicesSpec(i: int, p: PriceRecord, vs: seq<VolumeRecord>)
    ensures |JoinWithIndices(i, p, vs)| == |JoinWith(p, vs)|
    ensures forall k :: 0 <= k < |JoinWithIndices(i, p, vs)| ==>
              && JoinWithIndices(i, p, vs)[k].0 == i
              && 0 <= JoinWithIndices(i, p, vs)[k].1 < |vs|
              && SameSlot(p, vs[JoinWithIndices(i, p, vs)[k].1])
              && JoinWith(p, vs)[k] == Join(p, vs[JoinWithIndices(i, p, vs)[k].1])
    ensures forall k, l :: 0 <= k < l < |JoinWithIndices(i, p, vs)| ==>
              JoinWithIndices(i, p, vs)[k].1 < JoinWithIndices(i, p, vs)[l].1
    ensures forall j :: 0 <= j < |vs| && SameSlot(p, vs[j]) ==> (i, j) in JoinWithIndices(i, p, vs)
    decreases |vs|
  {
    if |vs| > 0 {
      var init := vs[..|vs| - 1];
      JoinWithIndicesSpec(i, p, init);
      assert forall j :: 0 <= j < |init| ==> init[j] == vs[j];
    }
  }

  /** Row k of `InnerJoin(ps, vs)` joins the two rows at pair k, which share
      a slot. */
  lemma {:induction false} JoinIndicesRows(ps: seq<PriceRecord>, vs: seq<VolumeRecord>)
    ensures |JoinIndices(ps, vs)| == |InnerJoin(ps, vs)|
    ensures forall k :: 0 <= k < |JoinIndices(ps, vs)| ==>
              && 0 <= JoinIndices(ps, vs)[k].0 < |ps|
              && 0 <= JoinIndices(ps, vs)[k].1 < |vs|
              && SameSlot(ps[JoinIndices(ps, vs)[k].0], vs[JoinIndices(ps, vs)[k].1])
              && InnerJoin(ps, vs)[k] == Join(ps[JoinIndices(ps, vs)[k].0], vs[JoinIndices(ps, vs)[k].1])
    decreases |ps|
  {
    if |ps| > 0 {
      var n := |ps| - 1;
      var init := ps[..n];
      var a, b := JoinIndices(init, vs), JoinWithIndices(n, ps[n], vs);
      var ja, jb := InnerJoin(init, vs), JoinWith(ps[n], vs);
      JoinIndicesRows(init, vs);
      JoinWithIndicesSpec(n, ps[n], vs);
      var all, joined := JoinIndices(ps, vs), InnerJoin(ps, vs);
      assert all == a + b;
      assert joined == ja + jb;
      forall k | 0 <= k < |all|
        ensures 0 <= all[k].0 < |ps| && 0 <= all[k].1 < |vs|
        ensures SameSlot(ps[all[k].0], vs[all[k].1])
        ensures joined[k] == Join(ps[all[k].0], vs[all[k].1])
      {
        if k < |a| {
          assert init[a[k].0] == ps[a[k].0];
        }
      }
    }
  }

  /** The pairs behind `InnerJoin(ps, vs)` ascend in price-row-major order. */
  lemma {:induction false} JoinIndicesOrdered(ps: seq<PriceRecord>, vs: seq<VolumeRecord>)
    ensures forall k, l :: 0 <= k < l < |JoinIndices(ps, vs)| ==> Before(JoinIndices(ps, vs)[k], JoinIndices(ps, vs)[l])
    decreases |ps|
  {
    if |ps| > 0 {
      var n := |ps| - 1;
      var init := ps[..n];
      var a, b := JoinIndices(init, vs), JoinWithIndices(n, ps[n], vs);
      JoinIndicesOrdered(init, vs);
      JoinIndicesRows(init, vs);
      JoinWithIndicesSpec(n, ps[n], vs);
      var all := JoinIndices(ps, vs);
      assert all == a + b;
      forall k, l | 0 <= k < l < |all|
        ensures Before(all[k], all[l])
      {
        if l < |a| {
          assert Before(a[k], a[l]);
        } else if k < |a| {
          assert a[k].0 < n == b[l - |a|].0;
        } else {
          assert b[k - |a|].1 < b[l - |a|].1;
        }
      }
    }
  }

  /** Every pair of rows on one slot lies behind a row of `InnerJoin(ps, vs)`. */
  lemma {:induction false} JoinIndicesComplete(ps: seq<PriceRecord>, vs: seq<VolumeRecord>)
    ensures forall i, j :: 0 <= i < |ps| && 0 <= j < |vs| && SameSlot(ps[i], vs[j]) ==> (i, j) in JoinIndices(ps, vs)
    decreases |ps|
  {
    if |ps| > 0 {
      var n := |ps| - 1;
      var init := ps[..n];
      var a, b := JoinIndices(init, vs), JoinWithIndices(n, ps[n], vs);
      JoinIndicesComplete(init, vs);
      JoinWithIndicesSpec(n, ps[n], vs);
      var all := JoinIndices(ps, vs);
      assert all == a + b;
      forall i, j | 0 <= i < |ps| && 0 <= j < |vs| && SameSlot(ps[i], vs[j])
        ensures (i, j) in all
      {
        if i < n {
          assert init[i] == ps[i];
          assert (i, j) in a;
        } else {
          assert (i, j) in b;
        }
      }
    }
  }

  /** The index pairs behind `PriceMatches(ps, vs)`: those of the joined rows
      that pass the tariff rule. */
  function MatchIndices(ps: seq<PriceRecord>, vs: seq<VolumeRecord>): seq<(int, int)>
  {
    var idx := JoinIndices(ps, vs);
    var pos := Positions(InnerJoin(ps, vs), KeepJoined);
    JoinIndicesRows(ps, vs);
    seq(|pos|, k requires 0 <= k < |pos| => idx[pos[k]])
  }

  /** Row k of the merge is the priced k-th kept joined row. */
  lemma PriceMatchesRows(ps: seq<PriceRecord>, vs: seq<VolumeRecord>)
    ensures |PriceMatches(ps, vs)| == |Filter(InnerJoin(ps, vs), KeepJoined)|
    ensures forall k :: 0 <= k < |PriceMatches(ps, vs)| ==>
              PriceMatches(ps, vs)[k] == Priced(Filter(InnerJoin(ps, vs), KeepJoined)[k])
  {
  }

  /** Row k of the merge is the priced join of the rows at pair k. */
  lemma MatchIndicesRows(ps: seq<PriceRecord>, vs: seq<VolumeRecord>)
    ensures |PriceMatches(ps, vs)| == |MatchIndices(ps, vs)|
    ensures forall k :: 0 <= k < |MatchIndices(ps, vs)| ==>
              && 0 <= MatchIndices(ps, vs)[k].0 < |ps|
              && 0 <= MatchIndices(ps, vs)[k].1 < |vs|
              && PriceMatches(ps, vs)[k] == Priced(Join(ps[MatchIndices(ps, vs)[k].0], vs[MatchIndices(ps, vs)[k].1]))
  {
    var joined := InnerJoin(ps, vs);
    var idx := JoinIndices(ps, vs);
    var pos := Positions(joined, KeepJoined);
    var kept := Filter(joined, KeepJoined);
    var pairs := MatchIndices(ps, vs);
    var r := PriceMatches(ps, vs);
    JoinIndicesRows(ps, vs);
    PriceMatchesRows(ps, vs);
    assert |pairs| == |pos| == |kept| == |r|;
    forall k | 0 <= k < |pairs|
      ensures 0 <= pairs[k].0 < |ps| && 0 <= pairs[k].1 < |vs|
      ensures r[k] == Priced(Join(ps[pairs[k].0], vs[pairs[k].1]))
    {
      assert pairs[k] == idx[pos[k]];
      assert kept[k] == joined[pos[k]];
    }
  }

  /** The pairs behind the merge ascend in price-row-major order. */
  lemma MatchIndicesOrdered(ps: seq<PriceRecord>, vs: seq<VolumeRecord>)
    ensures forall k, l :: 0 <= k < l < |MatchIndices(ps, vs)| ==> Before(MatchIndices(ps, vs)[k], MatchIndices(ps, vs)[l])
  {
    var joined := InnerJoin(ps, vs);
    var idx := JoinIndices(ps, vs);
    var pos := Positions(joined, KeepJoined);
    var pairs := MatchIndices(ps, vs);
    JoinIndicesRows(ps, vs);
    JoinIndicesOrdered(ps, vs);
    forall k, l | 0 <= k < l < |pairs|
      ensures Before(pairs[k], pairs[l])
    {
      assert pos[k] < pos[l];
      assert pairs[k] == idx[pos[k]] && pairs[l] == idx[pos[l]];
    }
  }

  /** A pair behind a merged row holds rows on one slot whose price category
      matches the direction of the imbalance. */
  lemma MatchIndicesSound(ps: seq<PriceRecord>, vs: seq<VolumeRecord>)
    ensures forall i, j :: 0 <= i < |ps| && 0 <= j < |vs| && (i, j) in MatchIndices(ps, vs) ==>
              SameSlot(ps[i], vs[j]) && DirectionMatches(vs[j].imbalanceQuantity, ps[i].priceCategory)
  {
    var joined := InnerJoin(ps, vs);
    var idx := JoinIndices(ps, vs);
    var pos := Positions(joined, KeepJoined);
    var pairs := MatchIndices(ps, vs);
    JoinIndicesRows(ps, vs);
    forall i, j | 0 <= i < |ps| && 0 <= j < |vs| && (i, j) in pairs
      ensures SameSlot(ps[i], vs[j]) && DirectionMatches(vs[j].imbalanceQuantity, ps[i].priceCategory)
    {
      var k :| 0 <= k < |pairs| && pairs[k] == (i, j);
      assert idx[pos[k]] == (i, j);
      PositionsComplete(joined, KeepJoined, pos[k]);
      assert KeepJoined(joined[pos[k]]);
    }
  }

  /** Every pair of rows on one slot whose price category matches the
      direction of the imbalance lies behind a merged row. */
  lemma MatchIndicesComplete(ps: seq<PriceRecord>, vs: seq<VolumeRecord>)
    ensures forall i, j ::
              (0 <= i < |ps| && 0 <= j < |vs| &&
               SameSlot(ps[i], vs[j]) && DirectionMatches(vs[j].imbalanceQuantity, ps[i].priceCategory)) ==>
                (i, j) in MatchIndices(ps, vs)
  {
    var joined := InnerJoin(ps, vs);
    var idx := JoinIndices(ps, vs);
    var pos := Positions(joined, KeepJoined);
    var pairs := MatchIndices(ps, vs);
    JoinIndicesRows(ps, vs);
    JoinIndicesComplete(ps, vs);
    forall i, j | 0 <= i < |ps| && 0 <= j < |vs| &&
                  SameSlot(ps[i], vs[j]) && DirectionMatches(vs[j].imbalanceQuantity, ps[i].priceCategory)
      ensures (i, j) in pairs
    {
      var t :| 0 <= t < |idx| && idx[t] == (i, j);
      assert KeepJoined(joined[t]);
      PositionsComplete(joined, KeepJoined, t);
      var k :| 0 <= k < |pos| && pos[k] == t;
      assert pairs[k] == (i, j);
    }
  }

  /** Each merged row is the priced join of one pair of rows; no pair occurs
      twice, and a pair occurs exactly when its rows share a slot and the
      price category matches the direction of the imbalance. */
  lemma PriceMatchesOnePerPair(ps: seq<PriceRecord>, vs: seq<VolumeRecord>)
    ensures |PriceMatches(ps, vs)| == |MatchIndices(ps, vs)|
    ensures forall k :: 0 <= k < |MatchIndices(ps, vs)| ==>
              && 0 <= MatchIndices(ps, vs)[k].0 < |ps|
              && 0 <= MatchIndices(ps, vs)[k].1 < |vs|
              && PriceMatches(ps, vs)[k] == Priced(Join(ps[MatchIndices(ps, vs)[k].0], vs[MatchIndices(ps, vs)[k].1]))
    ensures forall k, l :: 0 <= k < l < |MatchIndices(ps, vs)| ==> Before(MatchIndices(ps, vs)[k], MatchIndices(ps, vs)[l])
    ensures forall i, j :: 0 <= i < |ps| && 0 <= j < |vs| ==>
              ((i, j) in MatchIndices(ps, vs) <==>
                 SameSlot(ps[i], vs[j]) && DirectionMatches(vs[j].imbalanceQuantity, ps[i].priceCategory))
  {
    MatchIndicesRows(ps, vs);
    MatchIndicesOrdered(ps, vs);
    MatchIndicesSound(ps, vs);
    MatchIndicesComplete(ps, vs);
  }

  /** The merge's success value holds one row per matching pair of rows. */
  lemma MergeOnePerPair(prices: Table<PriceRecord>, volumes: Table<VolumeRecord>)
    requires !IsEmpty(prices) && !IsEmpty(volumes) && ColumnsFit(prices, volumes)
    ensures MergeImbalDfs(prices, volumes).Success?
    ensures |MergeImbalDfs(prices, volumes).value| == |MatchIndices(prices.rows, volumes.rows)|
    ensures forall k :: 0 <= k < |MatchIndices(prices.rows, volumes.rows)| ==>
              && 0 <= MatchIndices(prices.rows, volumes.rows)[k].0 < |prices.rows|
              && 0 <= MatchIndices(prices.rows, volumes.rows)[k].1 < |volumes.rows|
              && MergeImbalDfs(prices, volumes).value[k] ==
                Priced(Join(prices.rows[MatchIndices(prices.rows, volumes.rows)[k].0],
                            volumes.rows[MatchIndices(prices.rows, volumes.rows)[k].1]))
  {
    PriceMatchesOnePerPair(prices.rows, volumes.rows);
  }

  /** Volume rows at different positions are on different slots, and price
      rows at different positions differ in slot or category. */
  ghost predicate WellKeyed(prices: seq<PriceRecord>, volumes: seq<VolumeRecord>)
  {
    && (forall j1, j2 ::
          (0 <= j1 < |volumes| && 0 <= j2 < |volumes| &&
           volumes[j1].settlementPeriod == volumes[j2].settlementPeriod &&
           volumes[j1].settlementDate == volumes[j2].settlementDate &&
           volumes[j1].controlArea == volumes[j2].controlArea) ==> j1 == j2)
    && (forall i1, i2 ::
          (0 <= i1 < |prices| && 0 <= i2 < |prices| &&
           prices[i1].settlementPeriod == prices[i2].settlementPeriod &&
           prices[i1].settlementDate == prices[i2].settlementDate &&
           prices[i1].controlArea == prices[i2].controlArea &&
           prices[i1].priceCategory == prices[i2].priceCategory) ==> i1 == i2)
  }

  /** With keyed inputs the merge holds at most one row per slot: two merged
      rows on one slot are the same row. */
  lemma OnePricePerSlot(prices: seq<PriceRecord>, volumes: seq<VolumeRecord>)
    requires WellKeyed(prices, volumes)
    ensures forall k1, k2 ::
              (0 <= k1 < |PriceMatches(prices, volumes)| && 0 <= k2 < |PriceMatches(prices, volumes)| &&
               PriceMatches(prices, volumes)[k1].settlementPeriod == PriceMatches(prices, volumes)[k2].settlementPeriod &&
               PriceMatches(prices, volumes)[k1].settlementDate == PriceMatches(prices, volumes)[k2].settlementDate &&
               PriceMatches(prices, volumes)[k1].controlArea == PriceMatches(prices, volumes)[k2].controlArea) ==> k1 == k2
  {
    var r := PriceMatches(prices, volumes);
    var pairs := MatchIndices(prices, volumes);
    PriceMatchesOnePerPair(prices, volumes);
    forall k1, k2 | 0 <= k1 < |r| && 0 <= k2 < |r| &&
                    r[k1].settlementPeriod == r[k2].settlementPeriod &&
                    r[k1].settlementDate == r[k2].settlementDate &&
                    r[k1].controlArea == r[k2].controlArea
      ensures k1 == k2
    {
      var (i1, j1) := pairs[k1];
      var (i2, j2) := pairs[k2];
      assert pairs[k1] in pairs && pairs[k2] in pairs;
      assert SameSlot(prices[i1], volumes[j1]) && SameSlot(prices[i2], volumes[j2]);
      assert j1 == j2;
      assert prices[i1].priceCategory == prices[i2].priceCategory;
      assert i1 == i2;
      assert pairs[k1] == pairs[k2];
    }
  }
}
