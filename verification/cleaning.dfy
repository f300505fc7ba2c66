/** The cleaners: keep the final, active rows of a report and project them
    onto the canonical column set shared by prices and volumes. */
module Cleaning {
  import opened Results
  import opened Records
  import opened Seqs

  /** The columns of a cleaned price table, in order. */
  const PriceColumns: seq<string> :=
    ["SettlementDate", "SettlementPeriod", "ControlArea", "ImbalancePriceAmount", "PriceCategory"]

  /** The columns of the price report the cleaner reads. */
  const RawPriceColumns: set<string> :=
    {"DocumentStatus", "ActiveFlag"} + set c | c in PriceColumns

  /** The volume columns the cleaner keeps, under their report names. */
  const RawVolumeColumns: seq<string> :=
    ["Settlement Date", "Settlement Period", "Control Area", "Imbalance Quantity (MAW)"]

  /** The columns of the volume report the cleaner reads. */
  const RawVolumeStatusColumns: set<string> := {"Document Status", "Active Flag"}

  /** The renaming of volume columns onto the price schema's names. */
  const VolumeRenames: map<string, string> := map[
    "Settlement Date" := "SettlementDate",
    "Settlement Period" := "SettlementPeriod",
    "Control Area" := "ControlArea",
    "Imbalance Quantity (MAW)" := "ImbalanceQuantity"]

  /** Renames the columns listed in `renames`; other names are left as they are. */
  function Rename(columns: seq<string>, renames: map<string, string>): (r: seq<string>)
    ensures |r| == |columns|
    ensures forall i :: 0 <= i < |r| && columns[i] in renames ==> r[i] == renames[columns[i]]
    ensures forall i :: 0 <= i < |r| && columns[i] !in renames ==> r[i] == columns[i]
  {
    seq(|columns|, i requires 0 <= i < |columns| =>
      if columns[i] in renames then renames[columns[i]] else columns[i])
  }

  predicate IsFinalActive(documentStatus: string, activeFlag: string)
  {
    documentStatus == Final && activeFlag == Active
  }

  predicate KeepPrice(row: RawPriceRow)
  {
    IsFinalActive(row.documentStatus, row.activeFlag)
  }

  predicate KeepVolume(row: RawVolumeRow)
  {
    IsFinalActive(row.documentStatus, row.activeFlag)
  }

  function ProjectPrice(row: RawPriceRow): PriceRecord
  {
    PriceRecord(row.settlementDate, row.settlementPeriod, row.controlArea,
                row.imbalancePriceAmount, row.priceCategory)
  }

  function ProjectVolume(row: RawVolumeRow): VolumeRecord
  {
    VolumeRecord(row.settlementDate, row.settlementPeriod, row.controlArea, row.imbalanceQuantity)
  }

  /** True when `cleaned` holds exactly the kept rows of `raw`, in order:
      row `k` is the projection of the `k`-th kept raw row. */
  ghost predicate SelectsInOrder<R, C>(raw: seq<R>, keep: R -> bool, project: R -> C, cleaned: seq<C>)
  {
    var p := Positions(raw, keep);
    && |cleaned| == |p|
    && forall k :: 0 <= k < |cleaned| ==> p[k] < |raw| && cleaned[k] == project(raw[p[k]])
  }

  /** The projections of the kept rows of `raw`, in order. */
  function Select<R, C>(raw: seq<R>, keep: R -> bool, project: R -> C): (r: seq<C>)
    ensures |r| <= |raw|
    ensures SelectsInOrder(raw, keep, project, r)
    ensures forall i :: 0 <= i < |raw| && keep(raw[i]) ==> project(raw[i]) in r
    ensures forall k :: 0 <= k < |r| ==>
              exists i :: 0 <= i < |raw| && keep(raw[i]) && r[k] == project(raw[i])
  {
    var kept := Filter(raw, keep);
    var out := seq(|kept|, k requires 0 <= k < |kept| => project(kept[k]));
    assert forall i :: 0 <= i < |raw| && keep(raw[i]) ==> project(raw[i]) in out by {
      forall i | 0 <= i < |raw| && keep(raw[i])
        ensures project(raw[i]) in out
      {
        var k :| 0 <= k < |kept| && kept[k] == raw[i];
        assert out[k] == project(raw[i]);
      }
    }
    assert forall k :: 0 <= k < |out| ==>
             exists i :: 0 <= i < |raw| && keep(raw[i]) && out[k] == project(raw[i]) by {
      forall k | 0 <= k < |out|
        ensures exists i :: 0 <= i < |raw| && keep(raw[i]) && out[k] == project(raw[i])
      {
        var i :| 0 <= i < |raw| && raw[i] == kept[k];
        assert keep(raw[i]) && out[k] == project(raw[i]);
      }
    }
    out
  }

  /** The cleaned volume table's columns: the kept report columns renamed. */
  const VolumeColumns: seq<string> := Rename(RawVolumeColumns, VolumeRenames)

  /** Cleans the price report. A report without one of the columns read
      reports an error and yields nothing. */
  function CleanImbalancePrices(raw: RawReport<RawPriceRow>): (r: Option<Table<PriceRecord>>)
    ensures r.None? <==> !(RawPriceColumns <= raw.columns)
    ensures r.Some? ==> r.value.columns == PriceColumns
    ensures r.Some? ==> |r.value.rows| <= |raw.rows|
    ensures r.Some? ==> SelectsInOrder(raw.rows, KeepPrice, ProjectPrice, r.value.rows)
    ensures r.Some? ==> forall i :: 0 <= i < |raw.rows| && KeepPrice(raw.rows[i]) ==>
                          ProjectPrice(raw.rows[i]) in r.value.rows
    ensures r.Some? ==> forall c :: c in r.value.rows ==>
                          exists i :: 0 <= i < |raw.rows| && KeepPrice(raw.rows[i]) && c == ProjectPrice(raw.rows[i])
  {
    if !(RawPriceColumns <= raw.columns) then None
    else Some(Table(PriceColumns, Select(raw.rows, KeepPrice, ProjectPrice)))
  }

  /** Cleans the volume report and renames its columns onto the price
      schema's names. A report without one of the columns read reports an
      error and yields nothing. */
  function CleanImbalanceVolumes(raw: RawReport<RawVolumeRow>): (r: Option<Table<VolumeRecord>>)
    ensures r.None? <==> !(RawVolumeStatusColumns <= raw.columns && (set c | c in RawVolumeColumns) <= raw.columns)
    ensures r.Some? ==> r.value.columns == VolumeColumns
    ensures r.Some? ==> |r.value.rows| <= |raw.rows|
    ensures r.Some? ==> SelectsInOrder(raw.rows, KeepVolume, ProjectVolume, r.value.rows)
    ensures r.Some? ==> forall i :: 0 <= i < |raw.rows| && KeepVolume(raw.rows[i]) ==>
                          ProjectVolume(raw.rows[i]) in r.value.rows
    ensures r.Some? ==> forall c :: c in r.value.rows ==>
                          exists i :: 0 <= i < |raw.rows| && KeepVolume(raw.rows[i]) && c == ProjectVolume(raw.rows[i])
  {
    if !(RawVolumeStatusColumns <= raw.columns && (set c | c in RawVolumeColumns) <= raw.columns) then None
    else Some(Table(VolumeColumns, Select(raw.rows, KeepVolume, ProjectVolume)))
  }

  /** The renaming maps each kept report column to its price-schema name,
      none with a space. */
  lemma VolumeColumnsNormalized()
    ensures VolumeColumns == ["SettlementDate", "SettlementPeriod", "ControlArea", "ImbalanceQuantity"]
    ensures forall i :: 0 <= i < |VolumeColumns| ==>
              ' ' !in VolumeColumns[i] && VolumeRenames[RawVolumeColumns[i]] == VolumeColumns[i]
  {
    assert VolumeColumns[0] == "SettlementDate";
    assert VolumeColumns[1] == "SettlementPeriod";
    assert VolumeColumns[2] == "ControlArea";
    assert VolumeColumns[3] == "ImbalanceQuantity";
  }

  /** A cleaned price table has lost the status columns, so cleaning it
      again reports the missing-column error rather than returning it. */
  lemma RecleaningPricesFails(rows: seq<RawPriceRow>)
    ensures CleanImbalancePrices(RawReport((set c | c in PriceColumns), rows)).None?
  {
    assert "DocumentStatus" !in (set c | c in PriceColumns);
  }
}
