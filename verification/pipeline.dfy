/** Properties that span the cleaners and the merger. */
module Pipeline {
  import opened Results
  import opened Records
  import Cleaning
  import Merge

  /** Tables with the cleaners' column lists pass the merge's column check. */
  lemma CleanedColumnsFit(prices: Table<PriceRecord>, volumes: Table<VolumeRecord>)
    requires prices.columns == Cleaning.PriceColumns
    requires volumes.columns == Cleaning.VolumeColumns
    ensures Merge.ColumnsFit(prices, volumes)
  {
    Cleaning.VolumeColumnsNormalized();
    assert prices.columns[3] == "ImbalancePriceAmount" && prices.columns[4] == "PriceCategory";
    assert volumes.columns[3] == "ImbalanceQuantity";
  }

  /** The renamed volume columns line up with the price columns, so tables
      produced by the cleaners never fail the merge's column check. */
  lemma CleanedTablesFitMerge(rawPrices: RawReport<RawPriceRow>, rawVolumes: RawReport<RawVolumeRow>)
    requires Cleaning.CleanImbalancePrices(rawPrices).Some?
    requires Cleaning.CleanImbalanceVolumes(rawVolumes).Some?
    ensures Merge.MergeImbalDfs(Cleaning.CleanImbalancePrices(rawPrices).value,
                                Cleaning.CleanImbalanceVolumes(rawVolumes).value) != Failure(ColumnsMismatch)
  {
    CleanedColumnsFit(Cleaning.CleanImbalancePrices(rawPrices).value,
                      Cleaning.CleanImbalanceVolumes(rawVolumes).value);
  }
}
