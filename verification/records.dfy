/** The rows of the two settlement reports, the cleaned tables built from
    them and the merged imbalance series. Dates are day numbers (days since
    1970-01-01) and times are minutes since 1970-01-01 00:00; prices,
    quantities and costs are exact reals. */
module Records {

  /** The status values a row must carry to survive cleaning. */
  const Final := "Final"
  const Active := "Y"

  /** The two price categories of the price report. */
  const ExcessBalance := "Excess balance"
  const InsufficientBalance := "Insufficient balance"

  /** A row of the imbalance price report, with the fields the cleaner reads. */
  datatype RawPriceRow = RawPriceRow(
    documentStatus: string,
    activeFlag: string,
    settlementDate: int,
    settlementPeriod: int,
    controlArea: string,
    imbalancePriceAmount: real,
    priceCategory: string)

  /** A row of the imbalance volume report, with the fields the cleaner reads. */
  datatype RawVolumeRow = RawVolumeRow(
    documentStatus: string,
    activeFlag: string,
    settlementDate: int,
    settlementPeriod: int,
    controlArea: string,
    imbalanceQuantity: real)

  /** A report as delivered: the names of the columns it has and its rows. */
  datatype RawReport<R> = RawReport(columns: set<string>, rows: seq<R>)

  /** A cleaned table: its column names, in order, and its rows. */
  datatype Table<R> = Table(columns: seq<string>, rows: seq<R>)

  /** A table is empty when it has no rows or no columns. */
  predicate IsEmpty<R>(t: Table<R>)
  {
    |t.rows| == 0 || |t.columns| == 0
  }

  datatype PriceRecord = PriceRecord(
    settlementDate: int,
    settlementPeriod: int,
    controlArea: string,
    imbalancePriceAmount: real,
    priceCategory: string)

  datatype VolumeRecord = VolumeRecord(
    settlementDate: int,
    settlementPeriod: int,
    controlArea: string,
    imbalanceQuantity: real)

  /** A priced half-hour: the joined price and volume, their product and the
      interval the settlement period covers. */
  datatype MergedRecord = MergedRecord(
    settlementDate: int,
    settlementPeriod: int,
    controlArea: string,
    imbalancePriceAmount: real,
    priceCategory: string,
    imbalanceQuantity: real,
    imbalanceCost: real,
    startTime: int,
    endTime: int)

  /** The errors the pipeline raises. */
  datatype Error =
    | EmptyInput         // merging an empty table
    | ColumnsMismatch    // the tables lack the join or value columns
    | NotADataFrame      // an analysis input that is not a table
    | CalculationFailed  // an analysis that cannot produce its value
}
