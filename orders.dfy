/**
 * The order records of the sales dashboard: one row of the uploaded file as the
 * reader yields it, and the same row after load normalisation.
 */
module Orders {
  import opened Wrappers

  /** A calendar date as the date pickers and the date parser produce it. */
  datatype Date = Date(year: int, month: int, day: int)

  /** A calendar month: the `Month-Year` bucket of the monthly trend. */
  datatype YearMonth = YearMonth(year: int, month: int)

  /** Chronological order on dates (lexicographic on year, month, day). */
  predicate DateLe(a: Date, b: Date) {
    a.year < b.year || (a.year == b.year && (a.month < b.month || (a.month == b.month && a.day <= b.day)))
  }

  /** Chronological order on months. */
  predicate MonthLe(a: YearMonth, b: YearMonth) {
    a.year < b.year || (a.year == b.year && a.month <= b.month)
  }

  /** The month a date falls in: the date truncated to its calendar month. */
  function MonthOf(d: Date): YearMonth {
    YearMonth(d.year, d.month)
  }

  /**
   * One row as the file reader yields it. `orderDate` is still text, `state` is the
   * two-letter code, and `stateName` is a `State Complet` column the file may already carry.
   */
  datatype RawOrder = RawOrder(
    orderDate: string,
    region: string,
    state: string,
    stateName: Option<string>,
    county: string,
    city: string,
    status: string,
    total: real,
    custId: int,
    orderId: int,
    fullName: string,
    age: int,
    gender: string,
    category: string)

  /** The file as read: its column names, and its rows. The value of an absent column is meaningless. */
  datatype RawTable = RawTable(columns: seq<string>, rows: seq<RawOrder>)

  /**
   * One row after loading: the date parsed (None is pandas' NaT), the state code
   * replaced by its display name `State Complet` (None is NaN).
   */
  datatype Order = Order(
    orderDate: Option<Date>,
    region: string,
    stateName: Option<string>,
    county: string,
    city: string,
    status: string,
    total: real,
    custId: int,
    orderId: int,
    fullName: string,
    age: int,
    gender: string,
    category: string)

  /** The loaded table: the columns kept, and the rows. */
  datatype Table = Table(columns: seq<string>, rows: seq<Order>)
}
