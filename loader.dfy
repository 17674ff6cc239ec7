/**
 * `load_data`: choose a reader by file extension, map state codes to their French
 * display names, parse the order dates, keep the allowlisted columns, narrow `age`.
 */
module Loader {
  import opened Wrappers
  import opened Seqs
  import opened Orders

  /**
   * `df['State'].map(state_dict)` on one cell: the fixed table of 50 two-letter
   * state codes and their display names (spelled as the dashboard shows them); an unknown
   * code becomes NaN.
   */
  function StateName(code: string): Option<string> {
    match code
    case "AL" => Some("Alabama")
    case "AK" => Some("Alaska")
    case "AZ" => Some("Arizona")
    case "AR" => Some("Arkansas")
    case "CA" => Some("Californie")
    case "NC" => Some("Caroline du Nord")
    case "SC" => Some("Caroline du Sud")
    case "CO" => Some("Colorado")
    case "CT" => Some("Connecticut")
    case "ND" => Some("Dakota du Nord")
    case "SD" => Some("Dakota du Sud")
    case "DE" => Some("Delaware")
    case "FL" => Some("Floride")
    case "GA" => Some("Georgie")
    case "HI" => Some("Hawaï")
    case "ID" => Some("Idaho")
    case "IL" => Some("Illinois")
    case "IN" => Some("Indiana")
    case "IA" => Some("Iowa")
    case "KS" => Some("Kansas")
    case "KY" => Some("Kentucky")
    case "LA" => Some("Louisiane")
    case "ME" => Some("Maine")
    case "MD" => Some("Maryland")
    case "MA" => Some("Massachussetts")
    case "MI" => Some("Michigan")
    case "MN" => Some("Minnesota")
    case "MS" => Some("Mississippi")
    case "MO" => Some("Missouri")
    case "MT" => Some("Montana")
    case "NE" => Some("Nebraska")
    case "NV" => Some("Nevada")
    case "NH" => Some("New Hampshire")
    case "NJ" => Some("New Jersey")
    case "NY" => Some("New York")
    case "NM" => Some("Nouveau-Mexique")
    case "OH" => Some("Ohio")
    case "OK" => Some("Oklahoma")
    case "OR" => Some("Oregon")
    case "PA" => Some("Pennsylvanie")
    case "RI" => Some("Rhode Island")
    case "TN" => Some("Tennessee")
    case "TX" => Some("Texas")
    case "UT" => Some("Utah")
    case "VT" => Some("Vermont")
    case "VA" => Some("Virginie")
    case "WV" => Some("Virginie ociidentale")
    case "WA" => Some("Washington")
    case "WI" => Some("Wisconsin")
    case "WY" => Some("Wyoming")
    case _ => None
  }

  /** The column allowlist, in the order the loaded table lists its columns. */
  const ColumnsToKeep: seq<string> := [
    "order_date", "Region", "State Complet", "County", "City", "status", "total",
    "cust_id", "order_id", "full_name", "age", "Gender", "category"]

  /** The names of `wanted` that occur in `columns`, in the order of `wanted`. */
  function Present(wanted: seq<string>, columns: seq<string>): seq<string> {
    if wanted == [] then []
    else (if wanted[0] in columns then [wanted[0]] else []) + Present(wanted[1..], columns)
  }

  /** The allowlisted columns that are present, in allowlist order. */
  function KeptColumns(columns: seq<string>): seq<string> {
    Present(ColumnsToKeep, columns)
  }

  /** numpy's `astype('int8')` on an integer: wrap-around modulo 256 into [-128, 127]. */
  function ToInt8(x: int): (y: int)
    ensures -128 <= y <= 127
    ensures (x - y) % 256 == 0
    ensures -128 <= x <= 127 ==> y == x
  {
    (x + 128) % 256 - 128
  }

  datatype Format = Csv | Excel

  /** What the foreign reader (`pd.read_csv` or `pd.read_excel`) does with the file. */
  datatype ReadOutcome = Read(table: RawTable) | NotFound | ReadFailed(message: string)

  /** An uploaded file: its name and its content. */
  datatype Upload = Upload(name: string, bytes: seq<bv8>)

  /** Why no table was produced: no upload (nothing is shown), or an error message shown to the user. */
  datatype LoadError = NoUpload | UnsupportedFormat | FileNotFound | ReadError(message: string)

  /** The warnings shown when an expected column is absent. */
  datatype Warning = NoStateColumn | NoOrderDateColumn

  predicate EndsWith(s: string, suffix: string) {
    |suffix| <= |s| && s[|s| - |suffix|..] == suffix
  }

  /** The reader chosen by the file name: `.csv`, then `.xlsx`, otherwise none. */
  function FormatOf(name: string): Option<Format> {
    if EndsWith(name, ".csv") then Some(Csv)
    else if EndsWith(name, ".xlsx") then Some(Excel)
    else None
  }

  function MissingColumnWarnings(columns: seq<string>): seq<Warning> {
    (if "State" in columns then [] else [NoStateColumn])
    + (if "order_date" in columns then [] else [NoOrderDateColumn])
  }

  /** The columns after `State Complet` has been assigned (appended when new). */
  function ColumnsWithStateName(columns: seq<string>): seq<string> {
    if "State" in columns && "State Complet" !in columns then columns + ["State Complet"] else columns
  }

  /** One row after normalisation; the flags say which of the touched columns exist. */
  function NormaliseRow(r: RawOrder, hasState: bool, hasDate: bool, hasAge: bool,
                        parseDate: string -> Option<Date>): Order
  {
    Order(
      if hasDate then parseDate(r.orderDate) else None,
      r.region,
      if hasState then StateName(r.state) else r.stateName,
      r.county, r.city, r.status, r.total, r.custId, r.orderId, r.fullName,
      if hasAge then ToInt8(r.age) else r.age,
      r.gender, r.category)
  }

  /** The table `load_data` returns for a file the reader could read. */
  function Normalise(raw: RawTable, parseDate: string -> Option<Date>): Table {
    var hasState := "State" in raw.columns;
    var hasDate := "order_date" in raw.columns;
    var hasAge := "age" in raw.columns;
    Table(
      KeptColumns(ColumnsWithStateName(raw.columns)),
      seq(|raw.rows|, i requires 0 <= i < |raw.rows| =>
        NormaliseRow(raw.rows[i], hasState, hasDate, hasAge, parseDate)))
  }

  /** `load_data` as a whole: the table or the error shown, and the warnings shown. */
  function Load(upload: Option<Upload>, read: (Format, seq<bv8>) -> ReadOutcome,
                parseDate: string -> Option<Date>): (Result<Table, LoadError>, seq<Warning>)
  {
    match upload
    case None => (Failure(NoUpload), [])
    case Some(file) =>
      match FormatOf(file.name)
      case None => (Failure(UnsupportedFormat), [])
      case Some(format) =>
        match read(format, file.bytes)
        case NotFound => (Failure(FileNotFound), [])
        case ReadFailed(message) => (Failure(ReadError(message)), [])
        case Read(raw) => (Success(Normalise(raw, parseDate)), MissingColumnWarnings(raw.columns))
  }

  /** `df['State'].map(state_dict)`: the `State Complet` column. */
  method MapStateCodes(rows: seq<RawOrder>) returns (names: seq<Option<string>>)
    ensures |names| == |rows|
    ensures forall j :: 0 <= j < |rows| ==> names[j] == StateName(rows[j].state)
  {
    names := [];
    var i := 0;
    while i < |rows|
      invariant 0 <= i <= |rows| && |names| == i
      invariant forall j :: 0 <= j < i ==> names[j] == StateName(rows[j].state)
    {
      names := names + [StateName(rows[i].state)];
      i := i + 1;
    }
  }

  /** `pd.to_datetime(df['order_date'], errors='coerce')`: unparseable text becomes NaT. */
  method CoerceDates(rows: seq<RawOrder>, parseDate: string -> Option<Date>) returns (dates: seq<Option<Date>>)
    ensures |dates| == |rows|
    ensures forall j :: 0 <= j < |rows| ==> dates[j] == parseDate(rows[j].orderDate)
  {
    dates := [];
    var i := 0;
    while i < |rows|
      invariant 0 <= i <= |rows| && |dates| == i
      invariant forall j :: 0 <= j < i ==> dates[j] == parseDate(rows[j].orderDate)
    {
      dates := dates + [parseDate(rows[i].orderDate)];
      i := i + 1;
    }
  }

  /** `[col for col in columns_to_keep if col in df.columns]`. */
  method SelectColumns(columns: seq<string>) returns (kept: seq<string>)
    ensures kept == KeptColumns(columns)
  {
    kept := [];
    var k := 0;
    while k < |ColumnsToKeep|
      invariant 0 <= k <= |ColumnsToKeep|
      invariant kept == Present(ColumnsToKeep[..k], columns)
    {
      PresentAppend(ColumnsToKeep[..k], ColumnsToKeep[k], columns);
      assert ColumnsToKeep[..k + 1] == ColumnsToKeep[..k] + [ColumnsToKeep[k]];
      if ColumnsToKeep[k] in columns {
        kept := kept + [ColumnsToKeep[k]];
      }
      k := k + 1;
    }
    assert ColumnsToKeep[..k] == ColumnsToKeep;
  }

  /** `df['age'].astype('int8')`. */
  method NarrowAges(rows: seq<RawOrder>) returns (ages: seq<int>)
    ensures |ages| == |rows|
    ensures forall j :: 0 <= j < |rows| ==> ages[j] == ToInt8(rows[j].age) && -128 <= ages[j] <= 127
  {
    ages := [];
    var i := 0;
    while i < |rows|
      invariant 0 <= i <= |rows| && |ages| == i
      invariant forall j :: 0 <= j < i ==> ages[j] == ToInt8(rows[j].age)
    {
      ages := ages + [ToInt8(rows[i].age)];
      i := i + 1;
    }
  }

  lemma {:induction false} PresentAppend(wanted: seq<string>, c: string, columns: seq<string>)
    ensures Present(wanted + [c], columns) == Present(wanted, columns) + (if c in columns then [c] else [])
    decreases |wanted|
  {
    if wanted == [] {
      assert wanted + [c] == [c];
    } else {
      assert (wanted + [c])[1..] == wanted[1..] + [c];
      PresentAppend(wanted[1..], c, columns);
    }
  }

  /** A name is kept exactly when it is wanted and present. */
  lemma {:induction false} PresentMembership(wanted: seq<string>, columns: seq<string>, c: string)
    ensures c in Present(wanted, columns) <==> c in wanted && c in columns
    decreases |wanted|
  {
    if wanted != [] {
      PresentMembership(wanted[1..], columns, c);
      assert c in wanted <==> c == wanted[0] || c in wanted[1..];
    }
  }

  /** A column is kept exactly when it is allowlisted and present. */
  lemma KeptColumnsMembership(columns: seq<string>, c: string)
    ensures c in KeptColumns(columns) <==> c in ColumnsToKeep && c in columns
  {
    PresentMembership(ColumnsToKeep, columns, c);
  }

  /** The rows rebuilt from the raw rows and the three recomputed columns. */
  function Assemble(raws: seq<RawOrder>, dates: seq<Option<Date>>, names: seq<Option<string>>, ages: seq<int>)
    : (rows: seq<Order>)
    requires |dates| == |names| == |ages| == |raws|
    ensures |rows| == |raws|
  {
    seq(|raws|, i requires 0 <= i < |raws| =>
      Order(dates[i], raws[i].region, names[i], raws[i].county, raws[i].city, raws[i].status,
            raws[i].total, raws[i].custId, raws[i].orderId, raws[i].fullName, ages[i],
            raws[i].gender, raws[i].category))
  }

  /** Rebuilding the rows from the three recomputed columns gives the normalised rows. */
  lemma AssembleNormalised(raw: RawTable, parseDate: string -> Option<Date>,
                           dates: seq<Option<Date>>, names: seq<Option<string>>, ages: seq<int>)
    requires |dates| == |names| == |ages| == |raw.rows|
    requires forall j :: 0 <= j < |raw.rows| ==>
      dates[j] == if "order_date" in raw.columns then parseDate(raw.rows[j].orderDate) else None
    requires forall j :: 0 <= j < |raw.rows| ==>
      names[j] == if "State" in raw.columns then StateName(raw.rows[j].state) else raw.rows[j].stateName
    requires forall j :: 0 <= j < |raw.rows| ==>
      ages[j] == if "age" in raw.columns then ToInt8(raw.rows[j].age) else raw.rows[j].age
    ensures Assemble(raw.rows, dates, names, ages) == Normalise(raw, parseDate).rows
  {
    var rows := Assemble(raw.rows, dates, names, ages);
    var want := Normalise(raw, parseDate).rows;
    forall i | 0 <= i < |rows| ensures rows[i] == want[i] {
    }
  }

  /** The columns once `State Complet` is added: the old ones, and `State Complet` when `State` is there. */
  lemma StateNameColumn(columns: seq<string>, c: string)
    ensures c in ColumnsWithStateName(columns) <==> c in columns || (c == "State Complet" && "State" in columns)
  {
  }

  lemma DateColumnSurvivesStateName(columns: seq<string>)
    ensures "order_date" in ColumnsWithStateName(columns) <==> "order_date" in columns
  {
    assert "order_date"[0] != "State Complet"[0];
  }

  /**
   * The normalisation of a table the reader produced, step by step: each step
   * computes one new column over all rows and assigns it, as the data frame
   * operations do.
   */
  method NormaliseTable(raw: RawTable, parseDate: string -> Option<Date>)
    returns (table: Table, warnings: seq<Warning>)
    ensures table == Normalise(raw, parseDate)
    ensures warnings == MissingColumnWarnings(raw.columns)
  {
    warnings := [];
    var columns := raw.columns;

    var stateNames: seq<Option<string>>;
    if "State" in columns {
      stateNames := MapStateCodes(raw.rows);
      if "State Complet" !in columns {
        columns := columns + ["State Complet"];
      }
    } else {
      stateNames := MapSeq(raw.rows, (r: RawOrder) => r.stateName);
      warnings := warnings + [NoStateColumn];
    }
    assert columns == ColumnsWithStateName(raw.columns);
    DateColumnSurvivesStateName(raw.columns);

    var dates: seq<Option<Date>>;
    if "order_date" in columns {
      dates := CoerceDates(raw.rows, parseDate);
    } else {
      dates := MapSeq(raw.rows, (r: RawOrder) => None);
      warnings := warnings + [NoOrderDateColumn];
    }

    var kept := SelectColumns(columns);

    var ages: seq<int>;
    KeptColumnsMembership(columns, "age");
    if "age" in kept {
      ages := NarrowAges(raw.rows);
    } else {
      ages := MapSeq(raw.rows, (r: RawOrder) => r.age);
    }

    StateNameColumn(raw.columns, "age");
    AssembleNormalised(raw, parseDate, dates, stateNames, ages);
    table := Table(kept, Assemble(raw.rows, dates, stateNames, ages));
  }

  /** `load_data`: no file, an unsupported extension, a reader failure, or a table. */
  method LoadData(upload: Option<Upload>, read: (Format, seq<bv8>) -> ReadOutcome,
                  parseDate: string -> Option<Date>)
    returns (result: Result<Table, LoadError>, warnings: seq<Warning>)
    ensures (result, warnings) == Load(upload, read, parseDate)
  {
    if upload.None? {
      return Failure(NoUpload), [];
    }
    var file := upload.value;
    var outcome: ReadOutcome;
    if EndsWith(file.name, ".csv") {
      outcome := read(Csv, file.bytes);
    } else if EndsWith(file.name, ".xlsx") {
      outcome := read(Excel, file.bytes);
    } else {
      return Failure(UnsupportedFormat), [];
    }
    match outcome {
      case NotFound =>
        return Failure(FileNotFound), [];
      case ReadFailed(message) =>
        return Failure(ReadError(message)), [];
      case Read(raw) =>
        var table;
        table, warnings := NormaliseTable(raw, parseDate);
        result := Success(table);
    }
  }

  /** The names kept by `Present` appear in the order of `wanted`. */
  lemma {:induction false} PresentIsSubsequence(wanted: seq<string>, columns: seq<string>)
    ensures IsSubsequence(Present(wanted, columns), wanted)
    decreases |wanted|
  {
    if wanted != [] {
      PresentIsSubsequence(wanted[1..], columns);
      var p := Present(wanted, columns);
      if wanted[0] in columns {
        assert p[0] == wanted[0] && p[1..] == Present(wanted[1..], columns);
      } else {
        assert p == Present(wanted[1..], columns);
        SubsequenceOfTail(p, wanted);
      }
    }
  }

  /**
   * After loading, the columns are exactly the allowlisted ones that were present
   * (`State Complet` counts as present when `State` was), in allowlist order, each once.
   */
  lemma LoadedColumns(raw: RawTable, parseDate: string -> Option<Date>)
    ensures var kept := Normalise(raw, parseDate).columns;
      && (forall c :: c in kept <==>
            c in ColumnsToKeep && (c in raw.columns || (c == "State Complet" && "State" in raw.columns)))
      && IsSubsequence(kept, ColumnsToKeep)
      && Distinct(kept)
  {
    var columns := ColumnsWithStateName(raw.columns);
    assert Normalise(raw, parseDate).columns == KeptColumns(columns);
    forall c ensures c in KeptColumns(columns) <==>
        c in ColumnsToKeep && (c in raw.columns || (c == "State Complet" && "State" in raw.columns))
    {
      KeptColumnsMembership(columns, c);
      StateNameColumn(raw.columns, c);
    }
    assert IsSubsequence(KeptColumns(columns), ColumnsToKeep) by {
      PresentIsSubsequence(ColumnsToKeep, columns);
    }
    assert Distinct(KeptColumns(columns)) by {
      AllowlistDistinct();
      PresentDistinct(ColumnsToKeep, columns);
    }
  }

  /** No column is named twice in the allowlist. */
  lemma AllowlistDistinct()
    ensures Distinct(ColumnsToKeep)
  {
  }

  lemma {:induction false} PresentDistinct(wanted: seq<string>, columns: seq<string>)
    requires Distinct(wanted)
    ensures Distinct(Present(wanted, columns))
    decreases |wanted|
  {
    if wanted != [] {
      assert Distinct(wanted[1..]) by {
        forall i, j | 0 <= i < j < |wanted[1..]| ensures wanted[1..][i] != wanted[1..][j] {
          assert wanted[1..][i] == wanted[i + 1] && wanted[1..][j] == wanted[j + 1];
        }
      }
      PresentDistinct(wanted[1..], columns);
      var rest := Present(wanted[1..], columns);
      if wanted[0] in columns {
        PresentMembership(wanted[1..], columns, wanted[0]);
        assert wanted[0] !in wanted[1..];
        var p := Present(wanted, columns);
        assert p == [wanted[0]] + rest;
        forall i, j | 0 <= i < j < |p| ensures p[i] != p[j] {
          if i == 0 {
            assert p[j] == rest[j - 1];
          } else {
            assert p[i] == rest[i - 1] && p[j] == rest[j - 1];
          }
        }
      }
    }
  }

  /**
   * Where `State` is present, each row's `State Complet` is the table's display name
   * for its code (NaN for an unknown code); the columns the loader does not touch
   * keep their values.
   */
  lemma StateCompletColumn(raw: RawTable, parseDate: string -> Option<Date>, i: int)
    requires "State" in raw.columns
    requires 0 <= i < |raw.rows|
    ensures var r, o := raw.rows[i], Normalise(raw, parseDate).rows[i];
      && o.stateName == StateName(r.state)
      && o.region == r.region && o.county == r.county && o.city == r.city && o.status == r.status
      && o.total == r.total && o.custId == r.custId && o.orderId == r.orderId
      && o.fullName == r.fullName && o.gender == r.gender && o.category == r.category
  {
  }

  /** A date the parser rejects becomes NaT; a date it accepts is kept as parsed. */
  lemma OrderDateColumn(raw: RawTable, parseDate: string -> Option<Date>, i: int)
    requires "order_date" in raw.columns
    requires 0 <= i < |raw.rows|
    ensures Normalise(raw, parseDate).rows[i].orderDate == parseDate(raw.rows[i].orderDate)
  {
  }

  /** Three codes of the table, and one it does not know. */
  lemma StateTableExamples()
    ensures StateName("CA") == Some("Californie")
    ensures StateName("NY") == Some("New York")
    ensures StateName("TX") == Some("Texas")
    ensures StateName("ZZ") == None
  {
  }
}
