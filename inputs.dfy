/**
 * The arguments of the Records constructor and the errors construction can end in.
 * Reading CSV files is outside the model: a path argument carries the table that
 * reading the file would give, so only the choice the constructor makes between the
 * alternatives is modelled.
 */
module Inputs {
  import opened Wrappers
  import opened Schema
  import opened Columns

  /**
   * An in-memory records table (a pandas DataFrame): its row index, its column labels
   * in order, and the column under each label.
   */
  datatype DataTable = DataTable(index: seq<int>, labels: seq<Label>, data: map<Label, Column>) {
    /** `len(taxdf)`. */
    function Rows(): nat {
      |index|
    }

    /** What a DataFrame always satisfies: each label has a column of full length. */
    ghost predicate WellFormed() {
      forall i :: 0 <= i < |labels| ==> labels[i] in data && data[labels[i]].Length() == |index|
    }
  }

  /** The `data` argument: a DataFrame, a CSV path (with the table it holds), or anything else. */
  datatype DataArg =
    | DataFrameArg(table: DataTable)
    | CsvPathArg(path: string, contents: DataTable)
    | OtherDataArg

  /**
   * The `blowup_factors` and `weights` arguments: None, a DataFrame, a path, or anything
   * else. A path is looked up on disk first (`onDisk` is the table if the path is a
   * file) and then in the installed package (`packaged` is the bundled default table,
   * if the package resource can be read).
   */
  datatype TableArg<T> =
    | NoTableArg
    | TableFrameArg(table: T)
    | TablePathArg(path: string, onDisk: Option<T>, packaged: Option<T>)
    | OtherTableArg

  /** The `start_year` argument: an integer, or a value of any other type. */
  datatype YearArg = IntYear(year: int) | OtherYear

  /** The ways construction fails; all are raised while the Records object is built. */
  datatype LoadError =
    | DataNotTable                  // data is neither a string nor a DataFrame
    | MissingMustReadVars           // RECID or MARS not among the read columns
    | SplitMismatch(total: InputVar) // total != primary + secondary beyond tolerance
    | DividendMismatch              // e00600 >= e00650 fails beyond tolerance
    | BlowupFactorsNotTable         // blowup_factors is not None, a string or a DataFrame
    | BlowupFactorsNotFound         // neither the file nor the package resource exists
    | FactorColumnsMissing          // a factor column used by normalisation is absent
    | BootstrapColumnsMissing       // a factor column the 2009 bootstrap writes is absent
    | WeightsNotTable               // weights is not None, a string or a DataFrame
    | WeightsNotFound               // neither the file nor the package resource exists
    | WeightRowOutOfRange           // a data row index is not a row position of the weights
    | StartYearNotInteger           // start_year is not an integer

  /** A path that is a file is read; otherwise the packaged resource, if there is one. */
  function Locate<T>(onDisk: Option<T>, packaged: Option<T>): (r: Option<T>)
    ensures onDisk.Some? ==> r == onDisk
    ensures onDisk.None? ==> r == packaged
  {
    if onDisk.Some? then onDisk else packaged
  }
}
