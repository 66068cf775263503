/**
 Tables as the pipeline reads them: a list of column names and one row per
 user, each row a map from column name to cell. A raw cell is what reading
 the CSV file produces: a number, a piece of text, or a missing value (NaN).
 After feature engineering every cell is a number, which `Frame` records.
 */
module Frames {
  import opened Seqs

  datatype Option<T> = None | Some(value: T)
  {
    /** The wrapped value, or `default` when there is none. */
    function GetOr(default: T): T
    {
      match this
      case Some(v) => v
      case None => default
    }
  }

  /** The failures the pipeline can raise or report. */
  datatype Error =
    | NoData                        // an operation needing loaded data found none
    | MissingColumn(name: string)   // indexing a column the table does not have
    | TypeMismatch(column: string)  // comparing or summing a text cell as a number
    | NotAnInteger(column: string)  // an integer cast of NaN or of non-integer text
    | NonFinite(column: string)     // a division whose result would be infinite or NaN
    | LengthMismatch                // columns of different lengths joined into one table
    | EmptySequence                 // argmax of an empty sequence
    | IndexOutOfRange               // indexing a sequence past its end
    | ZeroDivision                  // a floating-point division by zero
    | MissingInput                  // the input file of a stage does not exist
    | NoModel                       // a predictor used before a model was trained

  datatype Result<T> = Ok(value: T) | Err(error: Error)

  datatype Cell = Num(x: real) | Text(s: string) | Missing

  type Row = map<string, Cell>

  datatype Table = Table(columns: seq<string>, rows: seq<Row>)

  /** A table whose cells are all numbers (the feature matrix). */
  datatype Frame = Frame(columns: seq<string>, rows: seq<map<string, real>>)

  function ColumnSet(columns: seq<string>): set<string>
  {
    set c | c in columns
  }

  /** Column names are unique and every row has exactly the table's columns. */
  predicate WellFormed(t: Table)
  {
    && Distinct(t.columns)
    && forall k :: 0 <= k < |t.rows| ==> t.rows[k].Keys == ColumnSet(t.columns)
  }

  predicate FrameWellFormed(x: Frame)
  {
    && Distinct(x.columns)
    && forall k :: 0 <= k < |x.rows| ==> x.rows[k].Keys == ColumnSet(x.columns)
  }

  /**
   The column list after `df[name] = ...`: an existing column keeps its
   place, a new one is appended at the end.
   */
  function WithColumn(columns: seq<string>, name: string): (r: seq<string>)
    ensures ColumnSet(r) == ColumnSet(columns) + {name}
    ensures Distinct(columns) ==> Distinct(r)
    ensures |columns| <= |r| && r[..|columns|] == columns
  {
    if name in columns then columns else columns + [name]
  }

  /** The names a filtered column list holds. */
  lemma FilterColumnSet(f: string -> bool, columns: seq<string>)
    ensures ColumnSet(Filter(f, columns)) == set c | c in columns && f(c)
  {
    var kept := Filter(f, columns);
    forall c | c in columns && f(c) ensures c in kept {
      var i :| 0 <= i < |columns| && columns[i] == c;
    }
  }
}
