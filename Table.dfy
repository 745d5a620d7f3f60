/**
 * The quantification table as the experiment pipeline sees it: one row per
 * precursor observation in one run, the string columns the pipeline groups or
 * counts by, and the pandas operations it relies on (boolean-mask selection,
 * `drop_duplicates(keep='first')`, `nunique`, grouping by `Run`).
 */
module Table {

  /** One row of the table, with the columns read from the table file. */
  datatype Row = Row(
    run: string,
    pgQValue: real,
    pgMaxLFQ: real,
    precursorNormalised: real,
    precursorId: string,
    proteinGroup: string,
    stripped: string,
    modified: string,
    genes: string)

  /** The string-valued columns the pipeline groups or counts by. */
  datatype Column = Run | ProteinGroup | PrecursorId | StrippedSequence | ModifiedSequence

  /** The quantity columns whose coefficient of variation is taken. */
  datatype Quantity = PgMaxLFQ | PrecursorNormalised

  /** An experiment record: the run tags that select its rows, and two labels. */
  datatype ExperimentRecord = ExperimentRecord(fileTags: seq<string>, instrument: string, acquisitionMethod: string)

  /**
   * `create_combined_mask(df, tags)`, whose definition is not part of this
   * model: a per-row yes/no for the given tags.
   */
  type Mask = (seq<string>, Row) -> bool

  function Cell(row: Row, c: Column): string
  {
    match c
    case Run => row.run
    case ProteinGroup => row.proteinGroup
    case PrecursorId => row.precursorId
    case StrippedSequence => row.stripped
    case ModifiedSequence => row.modified
  }

  function Value(row: Row, q: Quantity): real
  {
    match q
    case PgMaxLFQ => row.pgMaxLFQ
    case PrecursorNormalised => row.precursorNormalised
  }

  /** `df[c]`: one column of the rows, in row order. */
  function Project(rows: seq<Row>, c: Column): seq<string>
  {
    seq(|rows|, i requires 0 <= i < |rows| => Cell(rows[i], c))
  }

  ghost function Elems<T>(s: seq<T>): set<T>
  {
    set x | x in s
  }

  ghost predicate NoDuplicates<T>(s: seq<T>)
  {
    forall i, j :: 0 <= i < j < |s| ==> s[i] != s[j]
  }

  /**
   * `df_full[mask]`: the rows the mask keeps, in their original order.
   */
  function Select(rows: seq<Row>, tags: seq<string>, mask: Mask): (r: seq<Row>)
    ensures forall row :: row in r <==> row in rows && mask(tags, row)
    ensures |r| <= |rows|
  {
    if rows == [] then []
    else (if mask(tags, rows[0]) then [rows[0]] else []) + Select(rows[1..], tags, mask)
  }

  /**
   * `drop_duplicates(keep='first')`: each value once, at the place of its
   * first occurrence.
   */
  function Distinct<T(==,!new)>(s: seq<T>): (d: seq<T>)
    ensures forall x :: x in d <==> x in s
    ensures NoDuplicates(d)
    ensures |d| <= |s|
  {
    if |s| == 0 then []
    else
      assert s == s[..|s| - 1] + [s[|s| - 1]];
      var rest := Distinct(s[..|s| - 1]);
      if s[|s| - 1] in rest then rest else rest + [s[|s| - 1]]
  }

  lemma {:induction false} NoDuplicatesCardinality<T>(s: seq<T>)
    requires NoDuplicates(s)
    ensures |Elems(s)| == |s|
  {
    if |s| > 0 {
      var init := s[..|s| - 1];
      assert s == init + [s[|s| - 1]];
      assert NoDuplicates(init);
      NoDuplicatesCardinality(init);
      assert s[|s| - 1] !in Elems(init);
      assert Elems(s) == Elems(init) + {s[|s| - 1]};
    }
  }

  /** `nunique`: the number of distinct values. */
  function NUnique<T(==,!new)>(s: seq<T>): (n: nat)
    ensures n == |Elems(s)|
    ensures n <= |s|
    ensures n == 0 <==> |s| == 0
  {
    var d := Distinct(s);
    NoDuplicatesCardinality(d);
    assert Elems(d) == Elems(s);
    assert |s| > 0 ==> s[0] in Elems(s);
    |d|
  }

  /** Counting distinct values is monotone in the set of values present. */
  lemma {:induction false} NUniqueMonotone<T(!new)>(a: seq<T>, b: seq<T>)
    requires Elems(a) <= Elems(b)
    ensures NUnique(a) <= NUnique(b)
  {
    SubsetCardinality(Elems(a), Elems(b));
  }

  lemma {:induction false} SubsetCardinality<T>(a: set<T>, b: set<T>)
    requires a <= b
    ensures |a| <= |b|
  {
    if a != {} {
      var x :| x in a;
      SubsetCardinality(a - {x}, b - {x});
    }
  }

  /** The rows of one run (one group of `groupby('Run')`), in row order. */
  function RowsOfRun(rows: seq<Row>, run: string): (g: seq<Row>)
    ensures forall row :: row in g <==> row in rows && row.run == run
    ensures |g| <= |rows|
  {
    if rows == [] then []
    else (if rows[0].run == run then [rows[0]] else []) + RowsOfRun(rows[1..], run)
  }

  /** The group keys of `groupby('Run')`, each once. */
  function Runs(rows: seq<Row>): seq<string>
  {
    Distinct(Project(rows, Run))
  }

  /** Every group of `groupby('Run')` holds at least one row. */
  lemma {:induction false} RunGroupNonEmpty(rows: seq<Row>, run: string)
    requires run in Runs(rows)
    ensures |RowsOfRun(rows, run)| > 0
  {
    var i :| 0 <= i < |rows| && Project(rows, Run)[i] == run;
    assert rows[i] in RowsOfRun(rows, run);
  }

  /** Every run key names a group, and only run keys do. */
  lemma {:induction false} RunsAreTheRunColumn(rows: seq<Row>, run: string)
    ensures run in Runs(rows) <==> exists row :: row in rows && row.run == run
  {
    if run in Runs(rows) {
      var i :| 0 <= i < |rows| && Project(rows, Run)[i] == run;
      assert rows[i] in rows;
    }
    if exists row :: row in rows && row.run == run {
      var row :| row in rows && row.run == run;
      var i :| 0 <= i < |rows| && rows[i] == row;
      assert Project(rows, Run)[i] == run;
    }
  }

  /** The values of a column within one run are among the column's values overall. */
  lemma {:induction false} GroupColumnSubset(rows: seq<Row>, run: string, c: Column)
    ensures Elems(Project(RowsOfRun(rows, run), c)) <= Elems(Project(rows, c))
  {
    var g := RowsOfRun(rows, run);
    forall x | x in Elems(Project(g, c)) ensures x in Elems(Project(rows, c)) {
      var i :| 0 <= i < |g| && Project(g, c)[i] == x;
      assert g[i] in rows;
      var j :| 0 <= j < |rows| && rows[j] == g[i];
      assert Project(rows, c)[j] == x;
    }
  }

  /** Appending a row appends its cell to the column. */
  lemma {:induction false} ProjectAppend(rows: seq<Row>, row: Row, c: Column)
    ensures Project(rows + [row], c) == Project(rows, c) + [Cell(row, c)]
  {
  }
}
