/**
 * The table that cars.py reshapes and filters, and the stages it goes through.
 * A frame is an ordered list of column labels and a list of rows; a row maps
 * each label to its cell, and a missing cell (pandas' NaN) is None. Every
 * stage works row by row, so it is described by a `RowOp`: a row comes out
 * changed, unchanged, or not at all.
 */
module Frames {
  import opened Options
  import Text
  import Extractors

  type Cell = Option<string>

  type Row = map<string, Cell>

  datatype Frame = Frame(columns: seq<string>, rows: seq<Row>)

  /**
   * The exceptions the script can stop with: pandas' KeyError, naming the labels
   * asked for that the frame does not have, and Python's ZeroDivisionError.
   */
  datatype ScriptError = MissingColumns(names: seq<string>) | ZeroDivision

  const VehicleColumn := "Vehicle"
  const EngineTypeColumn := "Engine Type"

  /** `row[c]`, where a label the row lacks reads as NaN. */
  function Lookup(row: Row, c: string): Cell
  {
    if c in row then row[c] else None
  }

  function ColumnSet(columns: seq<string>): set<string>
  {
    set c | c in columns
  }

  /** `a` is `b` with some elements left out, the rest in their order. */
  predicate IsSubseq<T(==)>(a: seq<T>, b: seq<T>)
    decreases |b|
  {
    if a == [] then true
    else if b == [] then false
    else if a[0] == b[0] then IsSubseq(a[1..], b[1..])
    else IsSubseq(a, b[1..])
  }

  lemma {:induction false} SubseqFacts<T>(a: seq<T>, b: seq<T>)
    requires IsSubseq(a, b)
    ensures |a| <= |b|
    ensures forall x :: x in a ==> x in b
    decreases |b|
  {
    if a != [] {
      if a[0] == b[0] {
        SubseqFacts(a[1..], b[1..]);
        assert forall x :: x in a ==> x == a[0] || x in a[1..];
      } else {
        SubseqFacts(a, b[1..]);
      }
    }
  }

  // ---------------------------------------------------------------- the wide input

  /** One line of the input file: an attribute's name, then its cell for every vehicle. */
  datatype Attribute = Attribute(name: string, cells: seq<Cell>)

  /** The input file: the vehicles named in its header, and one line per attribute. */
  datatype Wide = Wide(vehicles: seq<string>, attributes: seq<Attribute>)

  /**
   * Every attribute has one cell per vehicle, and the labels are distinct and
   * do not clash with the "Vehicle" column or the "index" column that
   * `reset_index` inserts.
   */
  predicate WellFormed(w: Wide)
  {
    (forall i :: 0 <= i < |w.attributes| ==>
       |w.attributes[i].cells| == |w.vehicles| && w.attributes[i].name != VehicleColumn && w.attributes[i].name != "index") &&
    (forall i, k :: 0 <= i < k < |w.attributes| ==> w.attributes[i].name != w.attributes[k].name)
  }

  function Names(attributes: seq<Attribute>): seq<string>
  {
    seq(|attributes|, i requires 0 <= i < |attributes| => attributes[i].name)
  }

  /** Vehicle `j` as a row of the transposed table. */
  function VehicleRow(w: Wide, j: nat): Row
    requires WellFormed(w) && j < |w.vehicles|
  {
    (map i | 0 <= i < |w.attributes| :: w.attributes[i].name := w.attributes[i].cells[j])[VehicleColumn := Some(w.vehicles[j])]
  }

  /** Every transposed row holds exactly the frame's columns. */
  lemma VehicleRowKeys(w: Wide, j: nat)
    requires WellFormed(w) && j < |w.vehicles|
    ensures VehicleRow(w, j).Keys == ColumnSet([VehicleColumn] + Names(w.attributes))
  {
    var columns := [VehicleColumn] + Names(w.attributes);
    forall c | c in columns ensures c in VehicleRow(w, j) {
      if c != VehicleColumn {
        var i :| 0 <= i < |w.attributes| && Names(w.attributes)[i] == c;
      }
    }
    forall c | c in VehicleRow(w, j) ensures c in columns {
      if c != VehicleColumn {
        var i :| 0 <= i < |w.attributes| && w.attributes[i].name == c;
        assert Names(w.attributes)[i] == c;
      }
    }
  }

  /**
   * `df.T`, the first row promoted to the header, and the former header kept
   * as the "Vehicle" column: every input cell lands at its transposed place.
   */
  function Reshape(w: Wide): (df: Frame)
    requires WellFormed(w)
    ensures df.columns == [VehicleColumn] + Names(w.attributes)
    ensures |df.rows| == |w.vehicles|
    ensures forall j :: 0 <= j < |w.vehicles| ==> Lookup(df.rows[j], VehicleColumn) == Some(w.vehicles[j])
    ensures forall j, i :: 0 <= j < |w.vehicles| && 0 <= i < |w.attributes| ==>
      Lookup(df.rows[j], w.attributes[i].name) == w.attributes[i].cells[j]
    ensures forall j :: 0 <= j < |df.rows| ==> df.rows[j].Keys == ColumnSet(df.columns)
  {
    var df := Frame([VehicleColumn] + Names(w.attributes), seq(|w.vehicles|, j requires 0 <= j < |w.vehicles| => VehicleRow(w, j)));
    assert forall j :: 0 <= j < |w.vehicles| ==> df.rows[j].Keys == ColumnSet(df.columns) by {
      forall j | 0 <= j < |w.vehicles| ensures df.rows[j].Keys == ColumnSet(df.columns) {
        VehicleRowKeys(w, j);
      }
    }
    df
  }

  /** The frame transposed back: the "Vehicle" column becomes the header again. */
  function Unshape(df: Frame): Wide
    requires |df.columns| >= 1
  {
    Wide(
      seq(|df.rows|, j requires 0 <= j < |df.rows| => var c := Lookup(df.rows[j], df.columns[0]); if c.Some? then c.value else ""),
      seq(|df.columns| - 1, i requires 0 <= i < |df.columns| - 1 =>
        Attribute(df.columns[i + 1], seq(|df.rows|, j requires 0 <= j < |df.rows| => Lookup(df.rows[j], df.columns[i + 1])))))
  }

  /** The reshape loses nothing: transposing back gives the input. */
  lemma ReshapeRoundTrip(w: Wide)
    requires WellFormed(w)
    ensures Unshape(Reshape(w)) == w
  {
    var df := Reshape(w);
    var u := Unshape(df);
    assert u.vehicles == w.vehicles;
    forall i | 0 <= i < |w.attributes| ensures u.attributes[i] == w.attributes[i] {
      assert u.attributes[i].cells == w.attributes[i].cells;
    }
  }

  // ---------------------------------------------------------------- row operations

  /** What one stage does to one row. */
  datatype RowOp =
    | Project(cols: seq<string>)                           // df[cols], df.loc[:, cols]
    | NotElectric                                          // df[~df['Engine Type'].str.contains("electric", case=False, na=False)]
    | Put(dst: string, src: string, field: Extractors.Field) // df[dst] = df[src].apply(extract_...)
    | Complete(subset: seq<string>)                        // df.dropna(subset=...)

  /**
   * The function `Series.apply` is given, chosen by the stage's field. The
   * row operations take it as a parameter, so that what the stages do to a
   * row can be stated for any extractor; the script passes `Extractors.Extract`.
   */
  type Extractor = (Extractors.Field, Cell) -> Cell

  /** `str.contains("electric", case=False, na=False)`: NaN counts as no match. */
  predicate IsElectric(c: Cell)
  {
    c.Some? && Text.ContainsIgnoreCase(c.value, "electric")
  }

  predicate HasAll(row: Row, subset: seq<string>)
  {
    forall n :: n in subset ==> Lookup(row, n).Some?
  }

  function Restrict(row: Row, cols: seq<string>): Row
  {
    map c | c in row && c in cols :: row[c]
  }

  lemma RestrictLookup(row: Row, cols: seq<string>, c: string)
    requires c in cols
    ensures Lookup(Restrict(row, cols), c) == Lookup(row, c)
  {
  }

  function Step(op: RowOp, row: Row, ex: Extractor): Option<Row>
  {
    match op
    case Project(cols) => Some(Restrict(row, cols))
    case NotElectric => if IsElectric(Lookup(row, EngineTypeColumn)) then None else Some(row)
    case Put(dst, src, f) => Some(row[dst := ex(f, Lookup(row, src))])
    case Complete(subset) => if HasAll(row, subset) then Some(row) else None
  }

  /** A stage on the whole frame: every row in turn, order kept. */
  function ApplyRows(op: RowOp, rows: seq<Row>, ex: Extractor): (r: seq<Row>)
    ensures |r| <= |rows|
    decreases |rows|
  {
    if rows == [] then []
    else (match Step(op, rows[0], ex) case Some(x) => [x] case None => []) + ApplyRows(op, rows[1..], ex)
  }

  /** Stages that rewrite every row keep the row count and work on each row in place. */
  lemma {:induction false} ApplyRowwise(op: RowOp, rows: seq<Row>, ex: Extractor)
    requires op.Project? || op.Put?
    ensures |ApplyRows(op, rows, ex)| == |rows|
    ensures forall j :: 0 <= j < |rows| ==> Step(op, rows[j], ex) == Some(ApplyRows(op, rows, ex)[j])
    decreases |rows|
  {
    if rows != [] {
      ApplyRowwise(op, rows[1..], ex);
    }
  }

  /** Filtering stages keep exactly the rows that pass, in their order. */
  lemma {:induction false} ApplyFilters(op: RowOp, rows: seq<Row>, ex: Extractor)
    requires op.NotElectric? || op.Complete?
    ensures IsSubseq(ApplyRows(op, rows, ex), rows)
    ensures forall x :: x in ApplyRows(op, rows, ex) <==> x in rows && Step(op, x, ex).Some?
    decreases |rows|
  {
    if rows != [] {
      ApplyFilters(op, rows[1..], ex);
      var r := ApplyRows(op, rows, ex);
      var rest := ApplyRows(op, rows[1..], ex);
      if Step(op, rows[0], ex).Some? {
        assert r[0] == rows[0] && r[1..] == rest;
      } else {
        assert r == rest;
        if r != [] {
          assert r[0] in rest;
          assert r[0] != rows[0];
        }
      }
      assert forall x :: x in rows <==> x == rows[0] || x in rows[1..];
    }
  }

  /** A filtering stage keeps every copy of a row that passes and none of one that fails. */
  lemma {:induction false} FilterCounts(op: RowOp, rows: seq<Row>, ex: Extractor)
    requires op.NotElectric? || op.Complete?
    ensures forall x {:trigger multiset(ApplyRows(op, rows, ex))[x]} :: multiset(ApplyRows(op, rows, ex))[x] == if Step(op, x, ex).Some? then multiset(rows)[x] else 0
    decreases |rows|
  {
    if rows != [] {
      FilterCounts(op, rows[1..], ex);
      var r := ApplyRows(op, rows, ex);
      var rest := ApplyRows(op, rows[1..], ex);
      assert multiset(rows) == multiset{rows[0]} + multiset(rows[1..]) by {
        assert rows == [rows[0]] + rows[1..];
      }
      if Step(op, rows[0], ex).Some? {
        assert multiset(r) == multiset{rows[0]} + multiset(rest) by {
          assert r == [rows[0]] + rest;
        }
      } else {
        assert multiset(r) == multiset(rest) by {
          assert r == rest;
        }
      }
    }
  }

  // ---------------------------------------------------------------- the stages on frames

  /** `df.isna().sum()` for one column. */
  function NaCount(rows: seq<Row>, c: string): (n: nat)
    ensures n <= |rows|
    decreases |rows|
  {
    if rows == [] then 0 else (if Lookup(rows[0], c).None? then 1 else 0) + NaCount(rows[1..], c)
  }

  /** `val / len(df) < .2`, stated over integers. */
  predicate DenseEnough(df: Frame, c: string)
  {
    5 * NaCount(df.rows, c) < |df.rows|
  }

  /** The sign rule for products, kept apart so that no division is in scope when the solver proves it. */
  lemma PositiveProduct(a: real, b: real)
    requires a > 0.0 && b > 0.0
    ensures a * b > 0.0
  {
  }

  /** `n / d < .2` in exact arithmetic is `5 * n < d`. */
  lemma FractionBelowFifth(n: nat, d: nat)
    requires d > 0
    ensures 5 * n < d <==> (n as real) / (d as real) < 0.2
  {
    var q := (n as real) / (d as real);
    assert q * (d as real) == n as real;
    assert (0.2 - q) * (d as real) == 0.2 * (d as real) - n as real;
    if q < 0.2 {
      PositiveProduct(0.2 - q, d as real);
    } else if q > 0.2 {
      PositiveProduct(q - 0.2, d as real);
      assert (q - 0.2) * (d as real) == n as real - 0.2 * (d as real);
    }
  }

  /**
   * On a non-empty frame the integer test is the fraction test of cars.py. On an
   * empty one the test is never made: `val / len(df)` divides the Python int `val`
   * by zero, and `DropSparseColumns` reports that error instead.
   */
  lemma DenseEnoughIsFraction(df: Frame, c: string)
    requires |df.rows| > 0
    ensures DenseEnough(df, c) <==> (NaCount(df.rows, c) as real) / (|df.rows| as real) < 0.2
  {
    FractionBelowFifth(NaCount(df.rows, c), |df.rows|);
  }

  function DenseColumns(cols: seq<string>, df: Frame): (r: seq<string>)
    ensures forall c :: c in r <==> c in cols && DenseEnough(df, c)
    ensures IsSubseq(r, cols)
    decreases |cols|
  {
    if cols == [] then []
    else if DenseEnough(df, cols[0]) then [cols[0]] + DenseColumns(cols[1..], df)
    else
      var r := DenseColumns(cols[1..], df);
      assert r != [] ==> r[0] in cols[1..];
      r
  }

  /**
   * Drop the columns whose share of missing cells is 20% or more. A frame with
   * columns but no rows stops with ZeroDivisionError at the first column's
   * `val / len(df)`.
   */
  function DropSparseColumns(df: Frame): (r: Result<Frame, ScriptError>)
    ensures r.Err? <==> |df.rows| == 0 && df.columns != []
    ensures r.Err? ==> r.error == ZeroDivision
    ensures r.Ok? ==> forall c :: c in r.value.columns <==> c in df.columns && DenseEnough(df, c)
    ensures r.Ok? ==> IsSubseq(r.value.columns, df.columns)
    ensures r.Ok? ==> |r.value.rows| == |df.rows|
    ensures r.Ok? ==> forall j, c :: 0 <= j < |df.rows| && c in r.value.columns ==> Lookup(r.value.rows[j], c) == Lookup(df.rows[j], c)
    ensures r.Ok? ==> forall j, c :: 0 <= j < |df.rows| && c !in r.value.columns ==> c !in r.value.rows[j]
    ensures r.Ok? ==> r.value.rows == ApplyRows(Project(r.value.columns), df.rows, Extractors.Extract)
  {
    if |df.rows| == 0 && df.columns != [] then Err(ZeroDivision)
    else
      var keep := DenseColumns(df.columns, df);
      ApplyRowwise(Project(keep), df.rows, Extractors.Extract);
      Ok(Frame(keep, ApplyRows(Project(keep), df.rows, Extractors.Extract)))
  }

  /** Drop the rows whose "Engine Type" mentions "electric" in any case. */
  function DropElectric(df: Frame): (r: Result<Frame, ScriptError>)
    ensures r.Err? <==> EngineTypeColumn !in df.columns
    ensures r.Err? ==> r.error == MissingColumns([EngineTypeColumn])
    ensures r.Ok? ==> r.value.columns == df.columns && IsSubseq(r.value.rows, df.rows)
    ensures r.Ok? ==> forall row :: row in r.value.rows <==> row in df.rows && !IsElectric(Lookup(row, EngineTypeColumn))
    ensures r.Ok? ==> forall row :: multiset(r.value.rows)[row] == if IsElectric(Lookup(row, EngineTypeColumn)) then 0 else multiset(df.rows)[row]
    ensures r.Ok? ==> r.value.rows == ApplyRows(NotElectric, df.rows, Extractors.Extract)
  {
    if EngineTypeColumn !in df.columns then Err(MissingColumns([EngineTypeColumn]))
    else
      ApplyFilters(NotElectric, df.rows, Extractors.Extract);
      FilterCounts(NotElectric, df.rows, Extractors.Extract);
      Ok(Frame(df.columns, ApplyRows(NotElectric, df.rows, Extractors.Extract)))
  }

  function Absent(names: seq<string>, columns: seq<string>): (r: seq<string>)
    ensures forall n :: n in r <==> n in names && n !in columns
    decreases |names|
  {
    if names == [] then []
    else (if names[0] in columns then [] else [names[0]]) + Absent(names[1..], columns)
  }

  /** `df[names]`: exactly those columns, in that order; a KeyError naming the absent ones. */
  function Select(df: Frame, names: seq<string>): (r: Result<Frame, ScriptError>)
    ensures r.Err? <==> exists n :: n in names && n !in df.columns
    ensures r.Err? ==> r.error.MissingColumns? && forall n :: n in r.error.names <==> n in names && n !in df.columns
    ensures r.Ok? ==> r.value.columns == names && |r.value.rows| == |df.rows|
    ensures r.Ok? ==> forall j, n :: 0 <= j < |df.rows| && n in names ==> Lookup(r.value.rows[j], n) == Lookup(df.rows[j], n)
    ensures r.Ok? ==> forall j, c :: 0 <= j < |df.rows| && c !in names ==> c !in r.value.rows[j]
    ensures r.Ok? ==> r.value.rows == ApplyRows(Project(names), df.rows, Extractors.Extract)
  {
    var missing := Absent(names, df.columns);
    if missing != [] then
      assert missing[0] in missing;
      Err(MissingColumns(missing))
    else
      ApplyRowwise(Project(names), df.rows, Extractors.Extract);
      Ok(Frame(names, ApplyRows(Project(names), df.rows, Extractors.Extract)))
  }

  /** `df[dst] = df[src].apply(extract)`: a new (or replaced) column, every other cell unchanged. */
  function Assign(df: Frame, dst: string, src: string, f: Extractors.Field): (r: Frame)
    requires src in df.columns
    ensures r.columns == if dst in df.columns then df.columns else df.columns + [dst]
    ensures |r.rows| == |df.rows|
    ensures forall j :: 0 <= j < |r.rows| ==> Lookup(r.rows[j], dst) == Extractors.Extract(f, Lookup(df.rows[j], src))
    ensures forall j, c :: 0 <= j < |r.rows| && c != dst ==> Lookup(r.rows[j], c) == Lookup(df.rows[j], c)
  {
    ApplyRowwise(Put(dst, src, f), df.rows, Extractors.Extract);
    Frame(if dst in df.columns then df.columns else df.columns + [dst], ApplyRows(Put(dst, src, f), df.rows, Extractors.Extract))
  }

  /** `df.dropna(subset=...)`: keep exactly the rows with a value in every named column. */
  function DropNa(df: Frame, subset: seq<string>): (r: Frame)
    requires forall n :: n in subset ==> n in df.columns
    ensures r.columns == df.columns && IsSubseq(r.rows, df.rows)
    ensures forall row :: row in r.rows <==> row in df.rows && HasAll(row, subset)
    ensures forall row :: multiset(r.rows)[row] == if HasAll(row, subset) then multiset(df.rows)[row] else 0
    ensures |r.rows| <= |df.rows|
  {
    ApplyFilters(Complete(subset), df.rows, Extractors.Extract);
    SubseqFacts(ApplyRows(Complete(subset), df.rows, Extractors.Extract), df.rows);
    FilterCounts(Complete(subset), df.rows, Extractors.Extract);
    Frame(df.columns, ApplyRows(Complete(subset), df.rows, Extractors.Extract))
  }

  // ---------------------------------------------------------------- stages in sequence

  /** One row taken through several stages; None once a stage drops it. */
  function Through(ops: seq<RowOp>, row: Row, ex: Extractor): Option<Row>
    decreases |ops|
  {
    if ops == [] then Some(row)
    else match Through(ops[..|ops| - 1], row, ex)
      case None => None
      case Some(x) => Step(ops[|ops| - 1], x, ex)
  }

  /** The rows that survive all of `ops`, as they come out, in input order. */
  function Collect(ops: seq<RowOp>, rows: seq<Row>, ex: Extractor): seq<Row>
    decreases |rows|
  {
    if rows == [] then []
    else (match Through(ops, rows[0], ex) case Some(x) => [x] case None => []) + Collect(ops, rows[1..], ex)
  }

  lemma {:induction false} CollectNothing(rows: seq<Row>, ex: Extractor)
    ensures Collect([], rows, ex) == rows
    decreases |rows|
  {
    if rows != [] {
      CollectNothing(rows[1..], ex);
    }
  }

  lemma {:induction false} ApplyRowsAppend(op: RowOp, a: seq<Row>, b: seq<Row>, ex: Extractor)
    ensures ApplyRows(op, a + b, ex) == ApplyRows(op, a, ex) + ApplyRows(op, b, ex)
    decreases |a|
  {
    if a != [] {
      assert (a + b)[1..] == a[1..] + b;
      ApplyRowsAppend(op, a[1..], b, ex);
    } else {
      assert a + b == b;
    }
  }

  /**
   * Running the stages one after another over the whole frame, as the script
   * does, is the same as taking each row through all of them.
   */
  lemma {:induction false} CollectStep(ops: seq<RowOp>, op: RowOp, rows: seq<Row>, ex: Extractor)
    ensures ApplyRows(op, Collect(ops, rows, ex), ex) == Collect(ops + [op], rows, ex)
    decreases |rows|
  {
    if rows != [] {
      var head := match Through(ops, rows[0], ex) case Some(x) => [x] case None => [];
      assert (ops + [op])[..|ops|] == ops;
      ApplyRowsAppend(op, head, Collect(ops, rows[1..], ex), ex);
      CollectStep(ops, op, rows[1..], ex);
      if head != [] {
        assert head[1..] == [];
      }
    }
  }
}
