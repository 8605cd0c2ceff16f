/**
 * Cleaning of the raw training table (src/data/clean_data.py): on a copy
 * of the caller's frame, identifier columns are dropped when present,
 * boolean columns become 0/1 integers, and torque is floored at zero.
 */
module CleanData {
  import opened Cells
  import opened Sequences
  import opened Frames

  /** Identifier columns with no predictive meaning. */
  const DropCols: seq<string> := ["UID", "Product ID"]

  const TorqueCol := "Torque [Nm]"

  /** `astype(int)` of one boolean cell. */
  function BoolAsInt(c: Cell): (r: Cell)
    requires c.Bool?
    ensures r.Int? && (r.i == 1 <==> c.b) && (r.i == 0 <==> !c.b)
  {
    Int(if c.b then 1 else 0)
  }

  /** `df[col].astype(int)` of a boolean column. */
  function AsIntColumn(col: Column): (r: Column)
    requires col.dtype == BoolDtype && Typed(col)
    ensures r.dtype == IntDtype && Typed(r) && |r.values| == |col.values|
    ensures forall k :: 0 <= k < |col.values| ==> r.values[k] == BoolAsInt(col.values[k])
  {
    Column(IntDtype, seq(|col.values|, k requires 0 <= k < |col.values| => BoolAsInt(col.values[k])))
  }

  /** `clip(lower=0)` of one numeric cell: negatives become zero of the same kind, NaN stays NaN. */
  function ClipCell(c: Cell): (r: Cell)
    requires c.Num? || c.Int? || c.Missing?
    ensures r.Num? || r.Int? || r.Missing?
    ensures r.Missing? <==> c.Missing?
    ensures r.Int? <==> c.Int?
    ensures !r.Missing? ==> AsReal(r) >= 0.0
    ensures !c.Missing? && AsReal(c) >= 0.0 ==> r == c
    ensures !c.Missing? && AsReal(c) < 0.0 ==> AsReal(r) == 0.0
  {
    match c
    case Num(x) => if x < 0.0 then Num(0.0) else c
    case Int(i) => if i < 0 then Int(0) else c
    case Missing => Missing
  }

  /**
   * `col.clip(lower=0)` of a numeric column, or of an object column holding
   * only NaN (the comparison with 0 is False for NaN, so it is kept); the
   * dtype is kept.
   */
  function ClipColumn(col: Column): (r: Column)
    requires Typed(col) && (IsNumeric(col.dtype) || AllMissing(col))
    ensures r.dtype == col.dtype && Typed(r) && |r.values| == |col.values|
    ensures forall k :: 0 <= k < |col.values| ==> r.values[k] == ClipCell(col.values[k])
  {
    Column(col.dtype, seq(|col.values|, k requires 0 <= k < |col.values| => ClipCell(col.values[k])))
  }

  /** Clipping at zero leaves a column of 0/1 integers as it is. */
  lemma ClipZeroOneColumn(col: Column)
    requires col.dtype == IntDtype && Typed(col)
    requires forall k :: 0 <= k < |col.values| ==> col.values[k].i >= 0
    ensures ClipColumn(col) == col
  {
    assert ClipColumn(col).values == col.values;
  }

  /** Every boolean column replaced by its 0/1 integer column. */
  function BoolsAsInt(t: Table): (r: Table)
    requires WellFormed(t)
    ensures WellFormed(r) && r.columns == t.columns && r.height == t.height && r.data.Keys == t.data.Keys
    ensures forall c :: c in t.data ==>
              r.data[c] == if t.data[c].dtype == BoolDtype then AsIntColumn(t.data[c]) else t.data[c]
  {
    Table(t.columns,
          map c | c in t.data :: if t.data[c].dtype == BoolDtype then AsIntColumn(t.data[c]) else t.data[c],
          t.height)
  }

  /**
   * The torque column, where there is one, can be clipped: it holds numbers
   * (or booleans, which become integers first), or it is an object column
   * with no text in it. Clipping text raises in pandas.
   */
  predicate TorqueClippable(t: Table) {
    TorqueCol in t.data ==> t.data[TorqueCol].dtype != ObjectDtype || AllMissing(t.data[TorqueCol])
  }

  function ClipTorque(t: Table): (r: Table)
    requires WellFormed(t)
    requires TorqueCol in t.data ==> IsNumeric(t.data[TorqueCol].dtype) || AllMissing(t.data[TorqueCol])
    ensures WellFormed(r) && r.columns == t.columns && r.height == t.height && r.data.Keys == t.data.Keys
    ensures forall c :: c in t.data && c != TorqueCol ==> r.data[c] == t.data[c]
    ensures TorqueCol in t.data ==> r.data[TorqueCol] == ClipColumn(t.data[TorqueCol])
  {
    if TorqueCol in t.columns then Assigned(t, TorqueCol, ClipColumn(t.data[TorqueCol])) else t
  }

  /** What `clean_data` returns for the table `t`. */
  function Cleaned(t: Table): (r: Table)
    requires WellFormed(t) && TorqueClippable(t)
    ensures WellFormed(r) && r.height == t.height
    ensures forall c :: c in r.data <==> c in t.data && c !in DropCols
  {
    var t1 := BoolsAsInt(Dropped(t, Within(DropCols, t.columns)));
    ClipTorque(t1)
  }

  /**
   * `clean_data`: the caller's frame is left as it is (nothing of it is
   * modified); the result is a new frame holding `Cleaned` of its value.
   */
  method CleanData(df: DataFrame) returns (out: DataFrame)
    requires df.Valid() && TorqueClippable(df.Value())
    ensures fresh(out) && out.Valid() && out.Value() == Cleaned(df.Value())
  {
    out := new DataFrame.Copy(df);
    out.Drop(Within(DropCols, out.columns));
    IntifyBools(out);
    if TorqueCol in out.columns {
      out.Assign(TorqueCol, ClipColumn(out.data[TorqueCol]));
    }
  }

  /** Lines 12-13: each column selected as boolean is reassigned as integers. */
  method IntifyBools(df: DataFrame)
    requires df.Valid()
    modifies df
    ensures df.Valid() && df.Value() == BoolsAsInt(old(df.Value()))
  {
    var bools := ColumnsOfDtype(df.Value(), BoolDtype);
    for i := 0 to |bools|
      invariant df.Valid() && df.columns == old(df.columns) && df.height == old(df.height)
      invariant df.data.Keys == old(df.data.Keys)
      invariant forall c :: c in df.data ==>
                  df.data[c] == if c in bools[..i] then AsIntColumn(old(df.data[c])) else old(df.data[c])
    {
      var col := bools[i];
      PrefixStep(bools, i);
      IntifyColumn(df, col);
    }
    assert bools[..|bools|] == bools;
    BoolsAsIntData(old(df.Value()), df.data, bools);
  }

  lemma BoolsAsIntData(t: Table, data: map<string, Column>, bools: seq<string>)
    requires WellFormed(t) && data.Keys == t.data.Keys
    requires forall c :: c in bools <==> c in t.data && t.data[c].dtype == BoolDtype
    requires forall c :: c in data ==> data[c] == if c in bools then AsIntColumn(t.data[c]) else t.data[c]
    ensures data == BoolsAsInt(t).data
  {
    var target := BoolsAsInt(t);
    assert forall c :: c in data ==> data[c] == target.data[c];
  }

  /** `df[col] = df[col].astype(int)` for one boolean column. */
  method IntifyColumn(df: DataFrame, col: string)
    requires df.Valid() && col in df.data && df.data[col].dtype == BoolDtype
    modifies df
    ensures df.Valid() && df.columns == old(df.columns) && df.height == old(df.height)
    ensures df.data == old(df.data)[col := AsIntColumn(old(df.data[col]))]
  {
    df.Assign(col, AsIntColumn(df.data[col]));
    assert df.data.Keys == old(df.data).Keys;
  }

  /**
   * The identifiers are gone whether or not they were present, every other
   * column is kept in its original relative order, and no row is lost.
   */
  lemma CleanedColumns(t: Table)
    requires WellFormed(t) && TorqueClippable(t)
    ensures "UID" !in Cleaned(t).columns && "Product ID" !in Cleaned(t).columns
    ensures forall c :: c in Cleaned(t).columns <==> c in t.columns && c !in DropCols
    ensures InOrderOf(Cleaned(t).columns, t.columns)
    ensures Cleaned(t).height == t.height
  {
    var drop := Within(DropCols, t.columns);
    assert Cleaned(t).columns == Without(t.columns, drop);
    WithoutInOrder(t.columns, drop);
  }

  /** A boolean column comes out as integers: True as 1, False as 0. */
  lemma CleanedBools(t: Table, c: string)
    requires WellFormed(t) && TorqueClippable(t)
    requires c in t.data && c !in DropCols && t.data[c].dtype == BoolDtype
    ensures c in Cleaned(t).data && Cleaned(t).data[c].dtype == IntDtype
    ensures forall k :: 0 <= k < t.height ==>
              At(Cleaned(t), c, k) == Int(if At(t, c, k).b then 1 else 0)
  {
    var t1 := BoolsAsInt(Dropped(t, Within(DropCols, t.columns)));
    var r := Cleaned(t);
    assert r == ClipTorque(t1);
    assert t1.data[c] == AsIntColumn(t.data[c]);
    if c == TorqueCol {
      ClipZeroOneColumn(t1.data[c]);
    }
    assert r.data[c] == t1.data[c];
  }

  /**
   * Lines 16-17: every torque value is non-negative afterwards; a negative
   * value becomes exactly zero, a non-negative one is unchanged, NaN stays NaN.
   */
  lemma CleanedTorque(t: Table)
    requires WellFormed(t) && TorqueClippable(t) && TorqueCol in t.data
    requires t.data[TorqueCol].dtype != BoolDtype
    ensures TorqueCol in Cleaned(t).data
    ensures Cleaned(t).data[TorqueCol].dtype == t.data[TorqueCol].dtype
    ensures forall k :: 0 <= k < t.height ==>
              var before, after := At(t, TorqueCol, k), At(Cleaned(t), TorqueCol, k);
              && (after.Missing? <==> before.Missing?)
              && (!after.Missing? ==> AsReal(after) >= 0.0)
              && (!before.Missing? && AsReal(before) < 0.0 ==> AsReal(after) == 0.0 && after.Int? == before.Int?)
              && (!before.Missing? && AsReal(before) >= 0.0 ==> after == before)
  {
    var t1 := BoolsAsInt(Dropped(t, Within(DropCols, t.columns)));
    var r := Cleaned(t);
    assert r == ClipTorque(t1);
    assert t1.data[TorqueCol] == t.data[TorqueCol];
    assert r.data[TorqueCol] == ClipColumn(t.data[TorqueCol]);
    forall k | 0 <= k < t.height ensures At(r, TorqueCol, k) == ClipCell(At(t, TorqueCol, k)) {
    }
  }

  /** A torque column of object dtype holding only NaN comes out exactly as it went in. */
  lemma CleanedMissingTorque(t: Table)
    requires WellFormed(t) && TorqueCol in t.data
    requires t.data[TorqueCol].dtype == ObjectDtype && AllMissing(t.data[TorqueCol])
    ensures TorqueClippable(t)
    ensures TorqueCol in Cleaned(t).data && Cleaned(t).data[TorqueCol] == t.data[TorqueCol]
  {
    var t1 := BoolsAsInt(Dropped(t, Within(DropCols, t.columns)));
    assert t1.data[TorqueCol] == t.data[TorqueCol];
    assert ClipColumn(t.data[TorqueCol]).values == t.data[TorqueCol].values;
  }

  /** Columns that are neither boolean nor torque keep their dtype and every value. */
  lemma CleanedOthers(t: Table, c: string)
    requires WellFormed(t) && TorqueClippable(t)
    requires c in t.data && c !in DropCols && c != TorqueCol && t.data[c].dtype != BoolDtype
    ensures c in Cleaned(t).data && Cleaned(t).data[c] == t.data[c]
  {
    var t1 := BoolsAsInt(Dropped(t, Within(DropCols, t.columns)));
    assert t1.data[c] == t.data[c];
  }
}
