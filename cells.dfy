/**
 * Cell values and typed columns of a pandas DataFrame, as far as the
 * feature code uses them. Floats are modelled as exact reals and NaN as
 * the `Missing` marker.
 */
module Cells {

  datatype Cell = Missing | Num(r: real) | Int(i: int) | Bool(b: bool) | Text(s: string)

  /** The column dtypes the pipeline meets: bool, int64, float64 and object (strings). */
  datatype Dtype = BoolDtype | IntDtype | FloatDtype | ObjectDtype

  datatype Column = Column(dtype: Dtype, values: seq<Cell>)

  /** A cell can be stored in a column of dtype `d`; a float or object column holds NaN as missing. */
  predicate Fits(d: Dtype, c: Cell) {
    match d
    case BoolDtype => c.Bool?
    case IntDtype => c.Int?
    case FloatDtype => c.Num? || c.Missing?
    case ObjectDtype => c.Text? || c.Missing?
  }

  predicate Typed(col: Column) {
    forall k :: 0 <= k < |col.values| ==> Fits(col.dtype, col.values[k])
  }

  /** Every cell is NaN (vacuously so for an empty column). */
  predicate AllMissing(col: Column) {
    forall k :: 0 <= k < |col.values| ==> col.values[k].Missing?
  }

  predicate IsNumeric(d: Dtype) {
    d == IntDtype || d == FloatDtype
  }

  /** The dtype pandas gives a column filled from the scalar `v` (NaN makes a float column). */
  function DtypeOf(v: Cell): (d: Dtype)
    ensures Fits(d, v)
  {
    match v
    case Missing => FloatDtype
    case Num(_) => FloatDtype
    case Int(_) => IntDtype
    case Bool(_) => BoolDtype
    case Text(_) => ObjectDtype
  }

  /** `df[c] = v` with a scalar `v`: the value repeated down all rows. */
  function Broadcast(v: Cell, height: nat): (col: Column)
    ensures Typed(col) && |col.values| == height
    ensures forall k :: 0 <= k < height ==> col.values[k] == v
  {
    Column(DtypeOf(v), Repeat(v, height))
  }

  function Repeat(v: Cell, n: nat): (s: seq<Cell>)
    ensures |s| == n && forall k :: 0 <= k < n ==> s[k] == v
  {
    if n == 0 then [] else [v] + Repeat(v, n - 1)
  }

  /** A cell that numpy arithmetic reads as an integer: an int, or a bool as 1 or 0. */
  predicate IntLike(c: Cell) {
    c.Int? || c.Bool?
  }

  function AsInt(c: Cell): int
    requires IntLike(c)
  {
    if c.Int? then c.i else if c.b then 1 else 0
  }

  /** A cell read as a number; True and False count as 1 and 0. */
  function AsReal(c: Cell): (x: real)
    requires c.Num? || IntLike(c)
    ensures IntLike(c) ==> x == AsInt(c) as real
  {
    if c.Num? then c.r else AsInt(c) as real
  }

  /**
   * Element-wise `a - b` of two cells of subtractable columns: without a
   * float operand the result is an int, a float operand makes a float, and
   * NaN on either side gives NaN.
   */
  function Minus(x: Cell, y: Cell, intResult: bool): (z: Cell)
    requires x.Num? || IntLike(x) || x.Missing?
    requires y.Num? || IntLike(y) || y.Missing?
    requires intResult ==> IntLike(x) && IntLike(y)
    ensures z.Num? || z.Int? || z.Missing?
    ensures z.Int? <==> intResult
    ensures z.Missing? <==> !intResult && (x.Missing? || y.Missing?)
    ensures !z.Missing? ==> AsReal(z) == AsReal(x) - AsReal(y)
  {
    if intResult then Int(AsInt(x) - AsInt(y))
    else if x.Missing? || y.Missing? then Missing
    else Num(AsReal(x) - AsReal(y))
  }

  /**
   * numpy subtracts bool, int and float columns from one another, except a
   * bool column from a bool column, which raises; text columns raise too.
   */
  predicate SubtractableDtypes(a: Dtype, b: Dtype) {
    a != ObjectDtype && b != ObjectDtype && !(a == BoolDtype && b == BoolDtype)
  }

  /** `a - b` on two subtractable columns of equal length. */
  function ColumnMinus(a: Column, b: Column): (c: Column)
    requires Typed(a) && Typed(b) && SubtractableDtypes(a.dtype, b.dtype)
    requires |a.values| == |b.values|
    ensures Typed(c) && |c.values| == |a.values|
    ensures c.dtype == if a.dtype != FloatDtype && b.dtype != FloatDtype then IntDtype else FloatDtype
    ensures forall k :: 0 <= k < |c.values| ==>
              c.values[k] == Minus(a.values[k], b.values[k], c.dtype == IntDtype)
  {
    var intResult := a.dtype != FloatDtype && b.dtype != FloatDtype;
    Column(if intResult then IntDtype else FloatDtype,
           seq(|a.values|, k requires 0 <= k < |a.values| => Minus(a.values[k], b.values[k], intResult)))
  }
}
