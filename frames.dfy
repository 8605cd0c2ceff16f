/**
 * A pandas DataFrame restricted to what the feature code does with one:
 * an ordered list of column names, one typed column per name, and a row
 * count. `Table` is the value of a frame; `DataFrame` is the mutable object
 * that the code copies and then changes in place.
 */
module Frames {
  import opened Cells
  import opened Sequences

  datatype Table = Table(columns: seq<string>, data: map<string, Column>, height: nat)

  /**
   * Column names are unique (the CSV loader renames repeats), every listed
   * name has exactly one column, and every column is `height` cells of its dtype.
   */
  ghost predicate WellFormed(t: Table) {
    && NoDup(t.columns)
    && (forall c :: c in t.data <==> c in t.columns)
    && (forall c :: c in t.data ==> |t.data[c].values| == t.height && Typed(t.data[c]))
  }

  /** The cell in row `k` of column `c`. */
  function At(t: Table, c: string, k: nat): Cell
    requires c in t.data && k < |t.data[c].values|
  {
    t.data[c].values[k]
  }

  /**
   * `df[name] = col`: an existing column is replaced where it stands, a new
   * one is appended after the others.
   */
  function Assigned(t: Table, name: string, col: Column): (r: Table)
    requires WellFormed(t) && Typed(col) && |col.values| == t.height
    ensures WellFormed(r) && r.height == t.height
    ensures r.columns == if name in t.columns then t.columns else t.columns + [name]
    ensures r.data[name] == col
    ensures forall c :: c in t.data && c != name ==> c in r.data && r.data[c] == t.data[c]
  {
    var columns := if name in t.columns then t.columns else t.columns + [name];
    assert NoDup(columns) by {
      if name !in t.columns {
        forall i, j | 0 <= i < j < |columns| ensures columns[i] != columns[j] {
          if j < |t.columns| {
            assert columns[i] == t.columns[i] && columns[j] == t.columns[j];
          } else {
            assert columns[i] == t.columns[i];
          }
        }
      }
    }
    Table(columns, t.data[name := col], t.height)
  }

  /** `df.drop(columns=names)`: the named columns are gone, the others keep their order. */
  function Dropped(t: Table, names: seq<string>): (r: Table)
    requires WellFormed(t)
    ensures WellFormed(r) && r.height == t.height
    ensures r.columns == Without(t.columns, names)
    ensures forall c :: c in r.data ==> c in t.data && c !in names && r.data[c] == t.data[c]
  {
    Table(Without(t.columns, names), map c | c in t.data && c !in names :: t.data[c], t.height)
  }

  /** The names of the columns of dtype `d`, in frame order (`df.select_dtypes(include=...)`). */
  function ColumnsOfDtype(t: Table, d: Dtype): (names: seq<string>)
    requires WellFormed(t)
    ensures forall c :: c in names <==> c in t.data && t.data[c].dtype == d
    ensures NoDup(names)
  {
    Without(t.columns, SeqOfOtherDtype(t, t.columns, d))
  }

  function SeqOfOtherDtype(t: Table, cs: seq<string>, d: Dtype): (r: seq<string>)
    requires forall c :: c in cs ==> c in t.data
    ensures forall c :: c in r <==> c in cs && t.data[c].dtype != d
  {
    if cs == [] then []
    else (if t.data[cs[0]].dtype != d then [cs[0]] else []) + SeqOfOtherDtype(t, cs[1..], d)
  }

  class DataFrame {
    var columns: seq<string>
    var data: map<string, Column>
    var height: nat

    function Value(): Table
      reads this
    {
      Table(columns, data, height)
    }

    ghost predicate Valid()
      reads this
    {
      WellFormed(Value())
    }

    /** `pd.DataFrame([{c: v for c in names}])`: one row, one column per distinct name, all set to `v`. */
    constructor FromRecord(names: seq<string>, v: Cell)
      ensures Valid() && height == 1 && columns == Dedup(names)
      ensures forall c :: c in names ==> data[c] == Broadcast(v, 1)
    {
      columns := Dedup(names);
      data := map c | c in names :: Broadcast(v, 1);
      height := 1;
    }

    /** `df.copy()`: a new frame with the same value. */
    constructor Copy(other: DataFrame)
      requires other.Valid()
      ensures Valid() && Value() == other.Value()
    {
      columns := other.columns;
      data := other.data;
      height := other.height;
    }

    method Assign(name: string, col: Column)
      requires Valid() && Typed(col) && |col.values| == height
      modifies this
      ensures Valid() && Value() == Assigned(old(Value()), name, col)
    {
      var r := Assigned(Value(), name, col);
      columns, data := r.columns, r.data;
    }

    /** `df[name] = v` for a scalar `v`. */
    method AssignScalar(name: string, v: Cell)
      requires Valid()
      modifies this
      ensures Valid() && Value() == Assigned(old(Value()), name, Broadcast(v, old(height)))
    {
      Assign(name, Broadcast(v, height));
    }

    /** `df.drop(columns=names, inplace=True)`; pandas raises KeyError for an absent name, so callers pass present ones. */
    method Drop(names: seq<string>)
      requires Valid() && forall n :: n in names ==> n in columns
      modifies this
      ensures Valid() && Value() == Dropped(old(Value()), names)
    {
      var r := Dropped(Value(), names);
      columns, data := r.columns, r.data;
    }
  }
}
