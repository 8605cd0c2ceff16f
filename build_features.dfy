/**
 * Training-side feature derivation (src/features/build_features.py): on a
 * copy of the caller's frame, the temperature delta is added when both
 * temperature columns exist. The names are the literal strings of that
 * file, with a capital "T" in "Temperature", unlike app/inference.py.
 */
module BuildFeatures {
  import opened Cells
  import opened Frames

  const ProcessCol := "Process Temperature [K]"
  const AirCol := "Air Temperature [K]"
  const DeltaCol := "Temp Delta [K]"

  predicate HasTemperatures(t: Table) {
    ProcessCol in t.columns && AirCol in t.columns
  }

  /**
   * When both temperature columns are present, pandas can subtract them:
   * neither is text and they are not both boolean. A frame missing either
   * column is never subtracted, whatever the other one holds.
   */
  predicate TemperaturesSubtractable(t: Table) {
    ProcessCol in t.data && AirCol in t.data ==>
      SubtractableDtypes(t.data[ProcessCol].dtype, t.data[AirCol].dtype)
  }

  /**
   * What `build_features` returns for the table `t`: without both
   * temperature columns the input itself; otherwise every other column
   * keeps all its values, no row is added or lost, and the delta, when
   * new, is appended after the existing columns.
   */
  function WithTempDelta(t: Table): (r: Table)
    requires WellFormed(t) && TemperaturesSubtractable(t)
    ensures WellFormed(r) && r.height == t.height
    ensures !HasTemperatures(t) ==> r == t
    ensures HasTemperatures(t) ==> DeltaCol in r.data
    ensures r.columns == if HasTemperatures(t) && DeltaCol !in t.columns then t.columns + [DeltaCol] else t.columns
    ensures forall c :: c in t.data && c != DeltaCol ==> c in r.data && r.data[c] == t.data[c]
  {
    if HasTemperatures(t) then Assigned(t, DeltaCol, ColumnMinus(t.data[ProcessCol], t.data[AirCol]))
    else t
  }

  /**
   * `build_features`: the caller's frame is left as it is (nothing of it
   * is modified); the result is a new frame holding `WithTempDelta` of its value.
   */
  method BuildFeatures(df: DataFrame) returns (out: DataFrame)
    requires df.Valid() && TemperaturesSubtractable(df.Value())
    ensures fresh(out) && out.Valid() && out.Value() == WithTempDelta(df.Value())
  {
    out := new DataFrame.Copy(df);
    if ProcessCol in out.columns && AirCol in out.columns {
      out.Assign(DeltaCol, ColumnMinus(out.data[ProcessCol], out.data[AirCol]));
    }
  }

  /**
   * With both temperatures present, every row's delta is process minus air
   * (booleans counting as 1 and 0): an integer when neither column is a
   * float column, NaN when either side is NaN.
   */
  lemma DeltaPerRow(t: Table)
    requires WellFormed(t) && TemperaturesSubtractable(t) && HasTemperatures(t)
    ensures forall k :: 0 <= k < t.height ==>
              var p, a, d := At(t, ProcessCol, k), At(t, AirCol, k), At(WithTempDelta(t), DeltaCol, k);
              && (d.Missing? <==> p.Missing? || a.Missing?)
              && (!d.Missing? ==> AsReal(d) == AsReal(p) - AsReal(a))
              && (d.Int? <==> IntLike(p) && IntLike(a))
  {
    var r := WithTempDelta(t);
    var p, a := t.data[ProcessCol], t.data[AirCol];
    var delta := ColumnMinus(p, a);
    assert r.data[DeltaCol] == delta;
    forall k | 0 <= k < t.height
      ensures var d := r.data[DeltaCol].values[k];
              && (d.Missing? <==> p.values[k].Missing? || a.values[k].Missing?)
              && (!d.Missing? ==> AsReal(d) == AsReal(p.values[k]) - AsReal(a.values[k]))
              && (d.Int? <==> IntLike(p.values[k]) && IntLike(a.values[k]))
    {
      assert Fits(p.dtype, p.values[k]) && Fits(a.dtype, a.values[k]);
    }
  }
}
