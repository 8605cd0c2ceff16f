/**
 * Serving-time feature row (app/inference.py): a request becomes a
 * one-row frame laid out on the columns the trained preprocessor expects.
 * Column names are the literal strings of that file; note the lower-case
 * "temperature", which differs from the training-side feature code.
 */
module Inference {
  import opened Cells
  import opened Sequences
  import opened Frames

  const AirCol := "Air temperature [K]"
  const ProcessCol := "Process temperature [K]"
  const SpeedCol := "Rotational speed [rpm]"
  const TorqueCol := "Torque [Nm]"
  const WearCol := "Tool wear [min]"
  const TypeCol := "Type"
  const DeltaCol := "Temp Delta [K]"

  /** Historical failure-mode indicators; never known at prediction time. */
  const FailureModeCols: seq<string> := ["TWF", "HDF", "PWF", "OSF", "RNF"]

  /** The six raw inputs of a prediction request; `productType` is meant to be "L", "M" or "H". */
  datatype PredictionRequest = PredictionRequest(
    airTemperature: real,
    processTemperature: real,
    rotationalSpeed: real,
    torque: real,
    toolWear: real,
    productType: string)

  /** The keys of the request dict, in its insertion order. */
  const MappedCols: seq<string> := [AirCol, ProcessCol, SpeedCol, TorqueCol, WearCol, TypeCol]

  /** The `(column, value)` items of the request dict: each key with its `MappedValue`. */
  function Mapping(req: PredictionRequest): (m: seq<(string, Cell)>)
    ensures |m| == |MappedCols|
    ensures forall k :: 0 <= k < |m| ==> m[k] == (MappedCols[k], MappedValue(req, MappedCols[k]))
  {
    seq(|MappedCols|, k requires 0 <= k < |MappedCols| => (MappedCols[k], MappedValue(req, MappedCols[k])))
  }

  /** The literal names the builder writes are pairwise different. */
  lemma NamesDistinct()
    ensures NoDup(MappedCols) && NoDup(FailureModeCols)
    ensures forall c :: c in MappedCols ==> c !in FailureModeCols && c != DeltaCol
    ensures DeltaCol !in FailureModeCols
  {
  }

  /** Whether the derived delta column is written: both temperature columns are expected. */
  predicate HasTemperatures(expected: seq<string>) {
    ProcessCol in expected && AirCol in expected
  }

  /** The column layout of the built row: the distinct expected names, then the delta if it was not expected. */
  function RowColumns(expected: seq<string>): (r: seq<string>)
    ensures forall c :: c in expected ==> c in r
    ensures DeltaCol in r <==> DeltaCol in expected || HasTemperatures(expected)
  {
    Dedup(expected) + if HasTemperatures(expected) && DeltaCol !in expected then [DeltaCol] else []
  }

  /** The request field filed under column `c` by the mapping; `Missing` for any other name. */
  function MappedValue(req: PredictionRequest, c: string): Cell {
    if c == AirCol then Num(req.airTemperature)
    else if c == ProcessCol then Num(req.processTemperature)
    else if c == SpeedCol then Num(req.rotationalSpeed)
    else if c == TorqueCol then Num(req.torque)
    else if c == WearCol then Num(req.toolWear)
    else if c == TypeCol then Text(req.productType)
    else Missing
  }

  /**
   * The value column `c` of the built row must hold: a failure-mode flag is 0,
   * the delta (when both temperatures are expected) is process minus air,
   * a mapped column holds its request field, and anything else stays NaN.
   */
  function BuiltValue(req: PredictionRequest, expected: seq<string>, c: string): (r: Cell)
    ensures r.Int? <==> c in FailureModeCols
    ensures r.Missing? <==> c !in MappedCols && c !in FailureModeCols && !(c == DeltaCol && HasTemperatures(expected))
  {
    NamesDistinct();
    if c in FailureModeCols then Int(0)
    else if c == DeltaCol && HasTemperatures(expected) then Num(req.processTemperature - req.airTemperature)
    else MappedValue(req, c)
  }

  /**
   * `build_input_df`: starts from all-NaN on the expected columns, copies
   * the mapped request fields into the expected ones, derives the
   * temperature delta, and zeroes the failure-mode flags. No input fails.
   */
  method BuildInputDf(req: PredictionRequest, expected: seq<string>) returns (row: Table)
    ensures WellFormed(row) && row.height == 1
    ensures row.columns == RowColumns(expected)
    ensures forall c :: c in row.data ==> row.data[c] == Broadcast(BuiltValue(req, expected, c), 1)
  {
    NamesDistinct();
    var df := new DataFrame.FromRecord(expected, Missing);
    ghost var t0 := df.Value();
    CopyRequestFields(df, req);
    ghost var t1 := df.Value();
    assert AirCol == MappedCols[0] && ProcessCol == MappedCols[1];
    DeriveTempDelta(df, req);
    ghost var t2 := df.Value();
    ZeroFailureModes(df);
    row := df.Value();
    assert HasTemperatures(expected) <==> ProcessCol in t1.columns && AirCol in t1.columns;
    forall c | c in row.data ensures row.data[c] == Broadcast(BuiltValue(req, expected, c), 1) {
      if c in t0.data {
        ComposeCell(req, expected, c, t0.data[c], t1.data[c], t2.data[c], row.data[c]);
      } else {
        ComposeCell(req, expected, c, Broadcast(Missing, 1), Broadcast(Missing, 1), t2.data[c], row.data[c]);
      }
    }
  }

  /** One column through the three phases of the builder ends at its `BuiltValue`. */
  lemma ComposeCell(req: PredictionRequest, expected: seq<string>, c: string, v0: Column, v1: Column, v2: Column, v3: Column)
    requires v0 == Broadcast(Missing, 1)
    requires v1 == if c in MappedCols then Broadcast(MappedValue(req, c), 1) else v0
    requires v2 == if c == DeltaCol && HasTemperatures(expected)
                   then Broadcast(Num(req.processTemperature - req.airTemperature), 1) else v1
    requires v3 == if c in FailureModeCols then Broadcast(Int(0), 1) else v2
    ensures v3 == Broadcast(BuiltValue(req, expected, c), 1)
  {
    NamesDistinct();
  }

  /** Lines 18-20: each mapped name that is a column of the frame takes its request field. */
  method CopyRequestFields(df: DataFrame, req: PredictionRequest)
    requires df.Valid() && df.height == 1
    modifies df
    ensures df.Valid() && df.height == 1 && df.columns == old(df.columns) && df.data.Keys == old(df.data.Keys)
    ensures forall c :: c in df.data ==>
              df.data[c] == if c in MappedCols then Broadcast(MappedValue(req, c), 1) else old(df.data[c])
  {
    var mapping := Mapping(req);
    for i := 0 to |mapping|
      invariant df.Valid() && df.height == 1 && df.columns == old(df.columns)
      invariant forall c :: c in df.data ==>
                  df.data[c] == if c in MappedCols[..i] then Broadcast(MappedValue(req, c), 1) else old(df.data[c])
    {
      var (col, val) := mapping[i];
      assert MappedCols[..i + 1] == MappedCols[..i] + [col];
      if col in df.columns {
        df.AssignScalar(col, val);
      }
    }
    assert MappedCols[..|mapping|] == MappedCols;
  }

  /** Lines 23-30: with both temperature columns present, the delta column is set to process minus air. */
  method DeriveTempDelta(df: DataFrame, req: PredictionRequest)
    requires df.Valid() && df.height == 1
    requires ProcessCol in df.data ==> df.data[ProcessCol] == Broadcast(Num(req.processTemperature), 1)
    requires AirCol in df.data ==> df.data[AirCol] == Broadcast(Num(req.airTemperature), 1)
    modifies df
    ensures df.Valid() && df.height == 1
    ensures var both := ProcessCol in old(df.columns) && AirCol in old(df.columns);
            && df.columns == old(df.columns) + (if both && DeltaCol !in old(df.columns) then [DeltaCol] else [])
            && df.data.Keys == old(df.data.Keys) + (if both then {DeltaCol} else {})
            && forall c :: c in df.data ==>
                 df.data[c] == if c == DeltaCol && both
                               then Broadcast(Num(req.processTemperature - req.airTemperature), 1)
                               else old(df.data[c])
  {
    if ProcessCol in df.columns && AirCol in df.columns {
      var delta := ColumnMinus(df.data[ProcessCol], df.data[AirCol]);
      assert delta.values[0] == Num(req.processTemperature - req.airTemperature);
      assert delta == Broadcast(Num(req.processTemperature - req.airTemperature), 1);
      df.Assign(DeltaCol, delta);
    }
  }

  /** Lines 33-35: every failure-mode flag that is a column of the frame is set to 0. */
  method ZeroFailureModes(df: DataFrame)
    requires df.Valid() && df.height == 1
    modifies df
    ensures df.Valid() && df.height == 1 && df.columns == old(df.columns) && df.data.Keys == old(df.data.Keys)
    ensures forall c :: c in df.data ==>
              df.data[c] == if c in FailureModeCols then Broadcast(Int(0), 1) else old(df.data[c])
  {
    for i := 0 to |FailureModeCols|
      invariant df.Valid() && df.height == 1 && df.columns == old(df.columns)
      invariant forall c :: c in df.data ==>
                  df.data[c] == if c in FailureModeCols[..i] then Broadcast(Int(0), 1) else old(df.data[c])
    {
      var col := FailureModeCols[i];
      assert FailureModeCols[..i + 1] == FailureModeCols[..i] + [col];
      if col in df.columns {
        df.AssignScalar(col, Int(0));
      }
    }
    assert FailureModeCols[..|FailureModeCols|] == FailureModeCols;
  }

  /** What `BuiltValue` promises, field by field. */
  lemma BuiltValueFields(req: PredictionRequest, expected: seq<string>)
    ensures BuiltValue(req, expected, AirCol) == Num(req.airTemperature)
    ensures BuiltValue(req, expected, ProcessCol) == Num(req.processTemperature)
    ensures BuiltValue(req, expected, SpeedCol) == Num(req.rotationalSpeed)
    ensures BuiltValue(req, expected, TorqueCol) == Num(req.torque)
    ensures BuiltValue(req, expected, WearCol) == Num(req.toolWear)
    ensures BuiltValue(req, expected, TypeCol) == Text(req.productType)
    ensures HasTemperatures(expected) ==>
              BuiltValue(req, expected, DeltaCol) == Num(req.processTemperature - req.airTemperature)
    ensures forall c :: c in FailureModeCols ==> BuiltValue(req, expected, c) == Int(0)
    ensures forall c :: c !in MappedCols && c !in FailureModeCols && !(c == DeltaCol && HasTemperatures(expected)) ==>
              BuiltValue(req, expected, c) == Missing
  {
    NamesDistinct();
  }

  /** The delta column is the only name the builder can add beyond the expected ones. */
  lemma RowColumnsSpec(expected: seq<string>)
    ensures NoDup(RowColumns(expected))
    ensures forall c :: c in RowColumns(expected) <==>
                          c in expected || (c == DeltaCol && HasTemperatures(expected))
    ensures InOrderOf(RowColumns(expected)[..|Dedup(expected)|], expected)
  {
    var d := Dedup(expected);
    var r := RowColumns(expected);
    DedupInOrder(expected);
    assert r[..|d|] == d;
    if HasTemperatures(expected) && DeltaCol !in expected {
      forall i, j | 0 <= i < j < |r| ensures r[i] != r[j] {
        if j < |d| {
          assert r[i] == d[i] && r[j] == d[j];
        } else {
          assert r[i] == d[i] && r[j] == DeltaCol;
        }
      }
    }
  }
}
