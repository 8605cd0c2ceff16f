/**
 * The prediction service (app/main.py): the expected input schema read
 * from the fitted preprocessor, the risk policy applied to the failure
 * probability, and the echo of the operating condition. The dashboard
 * (app/app.py) applies the same cut-points to its messages.
 */
module Api {
  import opened Cells
  import opened Frames
  import opened Inference
  import opened Ranking
  import opened Explanation

  /** An entry of `pre.transformers_`: its name and the input columns it consumes. */
  datatype TransformerSpec = TransformerSpec(name: string, columns: seq<string>)

  /** The column lists of the transformers, one after the other. */
  function Concat(ts: seq<TransformerSpec>): (cols: seq<string>)
    ensures forall i, c :: 0 <= i < |ts| && c in ts[i].columns ==> c in cols
  {
    if ts == [] then [] else ts[0].columns + Concat(ts[1..])
  }

  lemma {:induction false} ConcatAppend(a: seq<TransformerSpec>, b: seq<TransformerSpec>)
    ensures Concat(a + b) == Concat(a) + Concat(b)
  {
    if a == [] {
      assert a + b == b;
    } else {
      assert (a + b)[1..] == a[1..] + b;
      ConcatAppend(a[1..], b);
    }
  }

  /**
   * `EXPECTED_COLS`: starting from the empty list, each transformer's
   * columns are appended in turn.
   */
  method ExpectedColumns(ts: seq<TransformerSpec>) returns (cols: seq<string>)
    ensures cols == Concat(ts)
  {
    cols := [];
    for i := 0 to |ts|
      invariant cols == Concat(ts[..i])
    {
      assert ts[..i + 1] == ts[..i] + [ts[i]];
      ConcatAppend(ts[..i], [ts[i]]);
      assert Concat([ts[i]]) == ts[i].columns + Concat([]);
      cols := cols + ts[i].columns;
    }
    assert ts[..|ts|] == ts;
  }

  /** A name is expected exactly when some transformer consumes it. */
  lemma {:induction false} ConcatMembership(ts: seq<TransformerSpec>, c: string)
    ensures c in Concat(ts) <==> exists i :: 0 <= i < |ts| && c in ts[i].columns
  {
    if ts != [] {
      ConcatMembership(ts[1..], c);
      if c in Concat(ts[1..]) {
        var i :| 0 <= i < |ts[1..]| && c in ts[1..][i].columns;
        assert c in ts[i + 1].columns;
      }
      if exists i :: 0 <= i < |ts| && c in ts[i].columns {
        var i :| 0 <= i < |ts| && c in ts[i].columns;
        if i > 0 {
          assert c in ts[1..][i - 1].columns;
        }
      }
    }
  }

  /**
   * Each transformer's columns appear in one piece, in transformer order:
   * they start where the columns of the transformers before it end.
   */
  lemma ConcatLayout(ts: seq<TransformerSpec>, i: nat)
    requires i < |ts|
    ensures var start := |Concat(ts[..i])|;
            start + |ts[i].columns| <= |Concat(ts)| &&
            Concat(ts)[start..start + |ts[i].columns|] == ts[i].columns
  {
    assert ts == ts[..i] + ([ts[i]] + ts[i + 1..]);
    ConcatAppend(ts[..i], [ts[i]] + ts[i + 1..]);
    assert ([ts[i]] + ts[i + 1..])[1..] == ts[i + 1..];
  }

  /** The risk tiers, lowest first. */
  datatype RiskTier = Low | Medium | High

  /** Lines 40-48: 0.7 and 0.4 are the lower bounds of the HIGH and MEDIUM tiers. */
  function Tier(prob: real): (t: RiskTier)
    ensures t == High <==> prob >= 0.7
    ensures t == Medium <==> 0.4 <= prob < 0.7
    ensures t == Low <==> prob < 0.4
  {
    if prob >= 0.7 then High
    else if prob >= 0.4 then Medium
    else Low
  }

  function TierRank(t: RiskTier): nat {
    match t
    case Low => 0
    case Medium => 1
    case High => 2
  }

  /** The `(risk, action)` pair the service reports for a probability. */
  function RiskBucket(prob: real): (r: (string, string))
    ensures prob >= 0.7 <==> r == ("HIGH", "Immediate maintenance recommended")
    ensures 0.4 <= prob < 0.7 <==> r == ("MEDIUM", "Monitor closely and prepare maintenance")
    ensures prob < 0.4 <==> r == ("LOW", "Normal operation")
  {
    match Tier(prob)
    case High => ("HIGH", "Immediate maintenance recommended")
    case Medium => ("MEDIUM", "Monitor closely and prepare maintenance")
    case Low => ("LOW", "Normal operation")
  }

  /** A larger probability never gives a lower tier. */
  lemma RiskMonotone(p: real, q: real)
    requires p <= q
    ensures TierRank(Tier(p)) <= TierRank(Tier(q))
  {
  }

  /** The dashboard's message for a probability (app/app.py, lines 103-108). */
  function DashboardMessage(prob: real): (m: string)
    ensures prob >= 0.7 <==> m == "🚨 High Risk of Machine Failure"
    ensures 0.4 <= prob < 0.7 <==> m == "⚠️ Moderate Risk – Monitor Closely"
    ensures prob < 0.4 <==> m == "✅ Low Risk – Normal Operation"
  {
    if prob >= 0.7 then "🚨 High Risk of Machine Failure"
    else if prob >= 0.4 then "⚠️ Moderate Risk – Monitor Closely"
    else "✅ Low Risk – Normal Operation"
  }

  /** The dashboard and the service cut at the same points: equal messages exactly when equal tiers. */
  lemma DashboardAgreesWithService(p: real, q: real)
    ensures DashboardMessage(p) == DashboardMessage(q) <==> RiskBucket(p) == RiskBucket(q)
    ensures DashboardMessage(p) == DashboardMessage(q) <==> Tier(p) == Tier(q)
  {
  }

  /** Lines 55-62: the request echoed under snake-case keys, with the temperature delta added. */
  function OperatingCondition(req: PredictionRequest): (m: map<string, real>)
    ensures m.Keys == {"air_temperature", "process_temperature", "temp_delta",
                       "rotational_speed", "torque", "tool_wear"}
    ensures m["temp_delta"] == m["process_temperature"] - m["air_temperature"]
    ensures m["air_temperature"] == req.airTemperature && m["process_temperature"] == req.processTemperature
    ensures m["rotational_speed"] == req.rotationalSpeed && m["torque"] == req.torque
    ensures m["tool_wear"] == req.toolWear
  {
    map["air_temperature" := req.airTemperature,
        "process_temperature" := req.processTemperature,
        "temp_delta" := req.processTemperature - req.airTemperature,
        "rotational_speed" := req.rotationalSpeed,
        "torque" := req.torque,
        "tool_wear" := req.toolWear]
  }

  /** The echoed delta is the one the feature row carries whenever the row derives it. */
  lemma OperatingDeltaMatchesRow(req: PredictionRequest, expected: seq<string>)
    requires HasTemperatures(expected)
    ensures BuiltValue(req, expected, DeltaCol) == Num(OperatingCondition(req)["temp_delta"])
  {
    BuiltValueFields(req, expected);
  }

  datatype PredictionResponse = PredictionResponse(
    failureProbability: real,
    riskLevel: string,
    globalTopFeatures: seq<string>,
    localContribution: seq<FeatureContribution>,
    operatingCondition: map<string, real>,
    recommendedAction: string)

  /** `top_n` as `predict` leaves it: the default of both explanation functions. */
  const DefaultTopN := 5

  /**
   * `predict`: builds the feature row on the expected columns and assembles
   * the response. The preprocessor's output `x` for that row and the
   * classifier's probability `prob` are inputs.
   */
  method Predict(req: PredictionRequest, expected: seq<string>, model: LinearModel, x: seq<real>, prob: real)
    returns (row: Table, resp: PredictionResponse)
    requires Consistent(model) && |x| == |model.coefficients|
    ensures WellFormed(row) && row.height == 1 && row.columns == RowColumns(expected)
    ensures resp.failureProbability == prob
    ensures (resp.riskLevel, resp.recommendedAction) == RiskBucket(prob)
    ensures resp.globalTopFeatures == GlobalFeatureImportance(model, DefaultTopN)
    ensures resp.localContribution == LocalContribution(model, x, DefaultTopN)
    ensures |resp.localContribution| == |resp.globalTopFeatures| == HeadLength(|x|, DefaultTopN)
    ensures resp.operatingCondition == OperatingCondition(req)
  {
    row := BuildInputDf(req, expected);
    var (risk, action) := RiskBucket(prob);
    resp := PredictionResponse(
      prob, risk,
      GlobalFeatureImportance(model, DefaultTopN),
      LocalContribution(model, x, DefaultTopN),
      OperatingCondition(req),
      action);
  }
}
