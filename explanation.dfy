/**
 * Explanations of the linear classifier (app/explanation.py): global
 * importance ranks the expanded features by |coefficient|, local
 * contribution ranks them by |value * coefficient| for one transformed
 * row. The fitted preprocessor and classifier are opaque; what the
 * explainer reads from them is given as a `LinearModel`.
 */
module Explanation {
  import opened Sequences
  import opened Ranking

  /**
   * What the explainer reads from the fitted pipeline: the expanded feature
   * names of the preprocessor (`get_feature_names_out()`), the coefficient row
   * of the classifier (`coef_[0]`) and its intercept.
   */
  datatype LinearModel = LinearModel(featureNames: seq<string>, coefficients: seq<real>, intercept: real)

  /** One coefficient per expanded feature; pandas refuses columns of different lengths. */
  predicate Consistent(model: LinearModel) {
    |model.featureNames| == |model.coefficients|
  }

  /** A `{"feature": ..., "contribution": ...}` record of the local explanation. */
  datatype FeatureContribution = FeatureContribution(feature: string, contribution: real)

  function Names(features: seq<string>, q: seq<nat>): (r: seq<string>)
    requires forall i :: 0 <= i < |q| ==> q[i] < |features|
    ensures |r| == |q| && forall i :: 0 <= i < |q| ==> r[i] == features[q[i]]
  {
    seq(|q|, i requires 0 <= i < |q| => features[q[i]])
  }

  /**
   * `get_global_feature_importance`: the names of the first `topN` rows
   * after sorting by |coefficient|, largest first. The sort is not stable,
   * so the result is the head of SOME descending order.
   */
  function GlobalFeatureImportance(model: LinearModel, topN: int): (top: seq<string>)
    requires Consistent(model)
    ensures |top| == HeadLength(|model.featureNames|, topN)
    ensures exists p :: IsRanking(Magnitudes(model.coefficients), p) &&
                        top == Names(model.featureNames, p[..|top|])
    ensures exists q :: IsTopRanking(Magnitudes(model.coefficients), q) &&
                        top == Names(model.featureNames, q)
  {
    var keys := Magnitudes(model.coefficients);
    var p := RankDescending(keys);
    var k := HeadLength(|p|, topN);
    HeadOfRankingIsTop(keys, p, k);
    Names(model.featureNames, p[..k])
  }

  /** `X[0] * clf.coef_[0]`: each feature's share of the linear score. */
  function Contributions(x: seq<real>, coefficients: seq<real>): (c: seq<real>)
    requires |x| == |coefficients|
    ensures |c| == |x|
    ensures forall i :: 0 <= i < |x| ==> c[i] == x[i] * coefficients[i]
  {
    seq(|x|, i requires 0 <= i < |x| => x[i] * coefficients[i])
  }

  function Sum(s: seq<real>): real {
    if s == [] then 0.0 else s[0] + Sum(s[1..])
  }

  /** The dot product of a row with the coefficient row. */
  function Dot(x: seq<real>, w: seq<real>): real
    requires |x| == |w|
  {
    if x == [] then 0.0 else x[0] * w[0] + Dot(x[1..], w[1..])
  }

  /** The classifier's decision value (the logit before the sigmoid) for one transformed row. */
  function Logit(model: LinearModel, x: seq<real>): real
    requires |x| == |model.coefficients|
  {
    Dot(x, model.coefficients) + model.intercept
  }

  /** The full (untruncated) contributions add up to the linear score: local explanation is exact. */
  lemma {:induction false} ContributionsSumToLogit(model: LinearModel, x: seq<real>)
    requires |x| == |model.coefficients|
    ensures Sum(Contributions(x, model.coefficients)) + model.intercept == Logit(model, x)
  {
    ContributionsSumToDot(x, model.coefficients);
  }

  lemma {:induction false} ContributionsSumToDot(x: seq<real>, w: seq<real>)
    requires |x| == |w|
    ensures Sum(Contributions(x, w)) == Dot(x, w)
  {
    if x != [] {
      var c := Contributions(x, w);
      var c' := Contributions(x[1..], w[1..]);
      forall i | 0 <= i < |c'| ensures c[1..][i] == c'[i] {
        assert x[1..][i] == x[i + 1] && w[1..][i] == w[i + 1];
      }
      assert c[1..] == c';
      ContributionsSumToDot(x[1..], w[1..]);
    }
  }

  function Records(features: seq<string>, contrib: seq<real>, q: seq<nat>): (r: seq<FeatureContribution>)
    requires |features| == |contrib| && forall i :: 0 <= i < |q| ==> q[i] < |features|
    ensures |r| == |q|
    ensures forall i :: 0 <= i < |q| ==> r[i] == FeatureContribution(features[q[i]], contrib[q[i]])
  {
    seq(|q|, i requires 0 <= i < |q| => FeatureContribution(features[q[i]], contrib[q[i]]))
  }

  /**
   * `get_local_contribution`: for the transformed row `x`, the features
   * with their contributions, the first `topN` after sorting by
   * |contribution| (largest first, ties in any order).
   */
  function LocalContribution(model: LinearModel, x: seq<real>, topN: int): (records: seq<FeatureContribution>)
    requires Consistent(model) && |x| == |model.coefficients|
    ensures |records| == HeadLength(|x|, topN)
    ensures exists p :: IsRanking(Magnitudes(Contributions(x, model.coefficients)), p) &&
                        records == Records(model.featureNames, Contributions(x, model.coefficients), p[..|records|])
    ensures exists q :: IsTopRanking(Magnitudes(Contributions(x, model.coefficients)), q) &&
                        records == Records(model.featureNames, Contributions(x, model.coefficients), q)
    ensures forall i, j :: 0 <= i < j < |records| ==>
              Abs(records[i].contribution) >= Abs(records[j].contribution)
  {
    var contrib := Contributions(x, model.coefficients);
    var keys := Magnitudes(contrib);
    var p := RankDescending(keys);
    var k := HeadLength(|p|, topN);
    HeadOfRankingIsTop(keys, p, k);
    Records(model.featureNames, contrib, p[..k])
  }

  /**
   * Every local record pairs a feature name with that same feature's
   * contribution, value times coefficient at one position, and no two
   * records come from the same position.
   */
  lemma LocalRecordsArePaired(model: LinearModel, x: seq<real>, topN: int)
    requires Consistent(model) && |x| == |model.coefficients|
    ensures var records := LocalContribution(model, x, topN);
            exists q :: Paired(model, x, records, q)
  {
    var contrib := Contributions(x, model.coefficients);
    var records := LocalContribution(model, x, topN);
    var q :| IsTopRanking(Magnitudes(contrib), q) && records == Records(model.featureNames, contrib, q);
    RecordsArePaired(model, x, records, q);
  }

  lemma RecordsArePaired(model: LinearModel, x: seq<real>, records: seq<FeatureContribution>, q: seq<nat>)
    requires Consistent(model) && |x| == |model.coefficients|
    requires NoDup(q) && forall i :: 0 <= i < |q| ==> q[i] < |x|
    requires records == Records(model.featureNames, Contributions(x, model.coefficients), q)
    ensures Paired(model, x, records, q)
  {
  }

  /** `records[i]` is feature `q[i]` with its contribution, for distinct positions `q`. */
  predicate Paired(model: LinearModel, x: seq<real>, records: seq<FeatureContribution>, q: seq<nat>)
    requires Consistent(model) && |x| == |model.coefficients|
  {
    && NoDup(q) && |q| == |records|
    && forall i :: 0 <= i < |records| ==>
         (q[i] < |x| &&
          records[i] == FeatureContribution(model.featureNames[q[i]], x[q[i]] * model.coefficients[q[i]]))
  }

  /**
   * The global ranking is determined up to ties: whichever descending order
   * the sort picks, the i-th returned name has the i-th largest |coefficient|.
   */
  lemma GlobalImportanceUpToTies(model: LinearModel, topN: int, p: seq<nat>, i: nat)
    requires Consistent(model) && IsRanking(Magnitudes(model.coefficients), p)
    requires i < |GlobalFeatureImportance(model, topN)|
    ensures exists k :: 0 <= k < |model.featureNames| &&
              GlobalFeatureImportance(model, topN)[i] == model.featureNames[k] &&
              Abs(model.coefficients[k]) == Abs(model.coefficients[p[i]])
  {
    var keys := Magnitudes(model.coefficients);
    var top := GlobalFeatureImportance(model, topN);
    var p' :| IsRanking(keys, p') && top == Names(model.featureNames, p'[..|top|]);
    RankingsAgreeOnKeys(keys, p', p, i);
    assert top[i] == model.featureNames[p'[i]];
  }
}
