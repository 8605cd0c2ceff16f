/**
 * The offline importance table (src/interpretation/feature_importance.py):
 * one row per expanded feature with its coefficient and |coefficient|,
 * sorted by |coefficient|, largest first.
 */
module FeatureImportance {
  import opened Ranking
  import opened Explanation

  /** A row of the table: `feature`, `coefficient`, `abs_coefficient`. */
  datatype ImportanceRow = ImportanceRow(feature: string, coefficient: real, absCoefficient: real)

  /** The table as built, before sorting: row i describes feature i. */
  function ImportanceRows(model: LinearModel): (rows: seq<ImportanceRow>)
    requires Consistent(model)
    ensures |rows| == |model.coefficients|
    ensures forall i :: 0 <= i < |rows| ==>
              rows[i] == ImportanceRow(model.featureNames[i], model.coefficients[i], Abs(model.coefficients[i]))
  {
    seq(|model.coefficients|, i requires 0 <= i < |model.coefficients| =>
          ImportanceRow(model.featureNames[i], model.coefficients[i], Abs(model.coefficients[i])))
  }

  /** The rows at positions `p`, in that order. */
  function Pick(rows: seq<ImportanceRow>, p: seq<nat>): (r: seq<ImportanceRow>)
    requires forall i :: 0 <= i < |p| ==> p[i] < |rows|
    ensures |r| == |p| && forall i :: 0 <= i < |p| ==> r[i] == rows[p[i]]
  {
    if p == [] then [] else [rows[p[0]]] + Pick(rows, p[1..])
  }

  /** Inserting position `k` into an order adds exactly row `k` to the picked rows. */
  lemma {:induction false} PickInsert(keys: seq<real>, rows: seq<ImportanceRow>, p: seq<nat>, k: nat)
    requires |rows| == |keys| && k < |keys| && forall i :: 0 <= i < |p| ==> p[i] < |keys|
    ensures multiset(Pick(rows, Insert(keys, p, k))) == multiset(Pick(rows, p)) + multiset{rows[k]}
  {
    var r := Insert(keys, p, k);
    if p == [] {
      assert r == [k] + [];
      PickCons(rows, k, []);
    } else if keys[p[0]] >= keys[k] {
      var r' := Insert(keys, p[1..], k);
      assert r == [p[0]] + r';
      assert p == [p[0]] + p[1..];
      PickInsert(keys, rows, p[1..], k);
      PickCons(rows, p[0], r');
      PickCons(rows, p[0], p[1..]);
    } else {
      assert r == [k] + p;
      PickCons(rows, k, p);
    }
  }

  lemma PickCons(rows: seq<ImportanceRow>, x: nat, p: seq<nat>)
    requires x < |rows| && forall i :: 0 <= i < |p| ==> p[i] < |rows|
    ensures multiset(Pick(rows, [x] + p)) == multiset{rows[x]} + multiset(Pick(rows, p))
  {
    assert ([x] + p)[1..] == p;
  }

  /** Sorting the first n positions picks exactly the first n rows. */
  lemma {:induction false} PickRankPrefix(keys: seq<real>, rows: seq<ImportanceRow>, n: nat)
    requires |rows| == |keys| && n <= |keys|
    ensures multiset(Pick(rows, RankPrefix(keys, n))) == multiset(rows[..n])
  {
    if n > 0 {
      var p := RankPrefix(keys, n - 1);
      var r := Insert(keys, p, n - 1);
      assert RankPrefix(keys, n) == r;
      PickRankPrefix(keys, rows, n - 1);
      PickInsert(keys, rows, p, n - 1);
      PrefixSnoc(rows, n);
      calc {
        multiset(Pick(rows, r));
        multiset(Pick(rows, p)) + multiset{rows[n - 1]};
        multiset(rows[..n - 1]) + multiset{rows[n - 1]};
        multiset(rows[..n]);
      }
    }
  }

  lemma PrefixSnoc(rows: seq<ImportanceRow>, n: nat)
    requires 0 < n <= |rows|
    ensures multiset(rows[..n]) == multiset(rows[..n - 1]) + multiset{rows[n - 1]}
  {
    assert rows[..n] == rows[..n - 1] + [rows[n - 1]];
  }

  /**
   * `extract_feature_importance`: every feature's row exactly once, with
   * `abs_coefficient` = |coefficient|, in non-increasing `abs_coefficient`
   * order (the sort is not stable, so ties may come in any order).
   */
  function ExtractFeatureImportance(model: LinearModel): (table: seq<ImportanceRow>)
    requires Consistent(model)
    ensures |table| == |model.coefficients|
    ensures multiset(table) == multiset(ImportanceRows(model))
    ensures forall i :: 0 <= i < |table| ==> table[i].absCoefficient == Abs(table[i].coefficient)
    ensures forall i, j :: 0 <= i < j < |table| ==> table[i].absCoefficient >= table[j].absCoefficient
    ensures exists p :: IsRanking(Magnitudes(model.coefficients), p) && table == Pick(ImportanceRows(model), p)
  {
    var rows := ImportanceRows(model);
    var keys := Magnitudes(model.coefficients);
    PickRankPrefix(keys, rows, |keys|);
    assert rows[..|keys|] == rows;
    Pick(rows, RankDescending(keys))
  }

  /**
   * The offline table and the API's global importance rank by the same key:
   * the i-th name returned by the API has the i-th largest |coefficient| of the table.
   */
  lemma ImportanceTableMatchesGlobal(model: LinearModel, topN: int, i: nat)
    requires Consistent(model) && i < |GlobalFeatureImportance(model, topN)|
    ensures exists k :: 0 <= k < |model.featureNames| &&
              GlobalFeatureImportance(model, topN)[i] == model.featureNames[k] &&
              Abs(model.coefficients[k]) == ExtractFeatureImportance(model)[i].absCoefficient
  {
    var table := ExtractFeatureImportance(model);
    var p :| IsRanking(Magnitudes(model.coefficients), p) && table == Pick(ImportanceRows(model), p);
    GlobalImportanceUpToTies(model, topN, p, i);
    assert table[i].absCoefficient == Abs(model.coefficients[p[i]]);
  }
}
