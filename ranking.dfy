/**
 * Ranking feature positions by a real key, largest first: what
 * `sort_values(key, ascending=False)` does to the row positions of a frame.
 * pandas' default sort is not stable, so only properties that every
 * descending order of the keys shares are promised here; ties may come out
 * in any order.
 */
module Ranking {
  import opened Sequences

  function Abs(x: real): (a: real)
    ensures a >= 0.0 && (a == x || a == -x)
  {
    if x < 0.0 then -x else x
  }

  /** `np.abs` applied element-wise. */
  function Magnitudes(xs: seq<real>): (m: seq<real>)
    ensures |m| == |xs| && forall i :: 0 <= i < |xs| ==> m[i] == Abs(xs[i])
  {
    if xs == [] then [] else [Abs(xs[0])] + Magnitudes(xs[1..])
  }

  /** `p` lists each of the positions 0 .. n-1 exactly once. */
  predicate IsPermutation(p: seq<nat>, n: nat) {
    && |p| == n
    && NoDup(p)
    && (forall i :: 0 <= i < |p| ==> p[i] < n)
    && (forall k :: 0 <= k < n ==> k in p)
  }

  /** The keys at the positions `p` never increase. */
  predicate Descending(keys: seq<real>, p: seq<nat>)
    requires forall i :: 0 <= i < |p| ==> p[i] < |keys|
  {
    forall i, j :: 0 <= i < j < |p| ==> keys[p[i]] >= keys[p[j]]
  }

  /** `p` is an order in which a descending sort may leave the rows. */
  predicate IsRanking(keys: seq<real>, p: seq<nat>) {
    IsPermutation(p, |keys|) && Descending(keys, p)
  }

  /**
   * `q` is a legitimate answer to "the first k rows after sorting": distinct
   * positions in descending key order, none of which is beaten by a position left out.
   */
  predicate IsTopRanking(keys: seq<real>, q: seq<nat>) {
    && NoDup(q)
    && (forall i :: 0 <= i < |q| ==> q[i] < |keys|)
    && Descending(keys, q)
    && (forall i, j :: 0 <= i < |q| && 0 <= j < |keys| && j !in q ==> keys[j] <= keys[q[i]])
  }

  /** Insert position `k` into the descending list `p`, after every position whose key is at least as large. */
  function Insert(keys: seq<real>, p: seq<nat>, k: nat): (r: seq<nat>)
    requires k < |keys| && forall i :: 0 <= i < |p| ==> p[i] < |keys|
    ensures |r| == |p| + 1
    ensures forall x :: x in r <==> x in p || x == k
    ensures forall i :: 0 <= i < |r| ==> r[i] < |keys|
  {
    if p == [] then [k]
    else if keys[p[0]] >= keys[k] then
      assert p == [p[0]] + p[1..];
      [p[0]] + Insert(keys, p[1..], k)
    else
      [k] + p
  }

  lemma {:induction false} InsertDistinct(keys: seq<real>, p: seq<nat>, k: nat)
    requires k < |keys| && forall i :: 0 <= i < |p| ==> p[i] < |keys|
    requires NoDup(p) && k !in p
    ensures NoDup(Insert(keys, p, k))
  {
    if p != [] && keys[p[0]] >= keys[k] {
      assert p == [p[0]] + p[1..];
      assert p[0] !in p[1..] by {
        forall j | 1 <= j < |p| ensures p[j] != p[0] {
        }
      }
      InsertDistinct(keys, p[1..], k);
      var r := Insert(keys, p, k);
      forall j | 0 < j < |r| ensures r[j] != r[0] {
        assert r[j] in Insert(keys, p[1..], k);
      }
    } else if p != [] {
      assert k !in p;
    }
  }

  lemma {:induction false} InsertDescending(keys: seq<real>, p: seq<nat>, k: nat)
    requires k < |keys| && forall i :: 0 <= i < |p| ==> p[i] < |keys|
    requires Descending(keys, p)
    ensures Descending(keys, Insert(keys, p, k))
  {
    if p != [] && keys[p[0]] >= keys[k] {
      assert p == [p[0]] + p[1..];
      InsertDescending(keys, p[1..], k);
      var r := Insert(keys, p, k);
      forall j | 0 < j < |r| ensures keys[r[0]] >= keys[r[j]] {
        assert r[j] in Insert(keys, p[1..], k);
      }
    }
  }

  /** Insertion sort of the first `n` positions. */
  function RankPrefix(keys: seq<real>, n: nat): (p: seq<nat>)
    requires n <= |keys|
    ensures |p| == n && forall i :: 0 <= i < |p| ==> p[i] < n
  {
    if n == 0 then []
    else
      var p := RankPrefix(keys, n - 1);
      var r := Insert(keys, p, n - 1);
      assert forall i :: 0 <= i < |r| ==> r[i] in p || r[i] == n - 1;
      r
  }

  lemma {:induction false} RankPrefixIsRanking(keys: seq<real>, n: nat)
    requires n <= |keys|
    ensures IsPermutation(RankPrefix(keys, n), n) && Descending(keys, RankPrefix(keys, n))
  {
    if n > 0 {
      var p := RankPrefix(keys, n - 1);
      RankPrefixIsRanking(keys, n - 1);
      InsertDistinct(keys, p, n - 1);
      InsertDescending(keys, p, n - 1);
      var r := RankPrefix(keys, n);
      assert r == Insert(keys, p, n - 1);
      forall x | 0 <= x < n ensures x in r {
        if x < n - 1 {
          assert x in p;
        }
      }
    }
  }

  /** One descending order of all positions by key. */
  function RankDescending(keys: seq<real>): (p: seq<nat>)
    ensures IsRanking(keys, p)
  {
    RankPrefixIsRanking(keys, |keys|);
    RankPrefix(keys, |keys|)
  }

  /** `head(n)` of a frame with `rows` rows: the first n rows, or all but the last |n| rows when n is negative. */
  function HeadLength(rows: nat, n: int): (len: nat)
    ensures len <= rows
    ensures n >= 0 ==> len == if n < rows then n else rows
    ensures n < 0 ==> len == if rows + n > 0 then rows + n else 0
  {
    if n >= 0 then (if n < rows then n else rows)
    else if rows + n > 0 then rows + n else 0
  }

  /** The head of any descending order is a valid top-k answer: nothing left out has a larger key. */
  lemma HeadOfRankingIsTop(keys: seq<real>, p: seq<nat>, k: nat)
    requires IsRanking(keys, p) && k <= |p|
    ensures IsTopRanking(keys, p[..k])
  {
    var q := p[..k];
    forall i, j | 0 <= i < |q| && 0 <= j < |keys| && j !in q ensures keys[j] <= keys[q[i]] {
      assert j in p;
      var m :| 0 <= m < |p| && p[m] == j;
      assert q[i] == p[i];
    }
  }

  /** Two descending orders of the same keys list the same key values, position by position: ties are the only freedom. */
  lemma RankingsAgreeOnKeys(keys: seq<real>, p: seq<nat>, q: seq<nat>, i: nat)
    requires IsRanking(keys, p) && IsRanking(keys, q) && i < |keys|
    ensures keys[p[i]] == keys[q[i]]
  {
    NotBelow(keys, p, q, i);
    NotBelow(keys, q, p, i);
  }

  /**
   * The i-th key of one descending order is not below the i-th key of another:
   * otherwise q[0..i] would be i + 1 positions that p must all place before i.
   */
  lemma NotBelow(keys: seq<real>, p: seq<nat>, q: seq<nat>, i: nat)
    requires IsRanking(keys, p) && IsRanking(keys, q) && i < |keys|
    ensures keys[p[i]] >= keys[q[i]]
  {
    if keys[p[i]] < keys[q[i]] {
      var before := set j | 0 <= j < i + 1 :: q[j];
      var slots := set m | 0 <= m < i :: p[m];
      forall x | x in before ensures x in slots {
        var j :| 0 <= j < i + 1 && q[j] == x;
        assert keys[x] >= keys[q[i]];
        var m := IndexOf(p, x);
        assert m < i;
      }
      InjectiveImageSize(q, i + 1);
      InjectiveImageSize(p, i);
      SubsetSize(before, slots);
      assert false;
    }
  }

  lemma SubsetSize(a: set<nat>, b: set<nat>)
    requires a <= b
    ensures |a| <= |b|
  {
    assert b == a + (b - a);
  }

  /** The first n entries of a list without repeats form a set of n elements. */
  lemma {:induction false} InjectiveImageSize(p: seq<nat>, n: nat)
    requires NoDup(p) && n <= |p|
    ensures |set j | 0 <= j < n :: p[j]| == n
  {
    if n > 0 {
      InjectiveImageSize(p, n - 1);
      var s := set j | 0 <= j < n - 1 :: p[j];
      assert (set j | 0 <= j < n :: p[j]) == s + {p[n - 1]};
      assert p[n - 1] !in s;
    }
  }
}
