/**
 * Ordered-name helpers shared by the table model: column lists are
 * sequences of names, and the code under model keeps them in insertion
 * order (Python dicts and pandas column indexes both do).
 */
module Sequences {

  /** No element occurs twice. */
  predicate NoDup<T(==)>(s: seq<T>) {
    forall i, j :: 0 <= i < j < |s| ==> s[i] != s[j]
  }

  /** Position of the first occurrence of `x` in `s`. */
  function IndexOf<T(==)>(s: seq<T>, x: T): (i: nat)
    requires x in s
    ensures i < |s| && s[i] == x && x !in s[..i]
  {
    if s[0] == x then 0 else 1 + IndexOf(s[1..], x)
  }

  /** Every element of `r` occurs in `s`, and `r` lists them in the order of their first occurrence in `s`. */
  predicate InOrderOf(r: seq<string>, s: seq<string>) {
    && (forall i :: 0 <= i < |r| ==> r[i] in s)
    && (forall i, j :: 0 <= i < j < |r| ==> IndexOf(s, r[i]) < IndexOf(s, r[j]))
  }

  /**
   * The keys of `{x: ... for x in s}`: each element once, at the place of
   * its first occurrence.
   */
  function Dedup(s: seq<string>): (d: seq<string>)
    ensures NoDup(d)
    ensures forall x :: x in d <==> x in s
    ensures |d| <= |s|
  {
    if s == [] then []
    else
      var init, last := s[..|s| - 1], s[|s| - 1];
      assert s == init + [last];
      var d := Dedup(init);
      if last in d then d else d + [last]
  }

  /** `s` without the elements listed in `drop`, order kept. */
  function Without(s: seq<string>, drop: seq<string>): (r: seq<string>)
    ensures forall x :: x in r <==> x in s && x !in drop
    ensures NoDup(s) ==> NoDup(r)
    ensures |r| <= |s|
  {
    if s == [] then []
    else if s[0] in drop then Without(s[1..], drop)
    else [s[0]] + Without(s[1..], drop)
  }

  /** The elements of `s` that also occur in `pool`, order kept (`[c for c in s if c in pool]`). */
  function Within(s: seq<string>, pool: seq<string>): (r: seq<string>)
    ensures forall x :: x in r <==> x in s && x in pool
    ensures |r| <= |s|
  {
    if s == [] then []
    else if s[0] in pool then [s[0]] + Within(s[1..], pool)
    else Within(s[1..], pool)
  }

  lemma {:induction false} IndexOfAppend(s: seq<string>, y: string, x: string)
    requires x in s
    ensures IndexOf(s + [y], x) == IndexOf(s, x)
  {
    if s[0] != x {
      assert (s + [y])[1..] == s[1..] + [y];
      IndexOfAppend(s[1..], y, x);
    }
  }

  lemma IndexOfAbsent(s: seq<string>, y: string)
    requires y !in s
    ensures IndexOf(s + [y], y) == |s|
  {
  }

  /** Dedup keeps first-occurrence order: the column order of `pd.DataFrame([{c: ... for c in s}])`. */
  lemma {:induction false} DedupInOrder(s: seq<string>)
    ensures InOrderOf(Dedup(s), s)
  {
    if s != [] {
      var init, last := s[..|s| - 1], s[|s| - 1];
      assert s == init + [last];
      var d := Dedup(init);
      DedupInOrder(init);
      forall x | x in init ensures IndexOf(s, x) == IndexOf(init, x) {
        IndexOfAppend(init, last, x);
      }
      if last !in d {
        IndexOfAbsent(init, last);
        var r := d + [last];
        assert Dedup(s) == r;
        forall i, j | 0 <= i < j < |r| ensures IndexOf(s, r[i]) < IndexOf(s, r[j]) {
          assert r[i] == d[i] && d[i] in init;
          if j < |d| {
            assert r[j] == d[j];
          }
        }
      }
    }
  }

  /** The tail of a duplicate-free list is duplicate-free and misses the head. */
  lemma NoDupTail(s: seq<string>)
    requires NoDup(s) && s != []
    ensures NoDup(s[1..]) && s[0] !in s[1..]
  {
    forall i | 1 <= i < |s| ensures s[i] != s[0] {
    }
  }

  lemma IndexOfTail(s: seq<string>, x: string)
    requires s != [] && x in s[1..] && x != s[0]
    ensures IndexOf(s, x) == 1 + IndexOf(s[1..], x)
  {
  }

  lemma OrderedPair(r: seq<string>, s: seq<string>, i: nat, j: nat)
    requires InOrderOf(r, s) && i < j < |r|
    ensures IndexOf(s, r[i]) < IndexOf(s, r[j])
  {
  }

  /** Growing a prefix of a duplicate-free list by one element adds exactly that element, which was not there yet. */
  lemma PrefixStep(s: seq<string>, i: nat)
    requires NoDup(s) && i < |s|
    ensures forall x :: x in s[..i + 1] <==> x in s[..i] || x == s[i]
    ensures s[i] !in s[..i]
  {
    assert s[..i + 1] == s[..i] + [s[i]];
  }

  /** Filtering a duplicate-free list keeps the relative order of what remains. */
  lemma {:induction false} WithoutInOrder(s: seq<string>, drop: seq<string>)
    requires NoDup(s)
    ensures InOrderOf(Without(s, drop), s)
  {
    if s != [] {
      var rest := s[1..];
      NoDupTail(s);
      WithoutInOrder(rest, drop);
      var r' := Without(rest, drop);
      var r := Without(s, drop);
      var skip := if s[0] in drop then 0 else 1;
      if s[0] in drop {
        assert r == r';
      } else {
        assert r == [s[0]] + r';
      }
      forall k | skip <= k < |r| ensures r[k] == r'[k - skip] {
      }
      forall k | skip <= k < |r| ensures r[k] in rest && IndexOf(s, r[k]) == 1 + IndexOf(rest, r[k]) {
        assert r'[k - skip] in rest;
        IndexOfTail(s, r[k]);
      }
      forall i, j | 0 <= i < j < |r| ensures IndexOf(s, r[i]) < IndexOf(s, r[j]) {
        if i < skip {
          assert IndexOf(s, r[i]) == 0;
        } else {
          OrderedPair(r', rest, i - skip, j - skip);
        }
      }
    }
  }
}
