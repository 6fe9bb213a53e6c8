/**
 * Descending sort and "take the first n" over a sequence ranked by a real key:
 * the `sort_values(ascending=False).head(n)` step every recommender ends with.
 * The sort used is an insertion sort; the order it gives to equal keys is one
 * possible order and nothing proved below depends on it.
 */
module Ranking {

  /** Keys never increase from left to right. */
  ghost predicate SortedDesc<T>(s: seq<T>, key: T -> real)
  {
    forall i, j :: 0 <= i < j < |s| ==> key(s[j]) <= key(s[i])
  }

  function Min(a: nat, b: nat): nat { if a < b then a else b }

  /** `r` is a possible result of sorting `s` by descending key and keeping `n` elements. */
  ghost predicate IsTop<T>(s: seq<T>, r: seq<T>, n: nat, key: T -> real)
  {
    && |r| == Min(n, |s|)
    && SortedDesc(r, key)
    && multiset(r) <= multiset(s)
    && forall x, y :: x in r && y in multiset(s) - multiset(r) ==> key(y) <= key(x)
  }

  /** Inserts `x` in front of the first element whose key does not exceed its own. */
  function Insert<T>(x: T, s: seq<T>, key: T -> real): (r: seq<T>)
    ensures multiset(r) == multiset(s) + multiset{x}
  {
    if s == [] || key(s[0]) <= key(x) then [x] + s
    else
      assert s == [s[0]] + s[1..];
      [s[0]] + Insert(x, s[1..], key)
  }

  lemma {:induction false} InsertSorted<T>(x: T, s: seq<T>, key: T -> real)
    requires SortedDesc(s, key)
    ensures SortedDesc(Insert(x, s, key), key)
  {
    if s == [] || key(s[0]) <= key(x) {
    } else {
      var t := Insert(x, s[1..], key);
      InsertSorted(x, s[1..], key);
      forall k | 0 <= k < |t|
        ensures key(t[k]) <= key(s[0])
      {
        assert t[k] in multiset(t);
        if t[k] != x {
          assert t[k] in multiset(s[1..]);
          var j :| 0 <= j < |s[1..]| && s[1..][j] == t[k];
          assert s[j + 1] == t[k];
        }
      }
      assert Insert(x, s, key) == [s[0]] + t;
    }
  }

  /** Sorts by descending key. */
  function Sort<T>(s: seq<T>, key: T -> real): (r: seq<T>)
    ensures multiset(r) == multiset(s)
    ensures SortedDesc(r, key)
  {
    if s == [] then []
    else
      var t := Sort(s[1..], key);
      InsertSorted(s[0], t, key);
      assert s == [s[0]] + s[1..];
      Insert(s[0], t, key)
  }

  /** The first `n` elements of `s` sorted by descending key (all of them when there are fewer). */
  function Top<T>(s: seq<T>, n: nat, key: T -> real): seq<T>
  {
    var t := Sort(s, key);
    t[..Min(n, |t|)]
  }

  /** In a sorted sequence, every element before position k has a key at least that of every element from k on. */
  lemma SplitDominates<T>(t: seq<T>, k: nat, key: T -> real, x: T, y: T)
    requires SortedDesc(t, key) && k <= |t|
    requires x in t[..k] && y in t[k..]
    ensures key(y) <= key(x)
  {
    var i :| 0 <= i < k && t[..k][i] == x;
    var j :| 0 <= j < |t| - k && t[k..][j] == y;
    assert t[i] == x && t[k + j] == y;
  }

  /** Top keeps `n` elements of largest key, in non-increasing order, drawn from `s`. */
  lemma TopIsTop<T>(s: seq<T>, n: nat, key: T -> real)
    ensures IsTop(s, Top(s, n, key), n, key)
  {
    var t := Sort(s, key);
    var k := Min(n, |t|);
    assert |t| == |s| by { assert |multiset(t)| == |multiset(s)|; }
    var r := t[..k];
    var rest := t[k..];
    assert t == r + rest;
    assert multiset(s) - multiset(r) == multiset(rest) by {
      assert multiset(t) == multiset(r) + multiset(rest);
    }
    assert SortedDesc(r, key) by {
      forall i, j | 0 <= i < j < |r| ensures key(r[j]) <= key(r[i]) {
        assert r[i] == t[i] && r[j] == t[j];
      }
    }
    forall x, y | x in r && y in multiset(s) - multiset(r)
      ensures key(y) <= key(x)
    {
      assert y in rest;
      SplitDominates(t, k, key, x, y);
    }
  }

  /** Every element Top keeps comes from the input. */
  lemma TopFromInput<T>(s: seq<T>, n: nat, key: T -> real, x: T)
    requires x in Top(s, n, key)
    ensures x in s
  {
    TopIsTop(s, n, key);
    assert x in multiset(Top(s, n, key));
  }
}
