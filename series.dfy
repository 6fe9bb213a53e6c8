/**
 * Score series: a pandas Series indexed by `carID` with float scores,
 * modelled as a sequence of (id, score) entries in index order.
 */
module ScoreSeries {
  import opened Tables
  import Ranking
  import Keys

  datatype Entry = Entry(id: CarId, score: real)
  type Series = seq<Entry>

  /** The `1e-9` that keeps the min-max denominator positive. */
  const Eps: real := 0.000000001

  function Score(e: Entry): real { e.score }

  /** The index labels of a series, in order. */
  function Ids(s: Series): (r: seq<CarId>)
    ensures |r| == |s| && forall i :: 0 <= i < |s| ==> r[i] == s[i].id
  {
    seq(|s|, i requires 0 <= i < |s| => s[i].id)
  }

  /** `pd.Series(scores, index=ids)`. */
  function Zip(ids: seq<CarId>, scores: seq<real>): (r: Series)
    requires |ids| == |scores|
    ensures |r| == |ids| && forall i :: 0 <= i < |ids| ==> r[i] == Entry(ids[i], scores[i])
  {
    seq(|ids|, i requires 0 <= i < |ids| => Entry(ids[i], scores[i]))
  }

  /** Some entry of `s` is labelled `id`. */
  predicate HasId(s: Series, id: CarId)
  {
    exists i :: 0 <= i < |s| && s[i].id == id
  }

  lemma HasIdIds(s: Series, id: CarId)
    ensures HasId(s, id) <==> id in Ids(s)
  {
    if id in Ids(s) {
      var i :| 0 <= i < |s| && Ids(s)[i] == id;
    }
  }

  /** The score of the first entry labelled `id`, and 0 when there is none (the fill value of an alignment). */
  function Lookup(s: Series, id: CarId): (r: real)
    ensures !HasId(s, id) ==> r == 0.0
    ensures forall i :: 0 <= i < |s| && s[i].id == id && (forall j :: 0 <= j < i ==> s[j].id != id) ==> r == s[i].score
  {
    if s == [] then 0.0
    else if s[0].id == id then s[0].score
    else
      assert forall i :: 1 <= i < |s| ==> s[i] == s[1..][i - 1];
      Lookup(s[1..], id)
  }

  /** `scores[~scores.index.isin(drop)]`: the entries whose label is not in `drop`, in order. */
  function Without(s: Series, drop: set<CarId>): (r: Series)
    ensures |r| <= |s|
    ensures forall e :: e in r <==> e in s && e.id !in drop
    ensures forall e :: multiset(r)[e] == if e.id in drop then 0 else multiset(s)[e]
  {
    if s == [] then []
    else
      assert s == [s[0]] + s[1..];
      if s[0].id in drop then Without(s[1..], drop) else [s[0]] + Without(s[1..], drop)
  }

  /**
   * `Without` keeps the entries the mask selects in their original order:
   * the result is `s` read at the strictly increasing positions `idx`, and
   * `idx` holds exactly the positions whose label is not dropped.
   */
  lemma {:induction false} WithoutSelects(s: Series, drop: set<CarId>) returns (idx: seq<int>)
    ensures Keys.StrictlyIncreasing(idx) && |idx| == |Without(s, drop)|
    ensures forall k :: 0 <= k < |idx| ==> 0 <= idx[k] < |s| && Without(s, drop)[k] == s[idx[k]]
    ensures forall i :: 0 <= i < |s| ==> (i in idx <==> s[i].id !in drop)
  {
    if s == [] {
      idx := [];
    } else {
      var tail := Without(s[1..], drop);
      var rest := WithoutSelects(s[1..], drop);
      var keep := s[0].id !in drop;
      assert Without(s, drop) == if keep then [s[0]] + tail else tail;
      idx := Keys.SelectStep(s, tail, rest, keep, Without(s, drop));
      forall i | 1 <= i < |s| ensures i in idx <==> s[i].id !in drop {
        assert s[1..][i - 1] == s[i];
        assert i - 1 in rest <==> s[1..][i - 1].id !in drop;
      }
    }
  }

  /** The labels left after `Without` are those of `s` not in `drop`. */
  lemma WithoutIds(s: Series, drop: set<CarId>, x: CarId)
    ensures HasId(Without(s, drop), x) <==> HasId(s, x) && x !in drop
  {
    var r := Without(s, drop);
    if HasId(r, x) {
      var i :| 0 <= i < |r| && r[i].id == x;
      assert r[i] in r;
    }
    if HasId(s, x) && x !in drop {
      var i :| 0 <= i < |s| && s[i].id == x;
      assert s[i] in r;
    }
  }

  function MinScore(s: Series): (m: real)
    requires s != []
    ensures exists i :: 0 <= i < |s| && s[i].score == m
    ensures forall i :: 0 <= i < |s| ==> m <= s[i].score
  {
    if |s| == 1 then s[0].score
    else
      var m := MinScore(s[1..]);
      assert forall i :: 1 <= i < |s| ==> s[i] == s[1..][i - 1];
      if s[0].score <= m then s[0].score else m
  }

  function MaxScore(s: Series): (m: real)
    requires s != []
    ensures exists i :: 0 <= i < |s| && s[i].score == m
    ensures forall i :: 0 <= i < |s| ==> s[i].score <= m
  {
    if |s| == 1 then s[0].score
    else
      var m := MaxScore(s[1..]);
      assert forall i :: 1 <= i < |s| ==> s[i] == s[1..][i - 1];
      if m <= s[0].score then s[0].score else m
  }

  /** One min-max step: `(x - lo) / (hi - lo + 1e-9)`. */
  function Rescale(x: real, lo: real, hi: real): real
    requires lo <= hi
  {
    (x - lo) / (hi - lo + Eps)
  }

  /** `(scores - scores.min()) / (scores.max() - scores.min() + 1e-9)`; an empty series stays empty. */
  function Normalize(s: Series): (r: Series)
    ensures Ids(r) == Ids(s)
  {
    if s == [] then []
    else
      var lo := MinScore(s);
      var hi := MaxScore(s);
      seq(|s|, i requires 0 <= i < |s| => Entry(s[i].id, Rescale(s[i].score, lo, hi)))
  }

  lemma DivMonotone(a: real, b: real, d: real)
    requires a <= b && 0.0 < d
    ensures a / d <= b / d
  {
    assert b / d - a / d == (b - a) / d;
  }

  lemma DivStrictMonotone(a: real, b: real, d: real)
    requires a < b && 0.0 < d
    ensures a / d < b / d
  {
    assert b / d - a / d == (b - a) / d;
  }

  /** The normalised score at position i, and the positivity of its denominator. */
  lemma NormalizeAt(s: Series, i: nat)
    requires i < |s|
    ensures |Normalize(s)| == |s| && Normalize(s)[i].id == s[i].id
    ensures MinScore(s) <= s[i].score <= MaxScore(s) && 0.0 < MaxScore(s) - MinScore(s) + Eps
    ensures Normalize(s)[i].score == Rescale(s[i].score, MinScore(s), MaxScore(s))
  {
  }

  /** A value between lo and hi is rescaled into [0, 1). */
  lemma RescaleRange(x: real, lo: real, hi: real)
    requires lo <= x <= hi
    ensures 0.0 <= Rescale(x, lo, hi) < 1.0
  {
    DivMonotone(0.0, x - lo, hi - lo + Eps);
    DivStrictMonotone(x - lo, hi - lo + Eps, hi - lo + Eps);
  }

  lemma RescaleMonotone(x: real, y: real, lo: real, hi: real)
    requires lo <= hi
    ensures x <= y ==> Rescale(x, lo, hi) <= Rescale(y, lo, hi)
    ensures x < y ==> Rescale(x, lo, hi) < Rescale(y, lo, hi)
  {
    if x <= y { DivMonotone(x - lo, y - lo, hi - lo + Eps); }
    if x < y { DivStrictMonotone(x - lo, y - lo, hi - lo + Eps); }
  }

  /** Every normalised score lies in [0, 1). */
  lemma NormalizeRange(s: Series, i: nat)
    requires i < |s|
    ensures 0.0 <= Normalize(s)[i].score < 1.0
  {
    NormalizeAt(s, i);
    RescaleRange(s[i].score, MinScore(s), MaxScore(s));
  }

  /** An entry holding the minimum score is normalised to 0. */
  lemma NormalizeMinIsZero(s: Series, i: nat)
    requires i < |s| && s[i].score == MinScore(s)
    ensures Normalize(s)[i].score == 0.0
  {
    NormalizeAt(s, i);
  }

  /** Normalisation keeps the order of scores, both non-strict and strict. */
  lemma NormalizeMonotone(s: Series, i: nat, j: nat)
    requires i < |s| && j < |s|
    ensures s[i].score <= s[j].score ==> Normalize(s)[i].score <= Normalize(s)[j].score
    ensures s[i].score < s[j].score ==> Normalize(s)[i].score < Normalize(s)[j].score
  {
    NormalizeAt(s, i);
    NormalizeAt(s, j);
    RescaleMonotone(s[i].score, s[j].score, MinScore(s), MaxScore(s));
  }

  /** Every score of the series lies in [0, 1). */
  ghost predicate InUnitRange(s: Series)
  {
    forall e :: e in s ==> 0.0 <= e.score < 1.0
  }

  lemma NormalizeInUnitRange(s: Series)
    ensures InUnitRange(Normalize(s))
  {
    forall e | e in Normalize(s) ensures 0.0 <= e.score < 1.0 {
      var i :| 0 <= i < |Normalize(s)| && Normalize(s)[i] == e;
      NormalizeRange(s, i);
    }
  }

  /** `sort_values(ascending=False).head(n)`. */
  function TopN(s: Series, n: nat): Series
  {
    Ranking.Top(s, n, Score)
  }

  /**
   * TopN keeps min(n, |s|) entries of `s`, in non-increasing score order, and
   * no entry left out scores higher than one kept; its labels are labels of `s`.
   */
  lemma TopNProperties(s: Series, n: nat)
    ensures Ranking.IsTop(s, TopN(s, n), n, Score)
    ensures |TopN(s, n)| <= n
    ensures forall e :: e in TopN(s, n) ==> e in s
    ensures forall x :: x in Ids(TopN(s, n)) ==> x in Ids(s)
  {
    var r := TopN(s, n);
    Ranking.TopIsTop(s, n, Score);
    forall e | e in r ensures e in s {
      assert e in multiset(r);
    }
    forall x | x in Ids(r) ensures x in Ids(s) {
      var i :| 0 <= i < |r| && r[i].id == x;
      assert r[i] in r;
      var j :| 0 <= j < |s| && s[j] == r[i];
      assert Ids(s)[j] == x;
    }
  }

  /** Truncation keeps scores in [0, 1). */
  lemma TopNInUnitRange(s: Series, n: nat)
    requires InUnitRange(s)
    ensures InUnitRange(TopN(s, n))
  {
    TopNProperties(s, n);
  }
}
