/**
 * Index construction shared by the pivot table and the alignment of two
 * series: pandas keeps one label per distinct id and sorts the labels
 * ascending. An index mapper sends each label to its position.
 */
module Keys {

  ghost predicate StrictlyIncreasing(s: seq<int>)
  {
    forall i, j :: 0 <= i < j < |s| ==> s[i] < s[j]
  }

  /**
   * One step of a filter that keeps its input's order. Position `i` of the
   * input contributes `vals[i]`; `r` is the tail's result `tail`, with
   * `vals[0]` in front when the head is kept. If `tail` reads `vals[1..]` at
   * the increasing positions `rest`, then `r` reads `vals` at the increasing
   * positions `idx`: `rest` moved by one, with 0 in front exactly when the
   * head is kept.
   */
  lemma {:induction false} SelectStep<T>(vals: seq<T>, tail: seq<T>, rest: seq<int>, keep: bool, r: seq<T>) returns (idx: seq<int>)
    requires |vals| > 0 && r == if keep then [vals[0]] + tail else tail
    requires StrictlyIncreasing(rest) && |rest| == |tail|
    requires forall k :: 0 <= k < |rest| ==> 0 <= rest[k] < |vals| - 1 && tail[k] == vals[1..][rest[k]]
    ensures StrictlyIncreasing(idx) && |idx| == |r|
    ensures forall k :: 0 <= k < |idx| ==> 0 <= idx[k] < |vals| && r[k] == vals[idx[k]]
    ensures forall i :: 1 <= i < |vals| ==> (i in idx <==> i - 1 in rest)
    ensures 0 in idx <==> keep
  {
    var shifted := ShiftUp(rest);
    forall k | 0 <= k < |rest| ensures 1 <= shifted[k] < |vals| && tail[k] == vals[shifted[k]] {
      assert vals[1..][rest[k]] == vals[rest[k] + 1];
    }
    if keep {
      idx := [0] + shifted;
      forall k | 1 <= k < |idx| ensures idx[k] == shifted[k - 1] && r[k] == tail[k - 1] {
      }
      forall a, b | 0 <= a < b < |idx| ensures idx[a] < idx[b] {
        if a > 0 {
          assert shifted[a - 1] < shifted[b - 1];
        }
      }
      forall i | 1 <= i < |vals| ensures i in idx <==> i - 1 in rest {
        assert i in idx <==> i == 0 || i in shifted;
      }
    } else {
      idx := shifted;
    }
  }

  /** Each position of `rest` moved up by one; strict increase is kept. */
  lemma {:induction false} ShiftUp(rest: seq<int>) returns (shifted: seq<int>)
    requires StrictlyIncreasing(rest)
    ensures StrictlyIncreasing(shifted) && |shifted| == |rest|
    ensures forall k :: 0 <= k < |rest| ==> shifted[k] == rest[k] + 1
    ensures forall i :: i in shifted <==> i - 1 in rest
  {
    shifted := seq(|rest|, k requires 0 <= k < |rest| => rest[k] + 1);
    forall a, b | 0 <= a < b < |shifted| ensures shifted[a] < shifted[b] {
      assert rest[a] < rest[b];
    }
    forall i ensures i in shifted <==> i - 1 in rest {
      if i - 1 in rest {
        var k :| 0 <= k < |rest| && rest[k] == i - 1;
        assert shifted[k] == i;
      }
    }
  }

  /** Adds `x` to a strictly increasing sequence unless it is already there. */
  function InsertKey(x: int, s: seq<int>): (r: seq<int>)
    requires StrictlyIncreasing(s)
    ensures StrictlyIncreasing(r)
    ensures forall k :: k in r <==> k in s || k == x
    ensures |r| <= |s| + 1
  {
    if s == [] then [x]
    else if x < s[0] then [x] + s
    else if x == s[0] then s
    else
      var t := InsertKey(x, s[1..]);
      assert s == [s[0]] + s[1..];
      forall k | k in t ensures s[0] < k {
        if k != x {
          var j :| 0 <= j < |s[1..]| && s[1..][j] == k;
          assert s[j + 1] == k;
        }
      }
      var r := [s[0]] + t;
      assert forall i :: 0 < i < |r| ==> r[i] == t[i - 1] && r[i] in t;
      r
  }

  /** The distinct values of `xs`, ascending: the labels of a pandas index built from `xs`. */
  function SortedDistinct(xs: seq<int>): (r: seq<int>)
    ensures StrictlyIncreasing(r)
    ensures forall k :: k in r <==> k in xs
    ensures |r| <= |xs|
  {
    if xs == [] then []
    else
      var t := SortedDistinct(xs[1..]);
      var r := InsertKey(xs[0], t);
      assert xs == [xs[0]] + xs[1..];
      r
  }

  /**
   * `{label: i for i, label in enumerate(index)}`: the position of each label.
   * It is a bijection from the labels onto 0 .. |labels| - 1.
   */
  function Mapper(labels: seq<int>): (m: map<int, nat>)
    requires StrictlyIncreasing(labels)
    ensures forall k :: k in m <==> k in labels
    ensures forall k :: k in m ==> m[k] < |labels| && labels[m[k]] == k
    ensures forall i :: 0 <= i < |labels| ==> labels[i] in m && m[labels[i]] == i
  {
    map i | 0 <= i < |labels| :: labels[i] := i
  }
}
