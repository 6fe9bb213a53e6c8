/**
 * The collaborative recommender: a user-item matrix pivoted from the rating
 * log, index mappers for its rows and columns, and a fitted non-negative
 * factorisation whose predicted ratings are given to the model row by row.
 */
module Collaborative {
  import opened Wrappers
  import opened Tables
  import opened ScoreSeries
  import opened Keys
  import Ranking

  function UserIds(ratings: seq<Rating>): (r: seq<UserId>)
    ensures |r| == |ratings| && forall i :: 0 <= i < |ratings| ==> r[i] == ratings[i].user
  {
    seq(|ratings|, i requires 0 <= i < |ratings| => ratings[i].user)
  }

  function RatedCarIds(ratings: seq<Rating>): (r: seq<CarId>)
    ensures |r| == |ratings| && forall i :: 0 <= i < |ratings| ==> r[i] == ratings[i].car
  {
    seq(|ratings|, i requires 0 <= i < |ratings| => ratings[i].car)
  }

  /** The ratings user u gave car c, in log order. */
  function PairValues(ratings: seq<Rating>, u: UserId, c: CarId): (vs: seq<real>)
    ensures |vs| == 0 <==> forall k :: 0 <= k < |ratings| ==> !(ratings[k].user == u && ratings[k].car == c)
    ensures forall v :: v in vs ==> exists k :: 0 <= k < |ratings| && ratings[k] == Rating(u, c, v)
  {
    if ratings == [] then []
    else
      var rest := PairValues(ratings[1..], u, c);
      assert forall k :: 1 <= k < |ratings| ==> ratings[k] == ratings[1..][k - 1];
      if ratings[0].user == u && ratings[0].car == c then [ratings[0].value] + rest else rest
  }

  /**
   * `PairValues` collects every rating of the pair, once each, in log order:
   * it is the log's values read at the strictly increasing positions `idx`,
   * and `idx` holds exactly the positions of the pair's ratings.
   */
  lemma {:induction false} PairValuesSelects(ratings: seq<Rating>, u: UserId, c: CarId) returns (idx: seq<int>)
    ensures StrictlyIncreasing(idx) && |idx| == |PairValues(ratings, u, c)|
    ensures forall k :: 0 <= k < |idx| ==> 0 <= idx[k] < |ratings| && PairValues(ratings, u, c)[k] == ratings[idx[k]].value
    ensures forall i :: 0 <= i < |ratings| ==> (i in idx <==> ratings[i].user == u && ratings[i].car == c)
  {
    if ratings == [] {
      idx := [];
    } else {
      var values := seq(|ratings|, i requires 0 <= i < |ratings| => ratings[i].value);
      var tail := PairValues(ratings[1..], u, c);
      var rest := PairValuesSelects(ratings[1..], u, c);
      forall k | 0 <= k < |rest| ensures tail[k] == values[1..][rest[k]] {
        assert ratings[1..][rest[k]] == ratings[rest[k] + 1];
      }
      var keep := ratings[0].user == u && ratings[0].car == c;
      assert PairValues(ratings, u, c) == if keep then [values[0]] + tail else tail;
      idx := SelectStep(values, tail, rest, keep, PairValues(ratings, u, c));
      forall i | 1 <= i < |ratings| ensures i in idx <==> ratings[i].user == u && ratings[i].car == c {
        assert ratings[1..][i - 1] == ratings[i];
        assert i - 1 in rest <==> ratings[1..][i - 1].user == u && ratings[1..][i - 1].car == c;
      }
    }
  }

  function Sum(vs: seq<real>): real
  {
    if vs == [] then 0.0 else vs[0] + Sum(vs[1..])
  }

  lemma {:induction false} SumBounds(vs: seq<real>, lo: real, hi: real)
    requires forall v :: v in vs ==> lo <= v <= hi
    ensures (|vs| as real) * lo <= Sum(vs) <= (|vs| as real) * hi
  {
    if vs != [] {
      assert vs[0] in vs && forall v :: v in vs[1..] ==> v in vs;
      SumBounds(vs[1..], lo, hi);
      assert (|vs| as real) * lo == lo + (|vs[1..]| as real) * lo;
      assert (|vs| as real) * hi == hi + (|vs[1..]| as real) * hi;
    }
  }

  /** The `mean` aggregation of `pivot_table`, followed by `fillna(0)`. */
  function MeanOrZero(ratings: seq<Rating>, u: UserId, c: CarId): real
  {
    var vs := PairValues(ratings, u, c);
    if |vs| == 0 then 0.0 else Mean(vs)
  }

  function Mean(vs: seq<real>): real
    requires |vs| > 0
  {
    Sum(vs) / (|vs| as real)
  }

  lemma DivBounds(total: real, n: real, lo: real, hi: real)
    requires 0.0 < n && n * lo <= total <= n * hi
    ensures lo <= total / n <= hi
  {
    assert total / n - lo == (total - n * lo) / n;
    assert hi - total / n == (n * hi - total) / n;
  }

  /** A mean lies between any bounds of the values it averages. */
  lemma MeanBounds(ratings: seq<Rating>, u: UserId, c: CarId, lo: real, hi: real)
    requires |PairValues(ratings, u, c)| > 0
    requires forall v :: v in PairValues(ratings, u, c) ==> lo <= v <= hi
    ensures lo <= MeanOrZero(ratings, u, c) <= hi
  {
    MeanOfBoundedValues(PairValues(ratings, u, c), lo, hi);
  }

  lemma MeanOfBoundedValues(vs: seq<real>, lo: real, hi: real)
    requires |vs| > 0
    requires forall v :: v in vs ==> lo <= v <= hi
    ensures lo <= Mean(vs) <= hi
  {
    SumBounds(vs, lo, hi);
    DivBounds(Sum(vs), |vs| as real, lo, hi);
  }

  /** A pair rated once, or always with the same value v, has cell value v. */
  lemma MeanOfEqualRatings(ratings: seq<Rating>, u: UserId, c: CarId, v: real)
    requires exists k :: 0 <= k < |ratings| && ratings[k].user == u && ratings[k].car == c
    requires forall k :: 0 <= k < |ratings| && ratings[k].user == u && ratings[k].car == c ==> ratings[k].value == v
    ensures MeanOrZero(ratings, u, c) == v
  {
    var vs := PairValues(ratings, u, c);
    forall w | w in vs ensures v <= w <= v {
      var k :| 0 <= k < |ratings| && ratings[k] == Rating(u, c, w);
    }
    MeanBounds(ratings, u, c, v, v);
  }

  /** Rows are users, columns are cars, both ascending; a cell is a mean rating or 0. */
  datatype UserItemMatrix = UserItemMatrix(users: seq<UserId>, cars: seq<CarId>, cells: seq<seq<real>>)

  ghost predicate WellShaped(m: UserItemMatrix)
  {
    && StrictlyIncreasing(m.users) && StrictlyIncreasing(m.cars)
    && |m.cells| == |m.users| && forall i :: 0 <= i < |m.cells| ==> |m.cells[i]| == |m.cars|
  }

  /** `pivot_table(index='userID', columns='carID', values='Rating').fillna(0)`. */
  function PivotTable(ratings: seq<Rating>): (m: UserItemMatrix)
    ensures WellShaped(m)
    ensures forall u :: u in m.users <==> u in UserIds(ratings)
    ensures forall c :: c in m.cars <==> c in RatedCarIds(ratings)
  {
    var users := SortedDistinct(UserIds(ratings));
    var cars := SortedDistinct(RatedCarIds(ratings));
    UserItemMatrix(users, cars,
      seq(|users|, i requires 0 <= i < |users| =>
        seq(|cars|, j requires 0 <= j < |cars| => MeanOrZero(ratings, users[i], cars[j]))))
  }

  /**
   * Through the two mappers, the cell of user u and car c is the mean of u's
   * ratings of c, and 0 when u never rated c.
   */
  lemma CellIsMean(ratings: seq<Rating>, u: UserId, c: CarId)
    requires u in UserIds(ratings) && c in RatedCarIds(ratings)
    ensures var m := PivotTable(ratings);
      && u in Mapper(m.users) && c in Mapper(m.cars)
      && m.cells[Mapper(m.users)[u]][Mapper(m.cars)[c]] == MeanOrZero(ratings, u, c)
      && ((forall k :: 0 <= k < |ratings| ==> !(ratings[k].user == u && ratings[k].car == c)) ==>
            m.cells[Mapper(m.users)[u]][Mapper(m.cars)[c]] == 0.0)
  {
  }

  /** Every cell is non-negative when every rating is: the factorisation then accepts the matrix. */
  lemma NonNegativeRatingsGiveNonNegativeMatrix(ratings: seq<Rating>)
    requires forall k :: 0 <= k < |ratings| ==> 0.0 <= ratings[k].value
    ensures NonNegative(PivotTable(ratings))
  {
    var m := PivotTable(ratings);
    forall i, j | 0 <= i < |m.cells| && 0 <= j < |m.cells[i]| ensures 0.0 <= m.cells[i][j] {
      var vs := PairValues(ratings, m.users[i], m.cars[j]);
      if |vs| > 0 {
        forall v | v in vs ensures 0.0 <= v {
          var k :| 0 <= k < |ratings| && ratings[k] == Rating(m.users[i], m.cars[j], v);
        }
        NonNegativeSum(vs);
        MeanLowerBound(vs);
      }
    }
  }

  lemma {:induction false} NonNegativeSum(vs: seq<real>)
    requires forall v :: v in vs ==> 0.0 <= v
    ensures 0.0 <= Sum(vs)
  {
    if vs != [] {
      assert vs[0] in vs && forall v :: v in vs[1..] ==> v in vs;
      NonNegativeSum(vs[1..]);
    }
  }

  lemma MeanLowerBound(vs: seq<real>)
    requires |vs| > 0 && 0.0 <= Sum(vs)
    ensures 0.0 <= Mean(vs)
  {
  }

  /** sklearn's NMF refuses a matrix with a negative entry. */
  ghost predicate NonNegative(m: UserItemMatrix)
  {
    forall i, j :: 0 <= i < |m.cells| && 0 <= j < |m.cells[i]| ==> 0.0 <= m.cells[i][j]
  }

  /** The cars user u rated: `ratings_data[ratings_data['userID'] == user_id]['carID']`. */
  function RatedBy(ratings: seq<Rating>, u: UserId): (r: set<CarId>)
    ensures forall c :: c in r <==> exists k :: 0 <= k < |ratings| && ratings[k].user == u && ratings[k].car == c
  {
    set k | 0 <= k < |ratings| && ratings[k].user == u :: ratings[k].car
  }

  /** `predicted[i][j]` is the factorisation's predicted rating of user row i for car column j. */
  ghost predicate IsPredictionFor(predicted: seq<seq<real>>, m: UserItemMatrix)
  {
    |predicted| == |m.users| && forall i :: 0 <= i < |predicted| ==> |predicted[i]| == |m.cars|
  }

  /** The predicted scores of one user over the matrix columns, rated cars removed, normalised (before truncation). */
  function Candidates(m: UserItemMatrix, predictedRow: seq<real>, ratings: seq<Rating>, u: UserId): Series
    requires |predictedRow| == |m.cars|
  {
    Normalize(Without(Zip(m.cars, predictedRow), RatedBy(ratings, u)))
  }

  /** The candidates are exactly the matrix columns the user did not rate. */
  lemma CandidatesIds(m: UserItemMatrix, predictedRow: seq<real>, ratings: seq<Rating>, u: UserId, x: CarId)
    requires |predictedRow| == |m.cars|
    ensures HasId(Candidates(m, predictedRow, ratings, u), x) <==> x in m.cars && x !in RatedBy(ratings, u)
  {
    var scores := Zip(m.cars, predictedRow);
    var w := Without(scores, RatedBy(ratings, u));
    WithoutIds(scores, RatedBy(ratings, u), x);
    HasIdIds(w, x);
    HasIdIds(Normalize(w), x);
    HasIdIds(scores, x);
    assert Ids(scores) == m.cars;
  }

  /** `CollaborativeRecommender.recommend(user_id, n)`: empty for an unknown user. */
  function CollaborativeScores(m: UserItemMatrix, userMapper: map<UserId, nat>, predicted: seq<seq<real>>,
                               ratings: seq<Rating>, u: UserId, n: nat): Series
    requires IsPredictionFor(predicted, m)
    requires forall v :: v in userMapper ==> userMapper[v] < |m.users|
  {
    if u !in userMapper then []
    else TopN(Candidates(m, predicted[userMapper[u]], ratings, u), n)
  }

  /**
   * On the fitted matrix, a user with no rating gets an empty series; any other
   * user gets at most n of the cars they did not rate, scores in [0, 1),
   * non-increasing, n best candidates of their predicted row.
   */
  lemma CollaborativeScoresProperties(ratings: seq<Rating>, predicted: seq<seq<real>>, u: UserId, n: nat)
    requires IsPredictionFor(predicted, PivotTable(ratings))
    ensures forall v :: v in Mapper(PivotTable(ratings).users) ==> Mapper(PivotTable(ratings).users)[v] < |PivotTable(ratings).users|
    ensures var m := PivotTable(ratings);
      var r := CollaborativeScores(m, Mapper(m.users), predicted, ratings, u, n);
      && ((forall k :: 0 <= k < |ratings| ==> ratings[k].user != u) ==> r == [])
      && (forall k :: 0 <= k < |ratings| && ratings[k].user == u ==> !HasId(r, ratings[k].car))
      && |r| <= n && InUnitRange(r) && Ranking.SortedDesc(r, Score)
      && (u in m.users ==> Ranking.IsTop(Candidates(m, predicted[Mapper(m.users)[u]], ratings, u), r, n, Score))
  {
    var m := PivotTable(ratings);
    var mapper := Mapper(m.users);
    var r := CollaborativeScores(m, mapper, predicted, ratings, u, n);
    if (forall k :: 0 <= k < |ratings| ==> ratings[k].user != u) {
      assert u !in UserIds(ratings);
    }
    if u in mapper {
      var c := Candidates(m, predicted[mapper[u]], ratings, u);
      TopNProperties(c, n);
      NormalizeInUnitRange(Without(Zip(m.cars, predicted[mapper[u]]), RatedBy(ratings, u)));
      TopNInUnitRange(c, n);
      forall k | 0 <= k < |ratings| && ratings[k].user == u ensures !HasId(r, ratings[k].car) {
        CandidatesIds(m, predicted[mapper[u]], ratings, u, ratings[k].car);
        HasIdIds(r, ratings[k].car);
        HasIdIds(c, ratings[k].car);
      }
    }
  }

  class CollaborativeRecommender {
    var ratingsData: seq<Rating>
    var userItemMatrix: Option<UserItemMatrix>
    var userMapper: Option<map<UserId, nat>>
    var carMapper: Option<map<CarId, nat>>
    /** Stands for the fitted `nmf_model`: row i is `np.dot(transform(matrix row i), components_)`. */
    var nmfModel: Option<seq<seq<real>>>

    constructor (ratingsData: seq<Rating>)
      ensures this.ratingsData == ratingsData
      ensures userItemMatrix == None && userMapper == None && carMapper == None && nmfModel == None
    {
      this.ratingsData := ratingsData;
      userItemMatrix, userMapper, carMapper, nmfModel := None, None, None, None;
    }

    /** Every fitted field is assigned and derived from the rating log. */
    ghost predicate Fitted()
      reads this
    {
      && userItemMatrix == Some(PivotTable(ratingsData))
      && userMapper == Some(Mapper(userItemMatrix.value.users))
      && carMapper == Some(Mapper(userItemMatrix.value.cars))
      && nmfModel.Some? && IsPredictionFor(nmfModel.value, userItemMatrix.value)
    }

    /**
     * `fit`: pivots the log and builds both mappers, then fits the
     * factorisation, which fails on an empty matrix or a negative entry; the
     * recommender is then left without a fitted model.
     */
    method Fit(predicted: seq<seq<real>>) returns (ok: bool)
      requires IsPredictionFor(predicted, PivotTable(ratingsData))
      modifies this
      ensures ratingsData == old(ratingsData)
      ensures userItemMatrix == Some(PivotTable(ratingsData))
      ensures userMapper == Some(Mapper(PivotTable(ratingsData).users))
      ensures carMapper == Some(Mapper(PivotTable(ratingsData).cars))
      ensures ok <==> ratingsData != [] && NonNegative(PivotTable(ratingsData))
      ensures nmfModel == if ok then Some(predicted) else None
      ensures ok <==> Fitted()
    {
      var m := PivotTable(ratingsData);
      userItemMatrix := Some(m);
      userMapper := Some(Mapper(m.users));
      carMapper := Some(Mapper(m.cars));
      ok := ratingsData != [] && forall i, j :: 0 <= i < |m.cells| && 0 <= j < |m.cells[i]| ==> 0.0 <= m.cells[i][j];
      nmfModel := if ok then Some(predicted) else None;
    }

    method Recommend(userId: UserId, n: nat) returns (r: Series)
      requires Fitted()
      ensures r == CollaborativeScores(userItemMatrix.value, userMapper.value, nmfModel.value, ratingsData, userId, n)
      ensures (forall k :: 0 <= k < |ratingsData| ==> ratingsData[k].user != userId) ==> r == []
      ensures forall k :: 0 <= k < |ratingsData| && ratingsData[k].user == userId ==> !HasId(r, ratingsData[k].car)
      ensures |r| <= n && InUnitRange(r) && Ranking.SortedDesc(r, Score)
    {
      CollaborativeScoresProperties(ratingsData, nmfModel.value, userId, n);
      if userId !in userMapper.value {
        return [];
      }
      var m := userItemMatrix.value;
      var userIdx := userMapper.value[userId];
      var scores := Zip(m.cars, nmfModel.value[userIdx]);
      scores := Without(scores, RatedBy(ratingsData, userId));
      scores := Normalize(scores);
      r := TopN(scores, n);
    }
  }
}
