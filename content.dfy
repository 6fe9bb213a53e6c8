/**
 * The content-based recommender: a catalog, a title index over its rows and
 * the pairwise similarity of its feature texts. A query looks the seed title
 * up, scores every catalog car by its similarity to the seed, drops the seed,
 * normalises and keeps the n best.
 */
module ContentBased {
  import opened Wrappers
  import opened Tables
  import opened ScoreSeries
  import Ranking

  /** One entry of `car_indices`: a title label and the catalog row it stands for. */
  datatype TitleRow = TitleRow(title: string, row: nat)

  /** `pd.Series(cars_data.index, index=cars_data['Make Model Year'])`, the index being 0 .. |cars| - 1. */
  function TitleIndex(cars: seq<Car>): (r: seq<TitleRow>)
    ensures |r| == |cars| && forall i :: 0 <= i < |cars| ==> r[i] == TitleRow(cars[i].title, i)
  {
    seq(|cars|, i requires 0 <= i < |cars| => TitleRow(cars[i].title, i))
  }

  /** `drop_duplicates()` on the index: drops an entry whose row value was seen before (titles play no part). */
  function DropDuplicates(index: seq<TitleRow>, seen: set<nat>): seq<TitleRow>
  {
    if index == [] then []
    else if index[0].row in seen then DropDuplicates(index[1..], seen)
    else [index[0]] + DropDuplicates(index[1..], seen + {index[0].row})
  }

  /** The values of the title index are distinct row positions. */
  ghost predicate DistinctRows(index: seq<TitleRow>)
  {
    forall i, j :: 0 <= i < j < |index| ==> index[i].row != index[j].row
  }

  /** Dropping duplicate values from an index whose values are distinct and unseen changes nothing. */
  lemma {:induction false} DropDuplicatesDistinct(index: seq<TitleRow>, seen: set<nat>)
    requires DistinctRows(index)
    requires forall i :: 0 <= i < |index| ==> index[i].row !in seen
    ensures DropDuplicates(index, seen) == index
  {
    if index != [] {
      assert forall i :: 1 <= i < |index| ==> index[1..][i - 1] == index[i];
      DropDuplicatesDistinct(index[1..], seen + {index[0].row});
    }
  }

  /**
   * The built index keeps every catalog row, so a repeated title keeps all its
   * rows: `drop_duplicates` removes nothing.
   */
  lemma DuplicateTitlesSurvive(cars: seq<Car>)
    ensures DropDuplicates(TitleIndex(cars), {}) == TitleIndex(cars)
  {
    DropDuplicatesDistinct(TitleIndex(cars), {});
  }

  /** The index built at fit time. */
  function CarIndices(cars: seq<Car>): seq<TitleRow>
  {
    DropDuplicates(TitleIndex(cars), {})
  }

  /**
   * `car in car_indices` and then `car_indices[car]`, taking `iloc[0]` when the
   * label repeats: the row of the first entry labelled `car`, or None.
   */
  function LookupSeed(index: seq<TitleRow>, car: string): (r: Option<nat>)
    ensures r.None? <==> forall k :: 0 <= k < |index| ==> index[k].title != car
    ensures r.Some? ==> exists k :: 0 <= k < |index| && index[k].title == car && index[k].row == r.value
                                    && forall j :: 0 <= j < k ==> index[j].title != car
  {
    if index == [] then None
    else if index[0].title == car then Some(index[0].row)
    else
      assert forall k :: 1 <= k < |index| ==> index[1..][k - 1] == index[k];
      var r := LookupSeed(index[1..], car);
      if r.Some? then
        ghost var k :| 0 <= k < |index[1..]| && index[1..][k].title == car && index[1..][k].row == r.value
                       && forall j :: 0 <= j < k ==> index[1..][j].title != car;
        assert index[k + 1].title == car && index[k + 1].row == r.value;
        r
      else r
  }

  /** The seed row found by lookup is the first catalog row whose title is `car`. */
  lemma SeedIsFirstMatch(cars: seq<Car>, car: string)
    ensures LookupSeed(CarIndices(cars), car).None? <==> forall i :: 0 <= i < |cars| ==> cars[i].title != car
    ensures LookupSeed(CarIndices(cars), car).Some? ==>
      var i := LookupSeed(CarIndices(cars), car).value;
      i < |cars| && cars[i].title == car && forall j :: 0 <= j < i ==> cars[j].title != car
  {
    DuplicateTitlesSurvive(cars);
    var index := TitleIndex(cars);
    assert CarIndices(cars) == index;
    var r := LookupSeed(index, car);
    if r.None? {
      forall i | 0 <= i < |cars| ensures cars[i].title != car {
        assert index[i].title == cars[i].title;
      }
    } else {
      var k :| 0 <= k < |index| && index[k].title == car && index[k].row == r.value
               && forall j :: 0 <= j < k ==> index[j].title != car;
      assert index[k] == TitleRow(cars[k].title, k);
      forall j | 0 <= j < k ensures cars[j].title != car {
        assert index[j].title == cars[j].title;
      }
    }
  }

  /** Every row of the built index is a catalog row. */
  lemma CarIndicesRows(cars: seq<Car>)
    ensures forall k :: 0 <= k < |CarIndices(cars)| ==> CarIndices(cars)[k].row < |cars|
  {
    DuplicateTitlesSurvive(cars);
  }

  /** `similarity[i][j]` is the cosine similarity of the feature vectors of catalog rows i and j. */
  ghost predicate IsSimilarityFor(similarity: seq<seq<real>>, cars: seq<Car>)
  {
    |similarity| == |cars| && forall i :: 0 <= i < |similarity| ==> |similarity[i]| == |cars|
  }

  /** The scores of all catalog cars but the seed, normalised (before truncation). */
  function Candidates(cars: seq<Car>, simRow: seq<real>, seed: nat): Series
    requires seed < |cars| && |simRow| == |cars|
  {
    Normalize(Without(Zip(CarIds(cars), simRow), {cars[seed].id}))
  }

  /**
   * The seed's carID (every entry carrying it) is gone from the candidates and
   * every other catalog carID is there.
   */
  lemma CandidatesIds(cars: seq<Car>, simRow: seq<real>, seed: nat, x: CarId)
    requires seed < |cars| && |simRow| == |cars|
    ensures HasId(Candidates(cars, simRow, seed), x) <==> x in CarIds(cars) && x != cars[seed].id
  {
    var scores := Zip(CarIds(cars), simRow);
    WithoutIds(scores, {cars[seed].id}, x);
    var w := Without(scores, {cars[seed].id});
    HasIdIds(w, x);
    HasIdIds(Normalize(w), x);
    HasIdIds(scores, x);
    assert Ids(scores) == CarIds(cars);
  }

  /** Candidate scores lie in [0, 1). */
  lemma CandidatesInUnitRange(cars: seq<Car>, simRow: seq<real>, seed: nat)
    requires seed < |cars| && |simRow| == |cars|
    ensures InUnitRange(Candidates(cars, simRow, seed))
  {
    NormalizeInUnitRange(Without(Zip(CarIds(cars), simRow), {cars[seed].id}));
  }

  /** `ContentBasedRecommender.recommend(car, n)`; None stands for the Python list `[]` returned for an unknown title. */
  function ContentScores(cars: seq<Car>, index: seq<TitleRow>, similarity: seq<seq<real>>, car: string, n: nat): Option<Series>
    requires IsSimilarityFor(similarity, cars)
    requires forall k :: 0 <= k < |index| ==> index[k].row < |cars|
  {
    match LookupSeed(index, car)
    case None => None
    case Some(idx) => Some(TopN(Candidates(cars, similarity[idx], idx), n))
  }

  /** Row i is the seed for title `car`: the first catalog row with that title. */
  ghost predicate IsSeedRow(cars: seq<Car>, car: string, i: nat)
  {
    i < |cars| && cars[i].title == car && forall j :: 0 <= j < i ==> cars[j].title != car
  }

  /** An unknown title yields no series, a known one yields a series. */
  lemma ContentUnknownTitle(cars: seq<Car>, similarity: seq<seq<real>>, car: string, n: nat)
    requires IsSimilarityFor(similarity, cars)
    ensures forall k :: 0 <= k < |CarIndices(cars)| ==> CarIndices(cars)[k].row < |cars|
    ensures ContentScores(cars, CarIndices(cars), similarity, car, n).None? <==>
              forall i :: 0 <= i < |cars| ==> cars[i].title != car
  {
    CarIndicesRows(cars);
    SeedIsFirstMatch(cars, car);
  }

  /**
   * For the seed row i of a known title the result is the top n of the
   * candidates of row i: at most n entries, scores in [0, 1), non-increasing,
   * n best candidates, and never the seed's carID.
   */
  lemma ContentSeedExcluded(cars: seq<Car>, similarity: seq<seq<real>>, car: string, n: nat, i: nat)
    requires IsSimilarityFor(similarity, cars)
    requires IsSeedRow(cars, car, i)
    ensures forall k :: 0 <= k < |CarIndices(cars)| ==> CarIndices(cars)[k].row < |cars|
    ensures ContentScores(cars, CarIndices(cars), similarity, car, n) == Some(TopN(Candidates(cars, similarity[i], i), n))
    ensures Ranking.IsTop(Candidates(cars, similarity[i], i), TopN(Candidates(cars, similarity[i], i), n), n, Score)
    ensures |TopN(Candidates(cars, similarity[i], i), n)| <= n
    ensures InUnitRange(TopN(Candidates(cars, similarity[i], i), n))
    ensures !HasId(TopN(Candidates(cars, similarity[i], i), n), cars[i].id)
  {
    CarIndicesRows(cars);
    SeedIsFirstMatch(cars, car);
    var seed := LookupSeed(CarIndices(cars), car);
    assert seed.Some?;
    var k := seed.value;
    assert k == i;
    var c := Candidates(cars, similarity[i], i);
    TopNProperties(c, n);
    CandidatesInUnitRange(cars, similarity[i], i);
    CandidatesIds(cars, similarity[i], i, cars[i].id);
    HasIdIds(TopN(c, n), cars[i].id);
    HasIdIds(c, cars[i].id);
    TopNInUnitRange(c, n);
  }

  class ContentBasedRecommender {
    var carsData: seq<Car>
    /** Stands for `tfidf_matrix`: row i of it is what `cosine_similarity(tfidf_matrix[i], tfidf_matrix)` gives. */
    var similarity: Option<seq<seq<real>>>
    var carIndices: Option<seq<TitleRow>>

    constructor (carsData: seq<Car>)
      ensures this.carsData == carsData && similarity == None && carIndices == None
    {
      this.carsData := carsData;
      similarity := None;
      carIndices := None;
    }

    /** Both fitted fields are assigned and agree with the catalog. */
    ghost predicate Fitted()
      reads this
    {
      && similarity.Some? && IsSimilarityFor(similarity.value, carsData)
      && carIndices == Some(CarIndices(carsData))
      && forall k :: 0 <= k < |carIndices.value| ==> carIndices.value[k].row < |carsData|
    }

    /** `fit`: fills missing features in the recommender's own copy, keeps the similarity, builds the title index. */
    method Fit(similarity: seq<seq<real>>)
      requires IsSimilarityFor(similarity, carsData)
      modifies this
      ensures carsData == FillFeatures(old(carsData))
      ensures this.similarity == Some(similarity) && carIndices == Some(CarIndices(carsData))
      ensures Fitted()
    {
      carsData := FillFeatures(carsData);
      this.similarity := Some(similarity);
      carIndices := Some(DropDuplicates(TitleIndex(carsData), {}));
      CarIndicesRows(carsData);
    }

    method Recommend(car: string, n: nat) returns (r: Option<Series>)
      requires Fitted()
      ensures r == ContentScores(carsData, carIndices.value, similarity.value, car, n)
      ensures r.None? <==> forall i :: 0 <= i < |carsData| ==> carsData[i].title != car
      ensures forall i: nat :: IsSeedRow(carsData, car, i) ==>
                && r == Some(TopN(Candidates(carsData, similarity.value[i], i), n))
                && |r.value| <= n && InUnitRange(r.value) && Ranking.SortedDesc(r.value, Score)
                && !HasId(r.value, carsData[i].id)
    {
      ContentUnknownTitle(carsData, similarity.value, car, n);
      var seed := LookupSeed(carIndices.value, car);
      if seed.None? {
        return None;
      }
      var idx := seed.value;
      var scores := Zip(CarIds(carsData), similarity.value[idx]);
      var seedId := carsData[idx].id;
      scores := Without(scores, {seedId});
      scores := Normalize(scores);
      assert scores == Candidates(carsData, similarity.value[idx], idx);
      r := Some(TopN(scores, n));
      forall i: nat | IsSeedRow(carsData, car, i)
        ensures r == Some(TopN(Candidates(carsData, similarity.value[i], i), n))
        ensures |r.value| <= n && InUnitRange(r.value) && Ranking.SortedDesc(r.value, Score)
        ensures !HasId(r.value, carsData[i].id)
      {
        ContentSeedExcluded(carsData, similarity.value, car, n, i);
      }
    }
  }
}
