/**
 * The hybrid recommender: it owns the two tables and one recommender of each
 * kind, blends their top-10 series and maps carIDs back to titles.
 */
module Hybrid {
  import opened Wrappers
  import opened Tables
  import opened ScoreSeries
  import opened Keys
  import Ranking
  import opened ContentBased
  import opened Collaborative

  /** The content path returned the Python list `[]` (unknown seed title), which `Series.align` rejects. */
  datatype HybridError = ContentResultNotASeries

  /** The labels of an outer alignment: every label of either series, once, ascending. */
  function AlignedIds(a: Series, b: Series): (keys: seq<CarId>)
    ensures StrictlyIncreasing(keys)
    ensures forall x :: x in keys <==> HasId(a, x) || HasId(b, x)
    ensures |keys| <= |a| + |b|
  {
    var keys := SortedDistinct(Ids(a) + Ids(b));
    forall x ensures x in keys <==> HasId(a, x) || HasId(b, x) {
      HasIdIds(a, x);
      HasIdIds(b, x);
    }
    keys
  }

  /** `s` re-indexed on `keys`, a missing label scoring 0 (`fill_value=0`). */
  function Reindex(s: Series, keys: seq<CarId>): (r: Series)
    ensures Ids(r) == keys
  {
    seq(|keys|, i requires 0 <= i < |keys| => Entry(keys[i], Lookup(s, keys[i])))
  }

  /** `a.align(b, fill_value=0)`. */
  function Align(a: Series, b: Series): (Series, Series)
  {
    var keys := AlignedIds(a, b);
    (Reindex(a, keys), Reindex(b, keys))
  }

  /** A score times a weight. */
  function Weight(w: real, x: real): real { w * x }

  /** The convex combination `alpha * cf + (1 - alpha) * cb` of one collaborative and one content score. */
  function Mix(alpha: real, cf: real, cb: real): real
  {
    Weight(alpha, cf) + Weight(1.0 - alpha, cb)
  }

  /** `alpha * a + (1 - alpha) * b` on two series with the same labels. */
  function Blend(a: Series, b: Series, alpha: real): Series
    requires Ids(a) == Ids(b)
  {
    seq(|a|, i requires 0 <= i < |a| => Entry(a[i].id, Mix(alpha, a[i].score, b[i].score)))
  }

  /** The hybrid score of every aligned label, before truncation. */
  function Blended(cf: Series, cb: Series, alpha: real): Series
  {
    var (a, b) := Align(cf, cb);
    Blend(a, b, alpha)
  }

  /** On an aligned label, the aligned series scores what the original scores (0 when it lacks the label). */
  lemma AlignKeepsScores(cf: Series, cb: Series, x: CarId)
    requires HasId(cf, x) || HasId(cb, x)
    ensures Lookup(Align(cf, cb).0, x) == Lookup(cf, x)
    ensures Lookup(Align(cf, cb).1, x) == Lookup(cb, x)
  {
    var keys := AlignedIds(cf, cb);
    var (a, b) := Align(cf, cb);
    var i :| 0 <= i < |keys| && keys[i] == x;
    assert Ids(a)[i] == x && Ids(b)[i] == x;
    forall j | 0 <= j < i ensures a[j].id != x && b[j].id != x {
      assert Ids(a)[j] == keys[j] && Ids(b)[j] == keys[j];
    }
  }

  /** The blended labels are the union of both label sets, each once, ascending. */
  lemma BlendedIds(cf: Series, cb: Series, alpha: real)
    ensures StrictlyIncreasing(Ids(Blended(cf, cb, alpha)))
    ensures |Blended(cf, cb, alpha)| <= |cf| + |cb|
    ensures forall x :: HasId(Blended(cf, cb, alpha), x) <==> HasId(cf, x) || HasId(cb, x)
  {
    var keys := AlignedIds(cf, cb);
    var (a, b) := Align(cf, cb);
    var h := Blended(cf, cb, alpha);
    assert Ids(h) == keys by {
      assert forall i :: 0 <= i < |h| ==> h[i].id == a[i].id == keys[i];
    }
    forall x ensures HasId(h, x) <==> HasId(cf, x) || HasId(cb, x) {
      HasIdIds(h, x);
    }
  }

  /** Each blended score is `alpha * cf + (1 - alpha) * cb`, a missing score counting as 0. */
  lemma BlendedScores(cf: Series, cb: Series, alpha: real)
    ensures forall e :: e in Blended(cf, cb, alpha) ==> e.score == Mix(alpha, Lookup(cf, e.id), Lookup(cb, e.id))
  {
    var keys := AlignedIds(cf, cb);
    var (a, b) := Align(cf, cb);
    var h := Blended(cf, cb, alpha);
    forall e | e in h ensures e.score == Mix(alpha, Lookup(cf, e.id), Lookup(cb, e.id)) {
      var i :| 0 <= i < |h| && h[i] == e;
      assert keys[i] == e.id && a[i].score == Lookup(cf, e.id) && b[i].score == Lookup(cb, e.id);
    }
  }

  lemma MixWithZero(alpha: real, cb: real)
    ensures Mix(alpha, 0.0, cb) == Weight(1.0 - alpha, cb)
  {
  }

  /** An empty collaborative series (unknown user) leaves exactly the content labels. */
  lemma BlendWithoutCollaborativeIds(cf: Series, cb: Series, alpha: real)
    requires cf == []
    ensures forall x :: HasId(Blended(cf, cb, alpha), x) <==> HasId(cb, x)
  {
    BlendedIds(cf, cb, alpha);
  }

  /**
   * A label the collaborative series lacks scores `(1 - alpha) * cb`; with an
   * empty collaborative series (unknown user) that is every label.
   */
  lemma BlendWithoutCollaborative(cf: Series, cb: Series, alpha: real)
    ensures forall e :: e in Blended(cf, cb, alpha) && !HasId(cf, e.id) ==> e.score == Weight(1.0 - alpha, Lookup(cb, e.id))
    ensures cf == [] ==> forall e :: e in Blended(cf, cb, alpha) ==> e.score == Weight(1.0 - alpha, Lookup(cb, e.id))
  {
    BlendedScores(cf, cb, alpha);
    forall e | e in Blended(cf, cb, alpha) && !HasId(cf, e.id) ensures e.score == Weight(1.0 - alpha, Lookup(cb, e.id)) {
      ContentOnlyScore(cf, cb, alpha, e);
    }
  }

  lemma ContentOnlyScore(cf: Series, cb: Series, alpha: real, e: Entry)
    requires !HasId(cf, e.id)
    requires e.score == Mix(alpha, Lookup(cf, e.id), Lookup(cb, e.id))
    ensures e.score == Weight(1.0 - alpha, Lookup(cb, e.id))
  {
    MixWithZero(alpha, Lookup(cb, e.id));
  }

  /** alpha = 1 keeps the collaborative scores only, alpha = 0 the content scores only. */
  lemma BlendExtremes(cf: Series, cb: Series)
    ensures forall e :: e in Blended(cf, cb, 1.0) ==> e.score == Lookup(cf, e.id)
    ensures forall e :: e in Blended(cf, cb, 0.0) ==> e.score == Lookup(cb, e.id)
  {
    BlendedScores(cf, cb, 1.0);
    BlendedScores(cf, cb, 0.0);
  }

  /** `HybridRecommender.recommend` given the two top-10 series; None is the content path's `[]`. */
  function HybridScores(cf: Series, cb: Option<Series>, n: nat, alpha: real): Result<Series, HybridError>
  {
    match cb
    case None => Failure(ContentResultNotASeries)
    case Some(b) => Success(TopN(Blended(cf, b, alpha), n))
  }

  /**
   * A hybrid result has at most n entries, non-increasing, each a blend of the
   * two inputs on a label of one of them, and n best blended entries.
   */
  lemma HybridScoresProperties(cf: Series, cb: Series, n: nat, alpha: real)
    ensures var r := HybridScores(cf, Some(cb), n, alpha).value;
      && Ranking.IsTop(Blended(cf, cb, alpha), r, n, Score)
      && |r| <= n
      && (forall x :: HasId(r, x) ==> HasId(cf, x) || HasId(cb, x))
      && (forall e :: e in r ==> e.score == Mix(alpha, Lookup(cf, e.id), Lookup(cb, e.id)))
  {
    var h := Blended(cf, cb, alpha);
    var r := TopN(h, n);
    TopNProperties(h, n);
    BlendedIds(cf, cb, alpha);
    BlendedScores(cf, cb, alpha);
    forall x | HasId(r, x) ensures HasId(cf, x) || HasId(cb, x) {
      HasIdIds(r, x);
      HasIdIds(h, x);
    }
  }

  /** A catalog row joined with its score. */
  datatype TitledScore = TitledScore(id: CarId, title: string, score: real)

  function TitledScoreOf(t: TitledScore): real { t.score }

  /** `df.join(score_series.rename('Score'), how='inner')`: catalog rows, in catalog order, whose carID the series has. */
  function Join(cars: seq<Car>, s: Series): (r: seq<TitledScore>)
    ensures forall t :: t in r <==> exists i :: 0 <= i < |cars| && HasId(s, cars[i].id)
                                              && t == TitledScore(cars[i].id, cars[i].title, Lookup(s, cars[i].id))
    ensures |r| <= |cars|
  {
    if cars == [] then []
    else
      var rest := Join(cars[1..], s);
      assert forall i :: 1 <= i < |cars| ==> cars[i] == cars[1..][i - 1];
      if HasId(s, cars[0].id) then [TitledScore(cars[0].id, cars[0].title, Lookup(s, cars[0].id))] + rest
      else rest
  }

  /**
   * The inner join keeps each matching catalog row once, in catalog order:
   * the result is the catalog read at the strictly increasing positions
   * `idx`, and `idx` holds exactly the rows whose carID the series has.
   */
  lemma {:induction false} JoinSelects(cars: seq<Car>, s: Series) returns (idx: seq<int>)
    ensures Keys.StrictlyIncreasing(idx) && |idx| == |Join(cars, s)|
    ensures forall k :: 0 <= k < |idx| ==>
              0 <= idx[k] < |cars| && Join(cars, s)[k] == TitledScore(cars[idx[k]].id, cars[idx[k]].title, Lookup(s, cars[idx[k]].id))
    ensures forall i :: 0 <= i < |cars| ==> (i in idx <==> HasId(s, cars[i].id))
  {
    if cars == [] {
      idx := [];
    } else {
      var rows := seq(|cars|, i requires 0 <= i < |cars| => TitledScore(cars[i].id, cars[i].title, Lookup(s, cars[i].id)));
      var tail := Join(cars[1..], s);
      var rest := JoinSelects(cars[1..], s);
      forall k | 0 <= k < |rest| ensures tail[k] == rows[1..][rest[k]] {
        assert cars[1..][rest[k]] == cars[rest[k] + 1];
      }
      idx := SelectStep(rows, tail, rest, HasId(s, cars[0].id), Join(cars, s));
      forall i | 1 <= i < |cars| ensures i in idx <==> HasId(s, cars[i].id) {
        assert cars[1..][i - 1] == cars[i];
      }
    }
  }

  /** `id_to_title(score_series, top_n)`; a `top_n` of None or 0 is falsy and skips sorting and truncation. */
  function TitleScores(cars: seq<Car>, s: Series, topN: Option<nat>): seq<TitledScore>
  {
    var merged := Join(cars, s);
    if topN.Some? && topN.value != 0 then Ranking.Top(merged, topN.value, TitledScoreOf) else merged
  }

  /**
   * Every output row is a catalog row whose carID the series has, with the
   * series' score. Without truncation every such catalog row is there; with
   * `top_n` there are at most `top_n` rows, non-increasing, n best of the join.
   */
  lemma TitleScoresProperties(cars: seq<Car>, s: Series, topN: Option<nat>)
    ensures forall t :: t in TitleScores(cars, s, topN) ==>
              HasId(s, t.id) && t.score == Lookup(s, t.id)
              && exists i :: 0 <= i < |cars| && cars[i].id == t.id && cars[i].title == t.title
    ensures !(topN.Some? && topN.value != 0) ==>
              forall i :: 0 <= i < |cars| && HasId(s, cars[i].id) ==>
                TitledScore(cars[i].id, cars[i].title, Lookup(s, cars[i].id)) in TitleScores(cars, s, topN)
    ensures topN.Some? && topN.value != 0 ==>
              && |TitleScores(cars, s, topN)| <= topN.value
              && Ranking.IsTop(Join(cars, s), TitleScores(cars, s, topN), topN.value, TitledScoreOf)
  {
    var merged := Join(cars, s);
    if topN.Some? && topN.value != 0 {
      Ranking.TopIsTop(merged, topN.value, TitledScoreOf);
      forall t | t in TitleScores(cars, s, topN) ensures t in merged {
        Ranking.TopFromInput(merged, topN.value, TitledScoreOf, t);
      }
    }
  }

  class HybridRecommender {
    var carsData: seq<Car>
    var ratingsData: seq<Rating>
    var cbModel: ContentBasedRecommender
    var cfModel: CollaborativeRecommender

    /** The sub-recommenders work on the recommender's own tables. */
    ghost predicate Valid()
      reads this, cbModel, cfModel
    {
      cbModel.carsData == carsData && cfModel.ratingsData == ratingsData
    }

    ghost predicate Fitted()
      reads this, cbModel, cfModel
    {
      Valid() && cbModel.Fitted() && cfModel.Fitted()
    }

    /** The tables are parameters: reading the two CSV files is outside the model. */
    constructor (carsData: seq<Car>, ratingsData: seq<Rating>)
      ensures Valid() && fresh(cbModel) && fresh(cfModel)
      ensures this.carsData == carsData && this.ratingsData == ratingsData
      ensures cbModel.similarity == None && cbModel.carIndices == None
      ensures cfModel.userItemMatrix == None && cfModel.userMapper == None && cfModel.carMapper == None
      ensures cfModel.nmfModel == None
    {
      this.carsData := carsData;
      this.ratingsData := ratingsData;
      cbModel := new ContentBasedRecommender(carsData);
      cfModel := new CollaborativeRecommender(ratingsData);
    }

    /**
     * `fit`: fits the content model, then the collaborative one. The catalog
     * is shared with the content model, so its filled features show here too.
     */
    method Fit(similarity: seq<seq<real>>, predicted: seq<seq<real>>) returns (ok: bool)
      requires Valid()
      requires IsSimilarityFor(similarity, carsData)
      requires IsPredictionFor(predicted, PivotTable(ratingsData))
      modifies this, cbModel, cfModel
      ensures Valid() && cbModel == old(cbModel) && cfModel == old(cfModel)
      ensures carsData == FillFeatures(old(carsData)) && ratingsData == old(ratingsData)
      ensures cbModel.Fitted() && cbModel.similarity == Some(similarity)
      ensures cfModel.userItemMatrix == Some(PivotTable(ratingsData))
      ensures cfModel.userMapper == Some(Mapper(PivotTable(ratingsData).users))
      ensures cfModel.carMapper == Some(Mapper(PivotTable(ratingsData).cars))
      ensures ok <==> ratingsData != [] && NonNegative(PivotTable(ratingsData))
      ensures cfModel.nmfModel == if ok then Some(predicted) else None
      ensures ok <==> Fitted()
    {
      cbModel.Fit(similarity);
      carsData := cbModel.carsData;
      ok := cfModel.Fit(predicted);
    }

    /**
     * `recommend(user_id, car, n, alpha)`: blends the collaborative and content
     * top-10 series; an unknown seed title fails at the alignment.
     */
    method Recommend(userId: UserId, car: string, n: nat, alpha: real) returns (r: Result<Series, HybridError>)
      requires Fitted()
      ensures var cf := CollaborativeScores(cfModel.userItemMatrix.value, cfModel.userMapper.value,
                                            cfModel.nmfModel.value, ratingsData, userId, 10);
              var cb := ContentScores(carsData, cbModel.carIndices.value, cbModel.similarity.value, car, 10);
              && r == HybridScores(cf, cb, n, alpha)
              && (r.Failure? <==> forall i :: 0 <= i < |carsData| ==> carsData[i].title != car)
              && (r.Success? ==>
                    && |r.value| <= n && Ranking.SortedDesc(r.value, Score)
                    && |cf| <= 10 && |cb.value| <= 10
                    && (forall x :: HasId(r.value, x) ==> HasId(cf, x) || HasId(cb.value, x))
                    && (forall e :: e in r.value ==>
                          e.score == Mix(alpha, Lookup(cf, e.id), Lookup(cb.value, e.id)))
                    && ((forall k :: 0 <= k < |ratingsData| ==> ratingsData[k].user != userId) ==>
                          forall e :: e in r.value ==> e.score == Weight(1.0 - alpha, Lookup(cb.value, e.id))))
    {
      var cfScores := cfModel.Recommend(userId, 10);
      var cbScores := cbModel.Recommend(car, 10);
      if cbScores.None? {
        return Failure(ContentResultNotASeries);
      }
      var (a, b) := Align(cfScores, cbScores.value);
      var hybrid := Blend(a, b, alpha);
      r := Success(TopN(hybrid, n));
      HybridScoresProperties(cfScores, cbScores.value, n, alpha);
      if cfScores == [] {
        forall e | e in r.value ensures e.score == Weight(1.0 - alpha, Lookup(cbScores.value, e.id)) {
          ContentOnlyScore(cfScores, cbScores.value, alpha, e);
        }
      }
    }

    /** `id_to_title(score_series, top_n)` on the recommender's catalog. */
    method IdToTitle(scores: Series, topN: Option<nat>) returns (merged: seq<TitledScore>)
      ensures merged == TitleScores(carsData, scores, topN)
      ensures forall t :: t in merged ==>
                HasId(scores, t.id) && t.score == Lookup(scores, t.id)
                && exists i :: 0 <= i < |carsData| && carsData[i].id == t.id && carsData[i].title == t.title
      ensures topN.Some? && topN.value != 0 ==> |merged| <= topN.value && Ranking.SortedDesc(merged, TitledScoreOf)
    {
      merged := Join(carsData, scores);
      if topN.Some? && topN.value != 0 {
        merged := Ranking.Top(merged, topN.value, TitledScoreOf);
      }
      TitleScoresProperties(carsData, scores, topN);
    }
  }
}
