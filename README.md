# Hybrid car recommender — a Dafny model of its score-series pipeline

The repository recommends cars in three ways, from `recommend.py`. A
content-based recommender scores catalog cars by how similar their feature
text is to a seed car. A collaborative recommender scores them by the ratings
a non-negative matrix factorisation predicts for a user. A hybrid recommender
blends the two. This project models everything those classes do around the
library calls. That means the seed lookup, dropping the seed, min-max
normalisation, `sort_values(...).head(n)`, the pivoted user-item matrix and
its index mappers, dropping already-rated cars, the zero-filled alignment,
the convex blend, the carID-to-title join, and the Unfit → Fit state of each
class.

A score series (a pandas Series indexed by `carID`) is a `seq<Entry>` of
`(id, score)` pairs in index order, with scores as `real`. The model takes the
library's numeric outputs as inputs:

- the content recommender's `Fit` receives the pairwise cosine-similarity
  matrix of the TF-IDF vectors (row `idx` is what line 33 computes);
- the collaborative recommender's `Fit` receives the factorisation's predicted
  ratings, one row per matrix user (row `i` is what lines 67-71 compute for
  that user).

Modules: `Wrappers` (Option, Result), `Ranking` (descending sort and top-n,
generic in the ranking key), `Keys` (sorted distinct index labels and the
label-to-position mappers), `Tables` (catalog and rating rows), `ScoreSeries`
(lookup, filtering, normalisation, truncation), `ContentBased`,
`Collaborative` and `Hybrid`, one per recommender class.

Behaviour of the code worth spelling out:

- Line 18's `drop_duplicates` removes repeated row positions, and there are none, so every catalog row stays in the title index, repeated titles included. A title lookup takes the first catalog row with that title, compared character for character.
- The sort is not stable, so the order of equal scores is unspecified. Only facts about the sort that do not depend on tie order are proved (`Ranking.IsTop`).
- The pivot table averages duplicate (user, car) ratings. Its rows and columns are sorted by id.
- An unknown seed title makes the content path return a list. Alignment then fails, and the hybrid result is `Failure`. An unknown user gives an empty collaborative series, and every hybrid score is then `(1 - alpha) * cb`.
- `alpha` is not range-checked. The hybrid output is a score series indexed by carID.
- Only the collaborative series excludes rated cars, and only the content series excludes the seed. A hybrid result can therefore hold a car the user rated (from the content series) or the seed car (from the collaborative series).
- Fitting the collaborative model fails when the rating log is empty or a matrix cell is negative, because the factorisation rejects such a matrix. An empty catalog makes the TF-IDF vocabulary fail; that step is outside the model.

## Model

| member | source | states |
|---|---|---|
| Ranking.Sort | recommend.py:40 | the result is a permutation of the input (same multiset) in non-increasing key order |
| Ranking.TopIsTop | recommend.py:40 | sort-then-head keeps min(n, length) elements of the input, non-increasing, and no element left out has a larger key than one kept |
| ScoreSeries.Lookup | recommend.py:108 | the score of the first entry with the label, and 0 (the fill value) when no entry has it |
| ScoreSeries.Without | recommend.py:75 | an entry survives exactly when it was in the series and its label is not excluded, and it occurs as often as in the series; length does not grow |
| ScoreSeries.WithoutSelects | recommend.py:75 | the boolean mask reads the series at strictly increasing positions, exactly those whose label is not excluded, so each kept entry appears once and in order |
| ScoreSeries.WithoutIds | recommend.py:37 | after dropping, a label is present exactly when it was present and is not a dropped label |
| ScoreSeries.MinScore | recommend.py:39 | `min()` of a non-empty series is one of its scores and is at most every score |
| ScoreSeries.MaxScore | recommend.py:39 | `max()` of a non-empty series is one of its scores and is at least every score |
| ScoreSeries.NormalizeRange | recommend.py:39 | every min-max normalised score lies in [0, 1) |
| ScoreSeries.NormalizeMinIsZero | recommend.py:39 | an entry holding the minimum score normalises to 0 |
| ScoreSeries.NormalizeMonotone | recommend.py:77 | normalisation preserves order: s_i <= s_j implies norm_i <= norm_j, and likewise for < |
| ScoreSeries.TopNProperties | recommend.py:78 | `sort_values(ascending=False).head(n)` has at most n entries, all from the series, non-increasing, and they are n largest-scoring entries |
| Tables.FillFeatures | recommend.py:15 | `fillna('')` keeps ids and titles and turns each missing feature text into the empty string |
| ContentBased.DuplicateTitlesSurvive | recommend.py:18 | `drop_duplicates` on the title index removes nothing, so every row of a repeated title stays |
| ContentBased.LookupSeed | recommend.py:28-31 | None exactly when no index entry has the title; otherwise the row of the first entry with that title |
| ContentBased.SeedIsFirstMatch | recommend.py:28-31 | a title absent from the catalog finds no seed; otherwise the seed is the first catalog row with that title |
| ContentBased.CandidatesIds | recommend.py:33-39 | before truncation the seed's carID is absent and every other catalog carID is present |
| ContentBased.ContentUnknownTitle | recommend.py:28 | the content result is None (the list `[]`) exactly when no catalog title equals the query |
| ContentBased.ContentSeedExcluded | recommend.py:33-40 | for the seed row, the result is the top n of the candidates: at most n entries, in [0, 1), n best candidates, and not the seed's carID |
| ContentBased.ContentBasedRecommender.constructor | recommend.py:8-11 | keeps the catalog; the similarity and the title index start unset |
| ContentBased.ContentBasedRecommender.Fit | recommend.py:13-18 | fills missing features in its own catalog copy, stores the similarity, builds the title index |
| ContentBased.ContentBasedRecommender.Recommend | recommend.py:20-40 | requires the fitted state; returns None exactly for an unknown title; otherwise at most n entries, scores in [0, 1), non-increasing, and never the seed's carID |
| Keys.SortedDistinct | recommend.py:53 | the pivot index labels are strictly ascending and are exactly the ids that occur |
| Keys.Mapper | recommend.py:55-56 | `enumerate` mapper: its keys are exactly the labels, each maps to its position, and every position 0 .. count-1 is hit (a bijection) |
| Collaborative.PairValuesSelects | recommend.py:53 | the values averaged for a cell are the log's values at strictly increasing positions, exactly the positions of that user's ratings of that car, so each rating counts once |
| Collaborative.MeanBounds | recommend.py:53 | a cell of a rated pair lies between any lower and upper bound of that pair's ratings |
| Collaborative.MeanOfEqualRatings | recommend.py:53 | a pair rated once, or always with the same value, has exactly that value as its cell |
| Collaborative.PivotTable | recommend.py:53 | the matrix rows are the distinct users and its columns the distinct cars, both ascending, and every row is as long as the column list |
| Collaborative.CellIsMean | recommend.py:53-56 | through the mappers, a cell is the mean of that user's ratings of that car, and 0 when the user never rated it |
| Collaborative.NonNegativeRatingsGiveNonNegativeMatrix | recommend.py:58-59 | non-negative ratings give a non-negative matrix, which the factorisation accepts |
| Collaborative.RatedBy | recommend.py:74 | a car is in the set exactly when some rating of the user names it |
| Collaborative.CandidatesIds | recommend.py:72-77 | before truncation the candidate labels are exactly the matrix columns the user did not rate |
| Collaborative.CollaborativeScoresProperties | recommend.py:61-78 | an unknown user gets an empty series; a known user gets no car they rated, at most n entries, in [0, 1), non-increasing, n best candidates |
| Collaborative.CollaborativeRecommender.constructor | recommend.py:43-48 | keeps the rating log; the matrix, mappers and model start unset |
| Collaborative.CollaborativeRecommender.Fit | recommend.py:50-59 | assigns the pivot table and both mappers; succeeds, and leaves the fitted state, exactly when the log is non-empty and no cell is negative |
| Collaborative.CollaborativeRecommender.Recommend | recommend.py:61-78 | requires the fitted state; empty for an unknown user; never a car the user rated; at most n entries in [0, 1), non-increasing |
| Hybrid.AlignedIds | recommend.py:108 | the aligned labels are the union of both label sets, each once, ascending |
| Hybrid.Reindex | recommend.py:108 | a series re-indexed on the aligned labels carries exactly those labels |
| Hybrid.AlignKeepsScores | recommend.py:108 | on every aligned label, each aligned series scores what the original scores, or 0 if it lacks the label |
| Hybrid.BlendedIds | recommend.py:108-110 | the blended key set is the union of the cf and cb key sets, each once, with at most |cf| + |cb| entries |
| Hybrid.BlendedScores | recommend.py:110 | each blended score is `alpha * cf + (1 - alpha) * cb`, a missing score counting as 0 |
| Hybrid.BlendWithoutCollaborativeIds | recommend.py:105-108 | with an empty cf series, the blended key set is the cb key set |
| Hybrid.BlendWithoutCollaborative | recommend.py:105-110 | a label missing from cf scores `(1 - alpha) * cb`; with an empty cf series every label does |
| Hybrid.BlendExtremes | recommend.py:110 | alpha = 1 gives the cf scores and alpha = 0 the cb scores, on the whole union |
| Hybrid.HybridScoresProperties | recommend.py:108-113 | the hybrid result has at most n entries, n best of the blend, each label from cf or cb, each score the blend |
| Hybrid.Join | recommend.py:96-97 | the inner join holds exactly the catalog rows whose carID the series has, each with its title and the series' score |
| Hybrid.JoinSelects | recommend.py:96-97 | the inner join reads the catalog at strictly increasing positions, exactly the rows whose carID the series has, so each matching row appears once and in catalog order |
| Hybrid.TitleScoresProperties | recommend.py:93-100 | every output row comes from both the catalog and the series; without `top_n` every matching row is present; with `top_n` at most `top_n` rows, non-increasing, the best of the join |
| Hybrid.HybridRecommender.constructor | recommend.py:81-87 | keeps both tables and creates two fresh recommenders over them, with similarity, title index, matrix, both mappers and the factorisation unset |
| Hybrid.HybridRecommender.Fit | recommend.py:89-91 | fits the content model, then the collaborative one; the shared catalog shows the filled features; the collaborative model holds the pivot table and both mappers, and the given prediction exactly when the rating log is accepted (none otherwise); success exactly when the log is non-empty with no negative cell |
| Hybrid.HybridRecommender.Recommend | recommend.py:102-113 | blends the two top-10 series (each at most 10 long); fails exactly for an unknown seed title; otherwise at most n entries, non-increasing, labels from cf or cb, blended scores, and `(1 - alpha) * cb` for an unknown user |
| Hybrid.HybridRecommender.IdToTitle | recommend.py:93-100 | rows come from both the catalog and the series, with catalog title and series score; with a truthy `top_n`, at most `top_n` rows, non-increasing |

## Left out

- TF-IDF vectorisation, cosine similarity and the NMF fit/transform (recommend.py:16-17, 33, 58-59, 67-71): these are floating-point library numerics. Their outputs are inputs to the two `Fit` methods, and only the output shapes are required.
- Floating point: scores are exact reals. Rounding in the subtraction and division of `(x - min) / (max - min + 1e-9)` is not modelled.
- Reading the CSV files (recommend.py:83-84, 117) and the `__main__` demo (recommend.py:130-158): I/O. The tables are constructor parameters.
- `Evaluator.precision_at_k` (recommend.py:115-127): it is broken. It reads `self.user_actuals`, which is never set, and its negated emptiness check returns 0 for any non-empty `recs`.
- The DataFrame index of the catalog is taken to be the default 0 .. n-1 range that `read_csv` gives, so row labels and positions coincide at lines 18, 31 and 36.
- Negative `n` or `top_n` (pandas `head` with a negative count drops rows from the end): counts are `nat`.
- `Series.align` and `DataFrame.join` on duplicate labels (possible only with repeated catalog carIDs): pandas pairs every duplicate, while the model uses the first entry with a label (`Lookup`).
- NaN and missing ratings or similarity values, and duplicate labels arising from them.
- The Python error raised when `recommend` is called before `fit`: every `Recommend` requires the fitted state instead.
- Collaborative.CollaborativeRecommender.Fit: after a failed factorisation the source keeps an unfitted NMF object. The model records no fitted model (`nmfModel == None`), and recommending then requires a successful `Fit`.
- Ranking.Sort: the model fixes one tie order (insertion order of an insertion sort). No lemma depends on it, because pandas' order for equal scores is unspecified.
