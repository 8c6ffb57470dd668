/**
 * The selection logic of `recommend_similar` in `utils/recommender.py`: find the query
 * recipe by case-insensitive name, score every recipe against it, drop the query row,
 * order by score (highest first) and keep the first `topn`. The scaling and cosine
 * arithmetic are a parameter of the model.
 */
module Recommender {
  import opened Wrappers
  import opened Text

  /** The recipe columns the recommender reads; `None` is a missing value. */
  datatype Recipe = Recipe(name: Option<string>, cuisine: Option<string>,
                           protein: Option<real>, carbs: Option<real>, fat: Option<real>)

  /** One feature vector: protein, carbs and fat. */
  datatype Features = Features(protein: real, carbs: real, fat: real)

  /** One returned record, with the similarity to the query recipe. */
  datatype Recommendation = Recommendation(name: Option<string>, cuisine: Option<string>,
                                           protein: Option<real>, carbs: Option<real>,
                                           fat: Option<real>, simScore: real)

  /** `feat.fillna(0)` on one recipe: a missing macro counts as 0. */
  function FeaturesOf(r: Recipe): (v: Features)
    ensures r.protein.None? ==> v.protein == 0.0
    ensures r.carbs.None? ==> v.carbs == 0.0
    ensures r.fat.None? ==> v.fat == 0.0
    ensures r.protein.Some? ==> v.protein == r.protein.value
    ensures r.carbs.Some? ==> v.carbs == r.carbs.value
    ensures r.fat.Some? ==> v.fat == r.fat.value
  {
    Features(r.protein.GetOr(0.0), r.carbs.GetOr(0.0), r.fat.GetOr(0.0))
  }

  /** The feature matrix of the whole table. */
  function FeatureMatrix(table: seq<Recipe>): (m: seq<Features>)
    ensures |m| == |table| && forall i :: 0 <= i < |table| ==> m[i] == FeaturesOf(table[i])
  {
    seq(|table|, i requires 0 <= i < |table| => FeaturesOf(table[i]))
  }

  /** The lower-cased name equals the lower-cased query; a missing name never matches. */
  predicate NameMatches(name: Option<string>, query: string) {
    name.Some? && Lower(name.value) == Lower(query)
  }

  /** `idx_list[0]`: the first row whose name matches the query, if any. */
  function FirstMatch(table: seq<Recipe>, query: string): (r: Option<nat>)
    ensures r.None? <==> forall i :: 0 <= i < |table| ==> !NameMatches(table[i].name, query)
    ensures r.Some? ==> r.value < |table| && NameMatches(table[r.value].name, query)
    ensures r.Some? ==> forall i :: 0 <= i < r.value ==> !NameMatches(table[i].name, query)
    decreases |table|
  {
    if table == [] then None
    else if NameMatches(table[0].name, query) then Some(0)
    else
      match FirstMatch(table[1..], query)
      case None => None
      case Some(j) =>
        assert forall i :: 1 <= i <= j ==> table[i] == table[1..][i - 1];
        Some(j + 1)
  }

  /** `df.index != idx`: the row indices other than `idx`, in index order. */
  function Others(n: nat, idx: nat): (r: seq<nat>)
    ensures forall j: nat :: j in r <==> j < n && j != idx
    ensures forall k :: 0 <= k < |r| ==> r[k] < n
    ensures forall a, b :: 0 <= a < b < |r| ==> r[a] < r[b]
    ensures |r| == if idx < n then n - 1 else n
  {
    if n == 0 then []
    else
      var rest := Others(n - 1, idx);
      if n - 1 == idx then rest
      else
        assert forall k :: 0 <= k < |rest| ==> (rest + [n - 1])[k] == rest[k];
        rest + [n - 1]
  }

  /** Every index is a row of the score column. */
  predicate InRange(idxs: seq<nat>, scores: seq<real>) {
    forall k :: 0 <= k < |idxs| ==> idxs[k] < |scores|
  }

  /** Scores never increase along `idxs`. */
  predicate NonIncreasing(idxs: seq<nat>, scores: seq<real>)
    requires InRange(idxs, scores)
  {
    forall a, b :: 0 <= a < b < |idxs| ==> scores[idxs[a]] >= scores[idxs[b]]
  }

  /** The position of a highest-scoring index. */
  function MaxPos(idxs: seq<nat>, scores: seq<real>): (m: nat)
    requires idxs != [] && InRange(idxs, scores)
    ensures m < |idxs| && forall k :: 0 <= k < |idxs| ==> scores[idxs[k]] <= scores[idxs[m]]
    decreases |idxs|
  {
    if |idxs| == 1 then 0
    else
      var m := MaxPos(idxs[1..], scores);
      assert forall k :: 1 <= k < |idxs| ==> idxs[k] == idxs[1..][k - 1];
      if scores[idxs[0]] >= scores[idxs[m + 1]] then 0 else m + 1
  }

  /** `s` without its element at `m`. */
  function RemoveAt(s: seq<nat>, m: nat): (r: seq<nat>)
    requires m < |s|
    ensures |r| == |s| - 1 && multiset(r) + multiset{s[m]} == multiset(s)
  {
    assert s == s[..m] + [s[m]] + s[m + 1..];
    s[..m] + s[m + 1..]
  }

  /**
   * `sort_values("sim_score", ascending=False)`: a reordering of the indices with the
   * scores non-increasing. Equal scores may come out in any order; this definition
   * fixes one, and nothing below depends on which.
   */
  function SortDesc(idxs: seq<nat>, scores: seq<real>): (r: seq<nat>)
    requires InRange(idxs, scores)
    ensures multiset(r) == multiset(idxs) && |r| == |idxs|
    ensures InRange(r, scores) && NonIncreasing(r, scores)
    decreases |idxs|
  {
    if idxs == [] then []
    else
      var m := MaxPos(idxs, scores);
      var rest := RemoveAt(idxs, m);
      RemoveAtInRange(idxs, m, scores);
      var sorted := SortDesc(rest, scores);
      PrependMax(idxs[m], sorted, rest, idxs, scores);
      [idxs[m]] + sorted
  }

  /** What is left after removing one index is still in range and no higher than the maximum. */
  lemma RemoveAtInRange(idxs: seq<nat>, m: nat, scores: seq<real>)
    requires m < |idxs| && InRange(idxs, scores)
    requires forall k :: 0 <= k < |idxs| ==> scores[idxs[k]] <= scores[idxs[m]]
    ensures InRange(RemoveAt(idxs, m), scores)
    ensures forall x :: x in multiset(RemoveAt(idxs, m)) ==> x < |scores| && scores[x] <= scores[idxs[m]]
  {
    var rest := RemoveAt(idxs, m);
    forall x | x in multiset(rest) ensures x in idxs {
      assert x in multiset(idxs);
    }
  }

  /** Putting the maximum in front of a sorted rest keeps the order non-increasing. */
  lemma PrependMax(top: nat, sorted: seq<nat>, rest: seq<nat>, idxs: seq<nat>, scores: seq<real>)
    requires top < |scores| && InRange(sorted, scores) && NonIncreasing(sorted, scores)
    requires multiset(sorted) == multiset(rest)
    requires forall x :: x in multiset(rest) ==> x < |scores| && scores[x] <= scores[top]
    ensures InRange([top] + sorted, scores) && NonIncreasing([top] + sorted, scores)
  {
    var r := [top] + sorted;
    forall k | 0 <= k < |sorted| ensures scores[sorted[k]] <= scores[top] {
      assert sorted[k] in multiset(rest);
    }
    assert forall k :: 1 <= k < |r| ==> r[k] == sorted[k - 1];
  }

  /** `head(topn)`: the first `topn` entries, or for negative `topn` all but the last `-topn`. */
  function Head(s: seq<nat>, topn: int): (r: seq<nat>)
    ensures |r| == if topn >= 0 then Min(topn, |s|) else Max(0, |s| + topn)
    ensures r == s[..|r|]
  {
    if topn >= 0 then s[..Min(topn, |s|)] else s[..Max(0, |s| + topn)]
  }

  function Min(a: int, b: int): int { if a <= b then a else b }
  function Max(a: int, b: int): int { if a >= b then a else b }

  /** Every row's similarity to the query row, `cosine_similarity(feats[idx:idx+1], feats)`. */
  function Scores(table: seq<Recipe>, idx: nat,
                  similarity: (seq<Features>, nat, nat) -> real): (s: seq<real>)
    ensures |s| == |table|
    ensures forall j :: 0 <= j < |table| ==> s[j] == similarity(FeatureMatrix(table), idx, j)
  {
    var m := FeatureMatrix(table);
    seq(|table|, j requires 0 <= j < |table| => similarity(m, idx, j))
  }

  /** The row indices `recommend_similar` returns, best first; empty without a match. */
  function RecommendedRows(table: seq<Recipe>, query: string, topn: int,
                           similarity: (seq<Features>, nat, nat) -> real): seq<nat>
  {
    match FirstMatch(table, query)
    case None => []
    case Some(idx) =>
      var scores := Scores(table, idx, similarity);
      Head(SortDesc(Others(|table|, idx), scores), topn)
  }

  /** `recommend_similar`: the records of the selected rows with their scores. */
  function RecommendSimilar(table: seq<Recipe>, query: string, topn: int,
                            similarity: (seq<Features>, nat, nat) -> real): (recs: seq<Recommendation>)
    ensures var rows := RecommendedRows(table, query, topn, similarity);
            |recs| == |rows|
    ensures FirstMatch(table, query).None? ==> recs == []
  {
    var rows := RecommendedRows(table, query, topn, similarity);
    match FirstMatch(table, query)
    case None => []
    case Some(idx) =>
      var scores := Scores(table, idx, similarity);
      RowsInRange(table, query, topn, similarity);
      seq(|rows|, k requires 0 <= k < |rows| =>
        var r := table[rows[k]];
        Recommendation(r.name, r.cuisine, r.protein, r.carbs, r.fat, scores[rows[k]]))
  }

  /** Every selected index is a row of the table. */
  lemma RowsInRange(table: seq<Recipe>, query: string, topn: int,
                    similarity: (seq<Features>, nat, nat) -> real)
    ensures forall k :: 0 <= k < |RecommendedRows(table, query, topn, similarity)| ==>
              RecommendedRows(table, query, topn, similarity)[k] < |table|
  {
    var rows := RecommendedRows(table, query, topn, similarity);
    if FirstMatch(table, query).Some? {
      var idx := FirstMatch(table, query).value;
      var scores := Scores(table, idx, similarity);
      var sorted := SortDesc(Others(|table|, idx), scores);
      forall k | 0 <= k < |rows| ensures rows[k] < |table| {
        assert rows[k] == sorted[k];
        assert sorted[k] in multiset(Others(|table|, idx));
      }
    }
  }

  /**
   * What any correct top-N selection returns, whatever order ties come out in: `out`
   * is `k` distinct candidates in non-increasing score order, and every candidate
   * left out scores no higher than every one chosen.
   */
  predicate IsTopN(out: seq<nat>, cands: seq<nat>, scores: seq<real>, k: nat)
    requires InRange(cands, scores) && InRange(out, scores)
  {
    && |out| == k
    && (forall a, b :: 0 <= a < b < |out| ==> out[a] != out[b])
    && (forall a :: 0 <= a < |out| ==> out[a] in cands)
    && NonIncreasing(out, scores)
    && (forall a, j :: 0 <= a < |out| && j in cands && j !in out ==> scores[j] <= scores[out[a]])
  }

  /** A prefix of a score-sorted permutation of distinct candidates is a top-N selection. */
  lemma HeadOfSortedIsTopN(cands: seq<nat>, scores: seq<real>, topn: int)
    requires InRange(cands, scores)
    requires forall a, b :: 0 <= a < b < |cands| ==> cands[a] != cands[b]
    ensures var out := Head(SortDesc(cands, scores), topn);
            InRange(out, scores) &&
            IsTopN(out, cands, scores, if topn >= 0 then Min(topn, |cands|) else Max(0, |cands| + topn))
  {
    var sorted := SortDesc(cands, scores);
    var out := Head(sorted, topn);
    DistinctPermutation(cands, sorted);
    PrefixOfSorted(cands, sorted, |out|, scores);
  }

  /** The first `len` entries of a sorted permutation: members, distinct, sorted, best. */
  lemma PrefixOfSorted(cands: seq<nat>, sorted: seq<nat>, len: nat, scores: seq<real>)
    requires InRange(cands, scores) && InRange(sorted, scores) && NonIncreasing(sorted, scores)
    requires multiset(sorted) == multiset(cands) && len <= |sorted|
    requires forall a, b :: 0 <= a < b < |sorted| ==> sorted[a] != sorted[b]
    ensures var out := sorted[..len];
            && InRange(out, scores) && NonIncreasing(out, scores)
            && (forall a :: 0 <= a < |out| ==> out[a] in cands)
            && (forall a, j :: 0 <= a < |out| && j in cands && j !in out ==> scores[j] <= scores[out[a]])
  {
    var out := sorted[..len];
    forall a | 0 <= a < |out| ensures out[a] in cands {
      assert out[a] in multiset(sorted);
    }
    forall a, j | 0 <= a < |out| && j in cands && j !in out
      ensures scores[j] <= scores[out[a]]
    {
      assert j in multiset(sorted);
      var p :| 0 <= p < |sorted| && sorted[p] == j;
      assert p >= len;
    }
  }

  /** A permutation of a sequence without repeats has no repeats. */
  lemma DistinctPermutation(s: seq<nat>, t: seq<nat>)
    requires multiset(s) == multiset(t)
    requires forall a, b :: 0 <= a < b < |s| ==> s[a] != s[b]
    ensures forall a, b :: 0 <= a < b < |t| ==> t[a] != t[b]
  {
    forall x | x in multiset(s) ensures multiset(s)[x] == 1 {
      CountDistinct(s, x);
    }
    forall a, b | 0 <= a < b < |t| ensures t[a] != t[b] {
      assert t == t[..a] + [t[a]] + t[a + 1..b] + [t[b]] + t[b + 1..];
      assert t[a] in multiset(s);
    }
  }

  /** In a sequence without repeats every element occurs once. */
  lemma {:induction false} CountDistinct(s: seq<nat>, x: nat)
    requires forall a, b :: 0 <= a < b < |s| ==> s[a] != s[b]
    requires x in s
    ensures multiset(s)[x] == 1
    decreases |s|
  {
    assert s == [s[0]] + s[1..];
    if s[0] == x {
      assert x !in s[1..] by {
        forall k | 0 <= k < |s[1..]| ensures s[1..][k] != x {
          assert s[1..][k] == s[k + 1];
        }
      }
    } else {
      assert forall a, b :: 0 <= a < b < |s[1..]| ==> s[1..][a] == s[a + 1] && s[1..][b] == s[b + 1];
      CountDistinct(s[1..], x);
    }
  }

  // ---------------------------------------------------------------------------
  // What recommend_similar promises
  // ---------------------------------------------------------------------------

  /** A name that matches no row gives an empty list. */
  lemma UnmatchedGivesNothing(table: seq<Recipe>, query: string, topn: int,
                              similarity: (seq<Features>, nat, nat) -> real)
    requires forall i :: 0 <= i < |table| ==> !NameMatches(table[i].name, query)
    ensures RecommendSimilar(table, query, topn, similarity) == []
  {
  }

  /**
   * With a match at `idx` (the first matching row), the result is a top-N selection
   * of all other rows by their similarity to row `idx`: `min(topn, n - 1)` rows for
   * non-negative `topn`, never row `idx`, best first, and no row left out scores
   * higher than a row kept.
   */
  lemma RecommendationIsTopN(table: seq<Recipe>, query: string, topn: int,
                             similarity: (seq<Features>, nat, nat) -> real)
    requires FirstMatch(table, query).Some?
    ensures var idx := FirstMatch(table, query).value;
            var scores := Scores(table, idx, similarity);
            var out := RecommendedRows(table, query, topn, similarity);
            && InRange(out, scores)
            && IsTopN(out, Others(|table|, idx), scores,
                      if topn >= 0 then Min(topn, |table| - 1) else Max(0, |table| - 1 + topn))
            && idx !in out
  {
    var idx := FirstMatch(table, query).value;
    var scores := Scores(table, idx, similarity);
    var cands := Others(|table|, idx);
    assert RecommendedRows(table, query, topn, similarity) == Head(SortDesc(cands, scores), topn);
    assert |cands| == |table| - 1;
    HeadOfSortedIsTopN(cands, scores, topn);
  }

  /** The records carry the selected rows' columns and their similarity to the query row. */
  lemma RecordsDescribeRows(table: seq<Recipe>, query: string, topn: int,
                            similarity: (seq<Features>, nat, nat) -> real, k: nat)
    requires FirstMatch(table, query).Some?
    requires k < |RecommendedRows(table, query, topn, similarity)|
    ensures var idx := FirstMatch(table, query).value;
            var j := RecommendedRows(table, query, topn, similarity)[k];
            var rec := RecommendSimilar(table, query, topn, similarity)[k];
            && j < |table| && j != idx
            && rec.name == table[j].name && rec.cuisine == table[j].cuisine
            && rec.protein == table[j].protein && rec.carbs == table[j].carbs && rec.fat == table[j].fat
            && rec.simScore == similarity(FeatureMatrix(table), idx, j)
  {
    RowsInRange(table, query, topn, similarity);
    RecommendationIsTopN(table, query, topn, similarity);
    var j := RecommendedRows(table, query, topn, similarity)[k];
    assert j in RecommendedRows(table, query, topn, similarity);
  }

  /**
   * Only the query row's index is excluded: another row with the same name can be
   * recommended. Here row 1 ("soup") is returned for the query "SOUP", which row 0 matches.
   */
  lemma SameNameRowMayBeReturned(similarity: (seq<Features>, nat, nat) -> real)
    ensures var table := [Recipe(Some("Soup"), None, None, None, None),
                          Recipe(Some("soup"), None, None, None, None)];
            RecommendedRows(table, "SOUP", 5, similarity) == [1]
  {
    var table := [Recipe(Some("Soup"), None, None, None, None),
                  Recipe(Some("soup"), None, None, None, None)];
    assert Lower("Soup") == "soup" == Lower("SOUP");
    assert NameMatches(table[0].name, "SOUP");
    assert FirstMatch(table, "SOUP") == Some(0);
    assert Others(2, 0) == [1];
  }
}
