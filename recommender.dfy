/**
 * The content-based recommender (`ProductRecommender`): resolve a product name
 * through the name index, take the row's nearest neighbours by TF-IDF cosine
 * distance, drop the row itself, blend similarity with popularity and return the
 * best-scoring rows.
 *
 * Two library calls are parameters. The fitted TF-IDF and nearest-neighbour
 * models are a function from a query row to its neighbour pool, fixed when the
 * recommender is built; `difflib.get_close_matches` is a `Matcher` of which the
 * model knows only that it returns at most `n` of the candidate strings.
 */
module Recommender {
  import opened Wrappers
  import opened Text
  import opened Catalog
  import opened NameIndex

  const DefaultTopN: int := 10
  const SimilarityWeight: real := 0.75
  const NeighbourCount: nat := 30
  const ResolveMatches: nat := 5
  const ResolveCutoff: real := 0.6
  const SearchCutoff: real := 0.4
  /** `TFIDF_MIN_DF`: a term is kept only when at least this many rows contain it. */
  const TfidfMinDf: nat := 2
  const NotFoundMessage: string := "Product not found. Please refine your search query."
  const EmptyDatasetMessage: string := "The training dataset is empty; cannot build recommender."

  // ---------------------------------------------------------------------------
  // Library calls taken as parameters

  /** One row returned by `kneighbors`, with its cosine distance to the query row. */
  datatype Neighbour = Neighbour(row: nat, distance: real)

  /** What `kneighbors` returns for a query row: `size` distinct rows of the table, cosine distances in [0, 2]. */
  predicate IsPool(pool: seq<Neighbour>, size: nat, rows: nat) {
    && |pool| == size
    && (forall k :: 0 <= k < |pool| ==> pool[k].row < rows && 0.0 <= pool[k].distance <= 2.0)
    && (forall a, b :: 0 <= a < b < |pool| ==> pool[a].row != pool[b].row)
  }

  /** `get_close_matches(word, possibilities, n, cutoff)`. */
  type Matcher = (string, seq<string>, int, real) -> seq<string>

  /** What the model relies on about `get_close_matches` when `n > 0`: at most `n` results, each one of the possibilities. */
  ghost predicate IsCloseMatcher(m: Matcher) {
    forall word, possibilities, n, cutoff :: n > 0 ==>
      && |m(word, possibilities, n, cutoff)| <= n
      && (forall x :: x in m(word, possibilities, n, cutoff) ==> x in possibilities)
  }

  // ---------------------------------------------------------------------------
  // Results

  /**
   * One row of the result table. `row` is the candidate's row number in the
   * product table (the index the data frame carries before `reset_index`).
   */
  datatype Recommendation = Recommendation(
    row: nat,
    name: string,
    brand: string,
    imageUrl: Option<string>,
    rating: Option<real>,
    reviewCount: Option<real>,
    similarity: real,
    popularity: real,
    score: real)

  datatype RecommendationResponse = RecommendationResponse(
    results: seq<Recommendation>,
    resolvedName: Option<string>,
    suggestions: seq<string>,
    message: Option<string>)

  /** `_resolve_name`'s pair: the matched row, or the suggestions. */
  datatype Resolution = Resolution(index: Option<nat>, suggestions: seq<string>)

  /** `SIMILARITY_WEIGHT * similarity + (1 - SIMILARITY_WEIGHT) * popularity`. */
  function BlendedScore(similarity: real, popularity: real): (score: real)
    ensures -1.0 <= similarity <= 1.0 && 0.0 <= popularity <= 1.0 ==> -0.75 <= score <= 1.0
    ensures similarity == 1.0 && popularity == 1.0 ==> score == 1.0
  {
    SimilarityWeight * similarity + (1.0 - SimilarityWeight) * popularity
  }

  /** The score rises with similarity and with popularity, similarity weighing three times as much. */
  lemma BlendedScoreMonotone(s1: real, p1: real, s2: real, p2: real)
    requires s1 <= s2 && p1 <= p2
    ensures BlendedScore(s1, p1) <= BlendedScore(s2, p2)
    ensures BlendedScore(s2, p2) - BlendedScore(s1, p1) == 0.75 * (s2 - s1) + 0.25 * (p2 - p1)
  {
  }

  /** `candidates[candidates.index != index]`: the pool without the query row, order kept. */
  function ExcludeRow(pool: seq<Neighbour>, i: nat): (r: seq<Neighbour>)
    ensures |r| <= |pool|
    ensures forall n :: n in r <==> n in pool && n.row != i
  {
    if pool == [] then []
    else if pool[0].row == i then ExcludeRow(pool[1..], i)
    else [pool[0]] + ExcludeRow(pool[1..], i)
  }

  /** The query row leaves exactly one slot of a pool of distinct rows when it is there, none otherwise. */
  lemma {:induction false} ExcludeRowSize(pool: seq<Neighbour>, i: nat)
    requires forall a, b :: 0 <= a < b < |pool| ==> pool[a].row != pool[b].row
    ensures (exists k :: 0 <= k < |pool| && pool[k].row == i) ==> |ExcludeRow(pool, i)| == |pool| - 1
    ensures (forall k :: 0 <= k < |pool| ==> pool[k].row != i) ==> |ExcludeRow(pool, i)| == |pool|
  {
    if pool != [] {
      ExcludeRowSize(pool[1..], i);
      if pool[0].row == i {
        assert forall k :: 0 <= k < |pool[1..]| ==> pool[1..][k].row != i by {
          forall k | 0 <= k < |pool[1..]|
            ensures pool[1..][k].row != i
          {
            assert pool[1..][k] == pool[k + 1];
          }
        }
      } else {
        if exists k :: 0 <= k < |pool| && pool[k].row == i {
          var k :| 0 <= k < |pool| && pool[k].row == i;
          assert pool[1..][k - 1] == pool[k];
        }
        assert (forall k :: 0 <= k < |pool| ==> pool[k].row != i) ==>
          (forall k :: 0 <= k < |pool[1..]| ==> pool[1..][k].row != i) by {
          if forall k :: 0 <= k < |pool| ==> pool[k].row != i {
            forall k | 0 <= k < |pool[1..]|
              ensures pool[1..][k].row != i
            {
              assert pool[1..][k] == pool[k + 1];
            }
          }
        }
      }
    }
  }

  // ---------------------------------------------------------------------------
  // `sort_values("score", ascending=False)`

  /** Scores never increase along `s`. */
  predicate Descending(s: seq<Recommendation>) {
    forall a, b :: 0 <= a < b < |s| ==> s[a].score >= s[b].score
  }

  /** Insert `x` into a descending list after every entry scoring at least as much. */
  function InsertByScore(x: Recommendation, s: seq<Recommendation>): (r: seq<Recommendation>)
    ensures |r| == |s| + 1
    ensures multiset(r) == multiset(s) + multiset{x}
    ensures forall y :: y in r ==> y == x || y in s
  {
    if s == [] || x.score > s[0].score then [x] + s
    else
      assert s == [s[0]] + s[1..];
      [s[0]] + InsertByScore(x, s[1..])
  }

  lemma {:induction false} InsertByScoreDescending(x: Recommendation, s: seq<Recommendation>)
    requires Descending(s)
    ensures Descending(InsertByScore(x, s))
  {
    if s != [] && x.score <= s[0].score {
      var t := s[1..];
      assert Descending(t) by {
        forall a, b | 0 <= a < b < |t|
          ensures t[a].score >= t[b].score
        {
          assert t[a] == s[a + 1] && t[b] == s[b + 1];
        }
      }
      InsertByScoreDescending(x, t);
      var rest := InsertByScore(x, t);
      var r := [s[0]] + rest;
      forall b | 0 < b < |r|
        ensures s[0].score >= r[b].score
      {
        var y := r[b];
        assert y == rest[b - 1];
        assert y in rest;
        if y != x {
          assert y in t;
          var j :| 0 <= j < |t| && t[j] == y;
          assert y == s[j + 1];
        }
      }
    }
  }

  /** A descending rearrangement of `s` (insertion sort, ties in input order). */
  function SortByScore(s: seq<Recommendation>): (r: seq<Recommendation>)
    ensures |r| == |s|
    ensures multiset(r) == multiset(s)
  {
    if s == [] then []
    else
      assert s == s[..|s| - 1] + [s[|s| - 1]];
      InsertByScore(s[|s| - 1], SortByScore(s[..|s| - 1]))
  }

  lemma {:induction false} SortByScoreDescending(s: seq<Recommendation>)
    ensures Descending(SortByScore(s))
  {
    if s != [] {
      SortByScoreDescending(s[..|s| - 1]);
      InsertByScoreDescending(s[|s| - 1], SortByScore(s[..|s| - 1]));
    }
  }

  /**
   * `head(top_n)` of a descending list keeps the best: nothing it drops scores
   * above anything it keeps.
   */
  lemma HeadKeepsBest(sorted: seq<Recommendation>, topN: int)
    requires Descending(sorted)
    ensures Descending(Prefix(sorted, topN))
    ensures multiset(Prefix(sorted, topN)) <= multiset(sorted)
    ensures forall c, r :: c in multiset(sorted) - multiset(Prefix(sorted, topN)) && r in Prefix(sorted, topN) ==>
      c.score <= r.score
  {
    var head := Prefix(sorted, topN);
    var k := |head|;
    var tail := sorted[k..];
    assert sorted == head + tail;
    assert multiset(sorted) == multiset(head) + multiset(tail);
    forall c, r | c in multiset(sorted) - multiset(head) && r in head
      ensures c.score <= r.score
    {
      assert c in multiset(tail);
      var j :| 0 <= j < |tail| && tail[j] == c;
      var a :| 0 <= a < k && head[a] == r;
      assert sorted[a] == r && sorted[k + j] == c;
    }
  }

  /**
   * `sort_values("score", ascending=False).head(top_n)`: a descending selection
   * of the candidates, as many as the slice allows, that leaves out nothing
   * scoring above what it keeps.
   */
  lemma TopScores(candidates: seq<Recommendation>, topN: int)
    ensures
      var results := Prefix(SortByScore(candidates), topN);
      && |results| == PrefixLength(|candidates|, topN)
      && Descending(results)
      && multiset(results) <= multiset(candidates)
      && (forall c, r :: c in multiset(candidates) - multiset(results) && r in results ==> c.score <= r.score)
      && (forall r :: r in results ==> r in candidates)
  {
    var sorted := SortByScore(candidates);
    SortByScoreDescending(candidates);
    HeadKeepsBest(sorted, topN);
    var results := Prefix(sorted, topN);
    forall r | r in results
      ensures r in candidates
    {
      assert r in multiset(results);
    }
  }

  // ---------------------------------------------------------------------------
  // The recommender

  /** The `Name` column. */
  function Names(data: seq<Product>): (names: seq<string>)
    ensures |names| == |data|
    ensures forall i :: 0 <= i < |data| ==> names[i] == data[i].name
  {
    seq(|data|, i requires 0 <= i < |data| => data[i].name)
  }

  class ProductRecommender {
    /** The cleaned product table (`self.data`). */
    const data: seq<Product>
    /** `n_neighbors`, the size of every neighbour pool. */
    const poolSize: nat
    /** The fitted TF-IDF and nearest-neighbour models: the pool `kneighbors` returns for each row. */
    const kneighbors: nat -> seq<Neighbour>
    /** `self._name_to_index`. */
    const nameIndex: NameIndex

    ghost predicate Valid() {
      && |data| > 0
      && poolSize == Min(NeighbourCount, |data|)
      && (forall i :: 0 <= i < |data| ==> 0.0 <= data[i].popularity <= 1.0)
      && (forall i :: 0 <= i < |data| ==> IsPool(kneighbors(i), poolSize, |data|))
      && IsNameIndex(nameIndex, Names(data))
    }

    constructor(data: seq<Product>, kneighbors: nat -> seq<Neighbour>, nameIndex: NameIndex)
      requires |data| > 0
      requires forall i :: 0 <= i < |data| ==> 0.0 <= data[i].popularity <= 1.0
      requires forall i :: 0 <= i < |data| ==> IsPool(kneighbors(i), Min(NeighbourCount, |data|), |data|)
      requires IsNameIndex(nameIndex, Names(data))
      ensures Valid()
      ensures this.data == data && this.kneighbors == kneighbors && this.nameIndex == nameIndex
      ensures poolSize == Min(NeighbourCount, |data|)
    {
      this.data := data;
      this.poolSize := Min(NeighbourCount, |data|);
      this.kneighbors := kneighbors;
      this.nameIndex := nameIndex;
    }

    /**
     * `__init__`: clean the table, refuse an empty one, fit the vectoriser, size
     * the neighbour pools and build the name index. `kneighbors` stands for the
     * models fitted on the cleaned table's `combined_text`; `fitError` is what
     * `fit_transform` raises on that column, if anything. With a minimum document
     * frequency of two it raises whenever no term occurs in two rows, so always on
     * a one-row table.
     */
    static method Create(raw: seq<RawProduct>, log1p: Log1p, fitError: Option<string>, kneighbors: nat -> seq<Neighbour>)
      returns (r: Result<ProductRecommender, string>)
      requires IsLog1p(log1p)
      requires 0 < |raw| < TfidfMinDf ==> fitError.Some?
      requires forall i :: 0 <= i < |raw| ==> IsPool(kneighbors(i), Min(NeighbourCount, |raw|), |raw|)
      ensures r.Err? <==> |raw| == 0 || fitError.Some?
      ensures |raw| == 0 ==> r == Err(EmptyDatasetMessage)
      ensures |raw| > 0 && fitError.Some? ==> r == Err(fitError.value)
      ensures r.Ok? ==> |raw| >= TfidfMinDf
      ensures r.Ok? ==> fresh(r.value) && r.value.Valid()
      ensures r.Ok? ==> |r.value.data| == |raw| && forall i :: 0 <= i < |raw| ==> CleanedFrom(r.value.data[i], raw[i])
      ensures r.Ok? ==> PopularityFromMaxima(r.value.data, log1p)
      ensures r.Ok? ==> r.value.poolSize == Min(NeighbourCount, |raw|) && r.value.kneighbors == kneighbors
    {
      var data := PrepareDataFrame(raw, log1p);
      if |data| == 0 {
        return Err(EmptyDatasetMessage);
      }
      if fitError.Some? {
        return Err(fitError.value);
      }
      var index := BuildNameIndex(Names(data));
      var recommender := new ProductRecommender(data, kneighbors, index);
      return Ok(recommender);
    }

    /** `s` is the name of the first row whose name normalises as `s` does. */
    ghost predicate IsFirstName(s: string) {
      exists p :: 0 <= p < |data| && data[p].name == s &&
        forall j :: 0 <= j < p ==> Normalize(data[j].name) != Normalize(s)
    }

    /** A key is in the index exactly when some row's name normalises to it. */
    lemma IndexHasKey(q: string)
      requires Valid()
      ensures q in nameIndex.position <==> exists i :: 0 <= i < |data| && Normalize(data[i].name) == q
    {
      var ks := NormalizedNames(Names(data));
      if exists i :: 0 <= i < |data| && Normalize(data[i].name) == q {
        var i :| 0 <= i < |data| && Normalize(data[i].name) == q;
        assert ks[i] == q;
      }
      if q in nameIndex.position {
        var p := nameIndex.position[q];
        assert ks[p] == q;
      }
    }

    /** The row an index key stands for: the first one whose name normalises to it. */
    lemma KeyRow(q: string)
      requires Valid() && q in nameIndex.position
      ensures nameIndex.position[q] < |data|
      ensures Normalize(data[nameIndex.position[q]].name) == q
      ensures forall j :: 0 <= j < nameIndex.position[q] ==> Normalize(data[j].name) != q
    {
      var ks := NormalizedNames(Names(data));
      var p := nameIndex.position[q];
      assert ks[p] == q;
      forall j | 0 <= j < p
        ensures Normalize(data[j].name) != q
      {
        assert ks[j] != q;
      }
    }

    /** The `Name` of each key's row, for keys the matcher chose from the index. */
    function DisplayNames(keys: seq<string>): (names: seq<string>)
      requires Valid()
      requires forall k :: k in keys ==> k in nameIndex.keys
      ensures |names| == |keys|
      ensures forall k :: 0 <= k < |keys| ==> Normalize(names[k]) == keys[k] && IsFirstName(names[k])
    {
      if keys == [] then []
      else
        var q := keys[0];
        assert q in nameIndex.position;
        KeyRow(q);
        var p := nameIndex.position[q];
        assert IsFirstName(data[p].name);
        [data[p].name] + DisplayNames(keys[1..])
    }

    /**
     * `_resolve_name`: the first row whose name matches the query ignoring case
     * and surrounding whitespace, or up to five close matches as suggestions.
     */
    function ResolveName(itemName: string, closeMatches: Matcher): (r: Resolution)
      requires Valid() && IsCloseMatcher(closeMatches)
      ensures r.index.Some? <==>
        itemName != "" && exists i :: 0 <= i < |data| && Normalize(data[i].name) == Normalize(itemName)
      ensures r.index.Some? ==>
        && r.index.value < |data|
        && Normalize(data[r.index.value].name) == Normalize(itemName)
        && forall j :: 0 <= j < r.index.value ==> Normalize(data[j].name) != Normalize(itemName)
      ensures r.index.Some? || itemName == "" ==> r.suggestions == []
      ensures |r.suggestions| <= ResolveMatches
      ensures forall k :: 0 <= k < |r.suggestions| ==> IsFirstName(r.suggestions[k])
      ensures itemName != "" && r.index.None? ==>
        var matched := closeMatches(Normalize(itemName), nameIndex.keys, ResolveMatches, ResolveCutoff);
        && |r.suggestions| == |matched|
        && forall k :: 0 <= k < |matched| ==> Normalize(r.suggestions[k]) == matched[k]
    {
      if itemName == "" then Resolution(None, [])
      else
        var q := Normalize(itemName);
        IndexHasKey(q);
        if q in nameIndex.position then
          KeyRow(q);
          Resolution(Some(nameIndex.position[q]), [])
        else
          Resolution(None, DisplayNames(closeMatches(q, nameIndex.keys, ResolveMatches, ResolveCutoff)))
    }

    /** A query padded with whitespace or written in another case resolves the same way. */
    lemma ResolveNameIgnoresPaddingAndCase(p: string, s: string, q: string, closeMatches: Matcher)
      requires Valid() && IsCloseMatcher(closeMatches)
      requires AllSpace(p) && AllSpace(q) && s != ""
      ensures ResolveName(p + s + q, closeMatches) == ResolveName(s, closeMatches)
      ensures ResolveName(Lower(s), closeMatches) == ResolveName(s, closeMatches)
    {
      NormalizeIgnoresPadding(p, s, q);
      NormalizeIgnoresCase(s);
      assert |p + s + q| > 0;
    }

    /**
     * Only the empty query is turned away before the lookup: a query of whitespace
     * alone is looked up as the key `""`, so it finds the first row with a blank name.
     */
    lemma ResolveNameBlankQuery(s: string, closeMatches: Matcher)
      requires Valid() && IsCloseMatcher(closeMatches)
      requires AllSpace(s) && s != ""
      ensures ResolveName("", closeMatches) == Resolution(None, [])
      ensures ResolveName(s, closeMatches).index.Some? <==> exists i :: 0 <= i < |data| && Normalize(data[i].name) == ""
      ensures ResolveName(s, closeMatches).index.Some? ==> Normalize(data[ResolveName(s, closeMatches).index.value].name) == ""
    {
      assert s + [] + [] == s;
      NormalizeIgnoresPadding(s, [], []);
    }

    /**
     * `search`: display names of the close matches of the normalised query, at
     * most `limit` of them; `None` when `limit <= 0`, where `get_close_matches` raises.
     */
    function Search(query: string, limit: int, closeMatches: Matcher): (r: Option<seq<string>>)
      requires Valid() && IsCloseMatcher(closeMatches)
      ensures r.None? <==> limit <= 0
      ensures r.Some? ==>
        var matched := closeMatches(Normalize(query), nameIndex.keys, limit, SearchCutoff);
        && |r.value| == |matched| <= limit
        && forall k :: 0 <= k < |r.value| ==> Normalize(r.value[k]) == matched[k] && IsFirstName(r.value[k])
    {
      if limit <= 0 then None
      else Some(DisplayNames(closeMatches(Normalize(query), nameIndex.keys, limit, SearchCutoff)))
    }

    /**
     * One candidate row with its similarity and blended score. A neighbour at
     * distance zero with the highest popularity gets the highest score, 1.
     */
    function Candidate(n: Neighbour): (c: Recommendation)
      requires n.row < |data|
      ensures c.row == n.row && c.name == data[n.row].name && c.brand == data[n.row].brand
      ensures c.imageUrl == data[n.row].imageUrl && c.rating == data[n.row].rating
      ensures c.reviewCount == data[n.row].reviewCount && c.popularity == data[n.row].popularity
      ensures c.similarity == 1.0 - n.distance
      ensures c.score == 0.75 * c.similarity + 0.25 * c.popularity
      ensures 0.0 <= n.distance <= 2.0 && 0.0 <= c.popularity <= 1.0 ==> -0.75 <= c.score <= 1.0
      ensures n.distance == 0.0 && c.popularity == 1.0 ==> c.score == 1.0
    {
      var p := data[n.row];
      var similarity := 1.0 - n.distance;
      Recommendation(n.row, p.name, p.brand, p.imageUrl, p.rating, p.reviewCount,
                     similarity, p.popularity, BlendedScore(similarity, p.popularity))
    }

    /**
     * `r` is a candidate for query row `i`: another row of its pool, with the
     * similarity `1 - distance`, the row's popularity and the blended score.
     */
    ghost predicate FromPool(r: Recommendation, i: nat) {
      && r.row != i && r.row < |data|
      && r.name == data[r.row].name
      && r.popularity == data[r.row].popularity
      && r.score == BlendedScore(r.similarity, r.popularity)
      && exists n :: n in kneighbors(i) && n.row == r.row && r.similarity == 1.0 - n.distance
    }

    /** `candidates` before sorting: the query row's pool without the row itself, scored. */
    function Candidates(i: nat): (cs: seq<Recommendation>)
      requires Valid() && i < |data|
      ensures |cs| == |ExcludeRow(kneighbors(i), i)| <= poolSize
      ensures forall r :: r in cs ==> FromPool(r, i)
      ensures forall k :: 0 <= k < |kneighbors(i)| && kneighbors(i)[k].row != i ==> Candidate(kneighbors(i)[k]) in cs
    {
      var ns := ExcludeRow(kneighbors(i), i);
      var cs := seq(|ns|, k requires 0 <= k < |ns| => Candidate(ns[k]));
      assert forall r :: r in cs ==> FromPool(r, i) by {
        forall k | 0 <= k < |cs|
          ensures FromPool(cs[k], i)
        {
          assert ns[k] in ns;
        }
      }
      forall k | 0 <= k < |kneighbors(i)| && kneighbors(i)[k].row != i
        ensures Candidate(kneighbors(i)[k]) in cs
      {
        var n := kneighbors(i)[k];
        assert n in ns;
        var j :| 0 <= j < |ns| && ns[j] == n;
        assert cs[j] == Candidate(n);
      }
      cs
    }

    /**
     * `recommend`. An unresolved name gives no results, the resolver's
     * suggestions and the not-found message. A resolved row `i` gives its `Name`
     * and the best `top_n` of its pool without `i` itself, in descending score
     * order, each scored `0.75 * (1 - distance) + 0.25 * popularity`; no candidate
     * left out scores above one returned. `top_n` is a Python slice bound, so a
     * negative value drops that many from the end.
     */
    method Recommend(itemName: string, topN: int, closeMatches: Matcher) returns (resp: RecommendationResponse)
      requires Valid() && IsCloseMatcher(closeMatches)
      ensures resp.message.None? <==>
        itemName != "" && exists i :: 0 <= i < |data| && Normalize(data[i].name) == Normalize(itemName)
      ensures resp.message.Some? ==>
        && resp.message == Some(NotFoundMessage)
        && resp.results == [] && resp.resolvedName == None
        && resp.suggestions == ResolveName(itemName, closeMatches).suggestions
      ensures resp.message.None? ==>
        var i := ResolveName(itemName, closeMatches).index.value;
        var candidates := Candidates(i);
        && resp.suggestions == []
        && resp.resolvedName == Some(data[i].name)
        && Normalize(data[i].name) == Normalize(itemName)
        && |resp.results| == PrefixLength(|candidates|, topN) <= poolSize
        && (topN >= 0 ==> |resp.results| <= topN)
        && (topN >= 0 && (exists k :: 0 <= k < |kneighbors(i)| && kneighbors(i)[k].row == i) ==>
              |resp.results| == Min(topN, poolSize - 1))
        && Descending(resp.results)
        && multiset(resp.results) <= multiset(candidates)
        && (forall c, r :: c in multiset(candidates) - multiset(resp.results) && r in resp.results ==>
              c.score <= r.score)
        && (forall r :: r in resp.results ==> FromPool(r, i))
    {
      var resolution := ResolveName(itemName, closeMatches);
      if resolution.index.None? {
        return RecommendationResponse([], None, resolution.suggestions, Some(NotFoundMessage));
      }
      var i := resolution.index.value;
      ExcludeRowSize(kneighbors(i), i);
      var candidates := Candidates(i);
      TopScores(candidates, topN);
      candidates := SortByScore(candidates);
      candidates := Prefix(candidates, topN);
      resp := RecommendationResponse(candidates, Some(data[i].name), resolution.suggestions, None);
    }
  }
}
