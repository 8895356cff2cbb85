/**
 * The product table the recommender is built from, and the cleaning pass that
 * derives its normalised and popularity columns (`_prepare_dataframe`).
 *
 * A missing CSV cell is `None`. `np.log1p` is a parameter: any function that is
 * 0 at 0 and strictly increasing on the non-negative reals will do.
 */
module Catalog {
  import opened Wrappers
  import opened Text

  /** One CSV row as read, before cleaning. */
  datatype RawProduct = RawProduct(
    name: Option<string>,
    brand: Option<string>,
    category: Option<string>,
    tags: Option<string>,
    description: Option<string>,
    rating: Option<real>,
    reviewCount: Option<real>,
    imageUrl: Option<string>)

  /** One row of the cleaned table: the source columns plus the derived ones. */
  datatype Product = Product(
    name: string,
    brand: string,
    category: string,
    tags: string,
    description: string,
    rating: Option<real>,
    reviewCount: Option<real>,
    imageUrl: Option<string>,
    normalizedName: string,
    normalizedBrand: string,
    combinedText: string,
    ratingClean: real,
    reviewCountClean: real,
    popularity: real)

  type Log1p = real -> real

  /** What the model relies on about `np.log1p`. */
  ghost predicate IsLog1p(f: Log1p) {
    f(0.0) == 0.0 && forall x: real, y: real :: 0.0 <= x < y ==> f(x) < f(y)
  }

  // ---------------------------------------------------------------------------
  // Per-row formulas

  /** `fillna(0).clip(lower=0)` on one cell. */
  function ClipCount(v: Option<real>): (r: real)
    ensures r >= 0.0
    ensures v.Some? && v.value >= 0.0 ==> r == v.value
    ensures v.None? || v.value < 0.0 ==> r == 0.0
  {
    match v
    case None => 0.0
    case Some(x) => if x < 0.0 then 0.0 else x
  }

  /** The characters the brand regex `[^a-z0-9 ]` leaves in place. */
  predicate IsBrandChar(c: char) {
    'a' <= c <= 'z' || '0' <= c <= '9' || c == ' '
  }

  /** `str.replace(r"[^a-z0-9 ]", " ", regex=True)`. */
  function ReplaceNonBrandChars(s: string): string {
    seq(|s|, i requires 0 <= i < |s| => if IsBrandChar(s[i]) then s[i] else ' ')
  }

  /**
   * The `normalized_brand` column: the regex replacement runs before lower-casing,
   * so an upper-case letter has already become a space when `lower` sees it.
   */
  function NormalizeBrand(brand: string): (r: string)
    ensures |r| == |brand|
    ensures forall i :: 0 <= i < |r| ==> IsBrandChar(r[i])
    ensures forall i :: 0 <= i < |r| ==> r[i] == (if IsBrandChar(brand[i]) then brand[i] else ' ')
    ensures forall i :: 0 <= i < |r| && IsUpper(brand[i]) ==> r[i] == ' '
  {
    Lower(ReplaceNonBrandChars(brand))
  }

  /**
   * The `combined_text` column: five lower-cased fields joined by single spaces,
   * the name first, the normalised brand second and the description last.
   */
  function CombinedText(name: string, normalizedBrand: string, category: string, tags: string, description: string): (r: string)
    ensures |r| == |name| + |normalizedBrand| + |category| + |tags| + |description| + 4
    ensures r[..|name|] == Lower(name) && r[|name|] == ' '
    ensures r[|name| + 1..|name| + 1 + |normalizedBrand|] == normalizedBrand
    ensures r[|r| - |description| - 1] == ' ' && r[|r| - |description|..] == Lower(description)
  {
    var head := Lower(name) + " " + normalizedBrand;
    var tail := " " + Lower(category) + " " + Lower(tags) + " " + Lower(description);
    assert head + tail == Lower(name) + " " + normalizedBrand + " " + Lower(category) + " " + Lower(tags) + " " + Lower(description);
    head + tail
  }

  /** The vectoriser's input is fully lower-cased. */
  lemma CombinedTextIsLower(name: string, brand: string, category: string, tags: string, description: string)
    ensures NoUpper(CombinedText(name, NormalizeBrand(brand), category, tags, description))
  {
    LowerIsLower(name);
    LowerIsLower(category);
    LowerIsLower(tags);
    LowerIsLower(description);
    var t := CombinedText(name, NormalizeBrand(brand), category, tags, description);
    var b := NormalizeBrand(brand);
    assert NoUpper(" ") && NoUpper(b);
    forall a: string, c: string | NoUpper(a) && NoUpper(c) ensures NoUpper(a + c) {
      assert forall i :: 0 <= i < |a + c| ==> (a + c)[i] == if i < |a| then a[i] else c[i - |a|];
    }
  }

  lemma RatioInUnit(a: real, b: real)
    requires 0.0 <= a <= b && 0.0 < b
    ensures 0.0 <= a / b <= 1.0
    ensures a == b ==> a / b == 1.0
  {
  }

  /** `log1p` maps `[0, max]` into `[0, log1p(max)]`, and `log1p(max) > 0` when `max > 0`. */
  lemma Log1pBounds(log1p: Log1p, x: real, max: real)
    requires IsLog1p(log1p) && 0.0 <= x <= max
    ensures 0.0 <= log1p(x) <= log1p(max)
    ensures 0.0 < max ==> 0.0 < log1p(max)
  {
    assert x == 0.0 || log1p(0.0) < log1p(x);
    assert x == max || log1p(x) < log1p(max);
    assert max == 0.0 || log1p(0.0) < log1p(max);
  }

  /** `rating / max(rating)`, or 0 when the column maximum is 0. */
  function RatingComponent(rating: real, maxRating: real): (r: real)
    requires 0.0 <= rating <= maxRating
    ensures 0.0 <= r <= 1.0
    ensures maxRating == 0.0 ==> r == 0.0
    ensures 0.0 < maxRating == rating ==> r == 1.0
  {
    if maxRating > 0.0 then RatioInUnit(rating, maxRating); rating / maxRating else 0.0
  }

  /** `log1p(reviews) / log1p(max(reviews))`, or 0 when the column maximum is 0. */
  function ReviewComponent(reviews: real, maxReviews: real, log1p: Log1p): (r: real)
    requires IsLog1p(log1p) && 0.0 <= reviews <= maxReviews
    ensures 0.0 <= r <= 1.0
    ensures maxReviews == 0.0 ==> r == 0.0
    ensures 0.0 < maxReviews == reviews ==> r == 1.0
  {
    if maxReviews > 0.0 then
      Log1pBounds(log1p, reviews, maxReviews);
      RatioInUnit(log1p(reviews), log1p(maxReviews));
      log1p(reviews) / log1p(maxReviews)
    else 0.0
  }

  /**
   * The `popularity` column for one row: the mean of the two components.
   */
  function Popularity(rating: real, reviews: real, maxRating: real, maxReviews: real, log1p: Log1p): (r: real)
    requires IsLog1p(log1p)
    requires 0.0 <= rating <= maxRating && 0.0 <= reviews <= maxReviews
    ensures 0.0 <= r <= 1.0
    ensures maxRating == 0.0 && maxReviews == 0.0 ==> r == 0.0
    ensures 0.0 < maxRating == rating && 0.0 < maxReviews == reviews ==> r == 1.0
  {
    (RatingComponent(rating, maxRating) + ReviewComponent(reviews, maxReviews, log1p)) / 2.0
  }

  // ---------------------------------------------------------------------------
  // Column maxima

  /** The larger of 0 and every element: pandas `max()` of a cleaned column, where
    * an empty column's NaN fails the `> 0` test just as 0 does. */
  function MaxOrZero(xs: seq<real>): (m: real)
    ensures 0.0 <= m
    ensures forall i :: 0 <= i < |xs| ==> xs[i] <= m
    ensures m == 0.0 || exists i :: 0 <= i < |xs| && xs[i] == m
    decreases |xs|
  {
    if xs == [] then 0.0
    else
      var m := MaxOrZero(xs[..|xs| - 1]);
      var last := xs[|xs| - 1];
      if last > m then last else m
  }

  function RatingColumn(rows: seq<Product>): (c: seq<real>)
    ensures |c| == |rows|
  {
    seq(|rows|, i requires 0 <= i < |rows| => rows[i].ratingClean)
  }

  function ReviewColumn(rows: seq<Product>): (c: seq<real>)
    ensures |c| == |rows|
  {
    seq(|rows|, i requires 0 <= i < |rows| => rows[i].reviewCountClean)
  }

  // ---------------------------------------------------------------------------
  // The cleaning pass

  /**
   * A raw row with missing text filled and the text-derived and clipped columns
   * added; `popularity` is left at 0 until the column maxima are known.
   */
  function CleanRow(raw: RawProduct): (p: Product)
    ensures CleanedFrom(p, raw)
    ensures p.ratingClean >= 0.0 && p.reviewCountClean >= 0.0
    ensures IsStripped(p.normalizedName) && NoUpper(p.normalizedName)
    ensures NoUpper(p.combinedText)
  {
    var name := raw.name.GetOr("");
    var brand := raw.brand.GetOr("");
    var category := raw.category.GetOr("");
    var tags := raw.tags.GetOr("");
    var description := raw.description.GetOr("");
    var normalizedBrand := NormalizeBrand(brand);
    CombinedTextIsLower(name, brand, category, tags, description);
    Product(
      name, brand, category, tags, description,
      raw.rating, raw.reviewCount, raw.imageUrl,
      Normalize(name), normalizedBrand,
      CombinedText(name, normalizedBrand, category, tags, description),
      ClipCount(raw.rating), ClipCount(raw.reviewCount),
      0.0)
  }

  /** Row `p` is the cleaned form of `raw` (every column but `popularity`). */
  ghost predicate CleanedFrom(p: Product, raw: RawProduct) {
    && p.name == raw.name.GetOr("")
    && p.brand == raw.brand.GetOr("")
    && p.category == raw.category.GetOr("")
    && p.tags == raw.tags.GetOr("")
    && p.description == raw.description.GetOr("")
    && p.rating == raw.rating && p.reviewCount == raw.reviewCount && p.imageUrl == raw.imageUrl
    && p.normalizedName == Normalize(p.name)
    && p.normalizedBrand == NormalizeBrand(p.brand)
    && p.combinedText == CombinedText(p.name, p.normalizedBrand, p.category, p.tags, p.description)
    && p.ratingClean == ClipCount(raw.rating)
    && p.reviewCountClean == ClipCount(raw.reviewCount)
  }

  /** The text columns filled and derived and the counts clipped, row by row. */
  method CleanRows(raw: seq<RawProduct>) returns (cleaned: seq<Product>)
    ensures |cleaned| == |raw|
    ensures forall i :: 0 <= i < |raw| ==> CleanedFrom(cleaned[i], raw[i])
    ensures forall i :: 0 <= i < |raw| ==> cleaned[i].ratingClean >= 0.0 && cleaned[i].reviewCountClean >= 0.0
  {
    cleaned := [];
    for k := 0 to |raw|
      invariant |cleaned| == k
      invariant forall i :: 0 <= i < k ==> CleanedFrom(cleaned[i], raw[i])
      invariant forall i :: 0 <= i < k ==> cleaned[i].ratingClean >= 0.0 && cleaned[i].reviewCountClean >= 0.0
    {
      cleaned := cleaned + [CleanRow(raw[k])];
    }
  }

  /**
   * The `popularity` column added to a table whose counts are clipped: each row's
   * popularity from its own counts and the two column maxima.
   */
  function AddPopularity(cleaned: seq<Product>, log1p: Log1p): (rows: seq<Product>)
    requires IsLog1p(log1p)
    requires forall i :: 0 <= i < |cleaned| ==> cleaned[i].ratingClean >= 0.0 && cleaned[i].reviewCountClean >= 0.0
    ensures |rows| == |cleaned|
    ensures RatingColumn(rows) == RatingColumn(cleaned) && ReviewColumn(rows) == ReviewColumn(cleaned)
    ensures forall i :: 0 <= i < |rows| ==>
      && 0.0 <= rows[i].ratingClean <= MaxOrZero(RatingColumn(rows))
      && 0.0 <= rows[i].reviewCountClean <= MaxOrZero(ReviewColumn(rows))
    ensures forall i :: 0 <= i < |rows| ==>
      rows[i] == cleaned[i].(popularity := Popularity(rows[i].ratingClean, rows[i].reviewCountClean,
                                                      MaxOrZero(RatingColumn(rows)), MaxOrZero(ReviewColumn(rows)), log1p))
  {
    var maxRating := MaxOrZero(RatingColumn(cleaned));
    var maxReviews := MaxOrZero(ReviewColumn(cleaned));
    assert forall i :: 0 <= i < |cleaned| ==>
      RatingColumn(cleaned)[i] == cleaned[i].ratingClean && ReviewColumn(cleaned)[i] == cleaned[i].reviewCountClean;
    var rows := seq(|cleaned|, i requires 0 <= i < |cleaned| =>
      cleaned[i].(popularity := Popularity(cleaned[i].ratingClean, cleaned[i].reviewCountClean, maxRating, maxReviews, log1p)));
    assert RatingColumn(rows) == RatingColumn(cleaned);
    assert ReviewColumn(rows) == ReviewColumn(cleaned);
    rows
  }

  /** The column-wide popularity facts, from the per-row formula. */
  lemma PopularityColumn(rows: seq<Product>, maxRating: real, maxReviews: real, log1p: Log1p)
    requires IsLog1p(log1p)
    requires forall i :: 0 <= i < |rows| ==>
      && 0.0 <= rows[i].ratingClean <= maxRating && 0.0 <= rows[i].reviewCountClean <= maxReviews
      && rows[i].popularity == Popularity(rows[i].ratingClean, rows[i].reviewCountClean, maxRating, maxReviews, log1p)
    ensures forall i :: 0 <= i < |rows| ==> 0.0 <= rows[i].popularity <= 1.0
    ensures maxRating == 0.0 && maxReviews == 0.0 ==> forall i :: 0 <= i < |rows| ==> rows[i].popularity == 0.0
    ensures forall i | 0 <= i < |rows| && 0.0 < rows[i].ratingClean == maxRating && 0.0 < rows[i].reviewCountClean == maxReviews ::
      rows[i].popularity == 1.0
  {
  }

  /**
   * Every row's popularity is the formula over its own clipped counts and the
   * column maxima, which bound those counts.
   */
  ghost predicate PopularityFromMaxima(rows: seq<Product>, log1p: Log1p) {
    && IsLog1p(log1p)
    && forall i :: 0 <= i < |rows| ==>
      && 0.0 <= rows[i].ratingClean <= MaxOrZero(RatingColumn(rows))
      && 0.0 <= rows[i].reviewCountClean <= MaxOrZero(ReviewColumn(rows))
      && rows[i].popularity == Popularity(rows[i].ratingClean, rows[i].reviewCountClean,
                                          MaxOrZero(RatingColumn(rows)), MaxOrZero(ReviewColumn(rows)), log1p)
  }

  /**
   * `_prepare_dataframe`: fill and derive the text columns and clip the counts
   * row by row, take the column maxima, then add the popularity column.
   */
  method PrepareDataFrame(raw: seq<RawProduct>, log1p: Log1p) returns (rows: seq<Product>)
    requires IsLog1p(log1p)
    ensures |rows| == |raw|
    ensures forall i :: 0 <= i < |rows| ==> CleanedFrom(rows[i], raw[i])
    ensures PopularityFromMaxima(rows, log1p)
    ensures forall i :: 0 <= i < |rows| ==> 0.0 <= rows[i].popularity <= 1.0
    ensures MaxOrZero(RatingColumn(rows)) == 0.0 && MaxOrZero(ReviewColumn(rows)) == 0.0 ==>
      forall i :: 0 <= i < |rows| ==> rows[i].popularity == 0.0
    ensures forall i | 0 <= i < |rows| && 0.0 < rows[i].ratingClean == MaxOrZero(RatingColumn(rows))
                       && 0.0 < rows[i].reviewCountClean == MaxOrZero(ReviewColumn(rows)) ::
      rows[i].popularity == 1.0
  {
    var cleaned := CleanRows(raw);
    rows := AddPopularity(cleaned, log1p);
    forall i | 0 <= i < |rows|
      ensures CleanedFrom(rows[i], raw[i])
    {
      assert CleanedFrom(cleaned[i], raw[i]);
    }
    PopularityColumn(rows, MaxOrZero(RatingColumn(rows)), MaxOrZero(ReviewColumn(rows)), log1p);
  }
}
