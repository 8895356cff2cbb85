# Product recommender: a verified model

This project models the content-based product recommender of an e-commerce demo and the request helpers of its web front end.

## What the recommender does

The recommender is built from a product table. Building it does four things:

- it cleans each row: missing text becomes `""`, a lower-cased stripped name is added, the brand is normalised, the text fields are concatenated, and ratings and review counts are clipped;
- it gives every row a popularity in [0, 1];
- it refuses an empty table;
- it indexes each normalised name to the first row that has it.

A query name is resolved in two tiers: an exact normalised hit, else up to five fuzzy suggestions. For a resolved row, the recommender:

- takes the row's `min(30, rows)` nearest neighbours by cosine distance;
- drops the row itself;
- scores each candidate `0.75 * (1 - distance) + 0.25 * popularity`;
- returns the best `top_n` in descending score order.

`search` is the fuzzy lookup with a looser cutoff and a caller-chosen limit.

## What the front end does

The web front end contributes these helpers:

- `truncate`;
- the primary image of a trending product;
- registration form validation;
- the parsing of the recommendations form;
- the digit check on a session's user id.

## How the model is built

The modules follow the program:

- `Text`: ASCII `lower`/`strip`, `int()`, and Python slicing and splitting;
- `Catalog`: the cleaning pass;
- `NameIndex`: the name dictionary;
- `Recommender`: the recommender class;
- `App`: the front-end helpers.

The recommender is a class whose fields are set once by its constructor. `Create` models `__init__`, including its failure on an empty table and the vectoriser's failure, which it takes as a parameter.

Three library calls are parameters with stated assumptions:

- the fitted TF-IDF and nearest-neighbour models are a function from a query row to its pool of distinct `(row, distance)` pairs;
- `difflib.get_close_matches` is a matcher that returns at most `n` of its candidate strings;
- `np.log1p` is any function that is 0 at 0 and strictly increasing on the non-negative reals.

Scores are exact reals.

## Choices where the code promises less

- **Ties.** `recommend` calls `sort_values("score", ascending=False)`, pandas' default quicksort, which promises no order among equal scores. The model proves only what any correct sort gives:
  - a permutation;
  - non-increasing scores;
  - nothing left out by `head` scores above anything kept.

  The model sorts by insertion, which keeps input order among equal scores. That is one of the orders the code may produce.
- **`top_n`.** `recommend` passes any integer to `head`, with no check that it is positive. `head(0)` is empty and `head(-k)` drops the last `k` rows, and the model does the same (`Text.Prefix`).

## Model

| member | source | states |
|---|---|---|
| Text.Lower | recommendation.py:67 | `str.lower()` on ASCII: same length, each character lower-cased on its own |
| Text.Strip | recommendation.py:67 | `str.strip()`: the result has no whitespace at either end and is no longer than the input |
| Text.StripPadded | recommendation.py:67 | strip removes exactly the surrounding whitespace: a stripped text with any whitespace around it strips back to itself |
| Text.StripIdempotent | recommendation.py:102 | stripping twice is stripping once |
| Text.StripLowerCommute | app.py:129 | `s.strip().lower() == s.lower().strip()`, so the email is normalised the same way as product names |
| Text.Normalize | recommendation.py:110 | a normalised name has no whitespace at either end, no upper-case letter, and is no longer than the name |
| Text.NormalizeIgnoresPadding | recommendation.py:110-111 | `name.lower().strip()` ignores any whitespace around the name |
| Text.NormalizeIgnoresCase | recommendation.py:110-111 | `name.lower().strip()` gives the same key for the lower-cased name |
| Text.NormalizeIdempotent | recommendation.py:102 | normalising an index key again leaves it unchanged |
| Text.Decimal | app.py:59 | `str(n)` of a natural number is a non-empty string of digits, so it passes `isdigit` |
| Text.DecimalRoundTrip | app.py:59-60 | reading back the digits of `str(n)` gives `n` |
| Text.ParseInt | app.py:212 | `int(s)` succeeds only on a non-empty text that starts with a digit, a sign or `int`'s whitespace and ends with a digit or that whitespace |
| Text.ParseDigitRun | app.py:212 | a digit run is read only when it is well formed and has at most 4300 digits, underscores not counted (CPython's default limit) |
| Text.ParseDigitRunDigits | app.py:212 | a plain run of digits reads as its value when it has at most 4300 digits, leading zeros counted, and fails beyond that |
| Text.ParseIntDigits | app.py:60 | `int` of a string of ASCII digits is the number they spell when there are at most 4300 of them, leading zeros included, and fails beyond that |
| Text.ParseIntOfDigits | app.py:60 | `int` of a plain digit string is that string read as an unsigned run: no sign, no padding |
| Text.ParseIntPadded | app.py:212 | `int` skips exactly space, tab, newline, vertical tab, form feed and carriage return around the number |
| Text.ParseIntRejectsSeparator | app.py:212-214 | a character 0x1C-0x1F before or after the number makes `int` fail, although `str.strip` would remove it |
| Text.ParseIntDecimal | app.py:212 | `int(str(n)) == n` when `str(n)` has at most 4300 digits; `int` fails beyond that |
| Text.ParseIntNegative | app.py:212 | `int("-" + str(n)) == -n` when `str(n)` has at most 4300 digits; `int` fails beyond that |
| Text.ParseIntNeedsDigit | app.py:212-214 | text without a digit is not an integer: `int` fails |
| Text.Prefix | recommendation.py:137 | `s[:n]` / `head(n)`: the first `n` elements, or all but the last `-n` for negative `n`; its length is `PrefixLength` |
| Text.BeforeFirst | app.py:74 | `s.split(sep)[0]`: a prefix of `s` without `sep`, followed in `s` by `sep` when shorter than `s` |
| Catalog.ClipCount | recommendation.py:82-83 | `fillna(0).clip(lower=0)`: never negative, keeps a non-negative value, 0 for a missing or negative one |
| Catalog.NormalizeBrand | recommendation.py:68 | same length as the brand, only `a-z`, `0-9` and spaces, every other character (each upper-case letter included) replaced by a space |
| Catalog.CombinedText | recommendation.py:70-80 | the five fields joined by single spaces: name first, lower-cased; the normalised brand second; the lower-cased description last; length the sum of the fields plus 4 |
| Catalog.CombinedTextIsLower | recommendation.py:70-80 | the vectoriser's input has no upper-case letter |
| Catalog.RatingComponent | recommendation.py:85-87 | in [0, 1], 0 when the column maximum is 0, 1 for the row holding a positive maximum |
| Catalog.ReviewComponent | recommendation.py:89-91 | `log1p(c) / log1p(max)` is in [0, 1], 0 when the maximum is 0, 1 for the row holding a positive maximum |
| Catalog.Popularity | recommendation.py:93-94 | the mean of the two components is in [0, 1], 0 when both maxima are 0, 1 for a row holding both positive maxima |
| Catalog.MaxOrZero | recommendation.py:86 | the column maximum bounds every cleaned value, is non-negative, and is attained unless it is 0 |
| Catalog.CleanRow | recommendation.py:63-83 | one row cleaned from its raw row, with non-negative counts, a stripped lower-case normalised name and a lower-case combined text |
| Catalog.CleanRows | recommendation.py:63-83 | every row gets its text filled, normalised name and brand, combined text and clipped counts; the counts are non-negative |
| Catalog.AddPopularity | recommendation.py:85-94 | popularity is added from each row's own counts and the column maxima, and every other column is left unchanged |
| Catalog.PopularityColumn | recommendation.py:85-94 | per column: popularity in [0, 1], all 0 when both maxima are 0, exactly 1 for a row holding both positive maxima |
| Catalog.PrepareDataFrame | recommendation.py:60-96 | the cleaned table has one row per input row, each cleaned from its raw row, with popularity in [0, 1] from the column maxima, 0 everywhere when both maxima are 0 and 1 for a row holding both |
| NameIndex.SetDefaultStep | recommendation.py:103 | one `setdefault` keeps the index exact for one more row: an existing key keeps its row, a new key gets this row |
| NameIndex.BuildNameIndex | recommendation.py:99-104 | every key maps to the first row whose normalised name it is, every row's key is present, and keys are listed in the order of their first rows |
| NameIndex.KeysDistinct | recommendation.py:99-104 | each key is listed once |
| NameIndex.NameIndexUnique | recommendation.py:99-104 | the index is determined by the names: any two indexes of the same names agree on every key |
| NameIndex.FirstOccurrenceWins | recommendation.py:101-103 | a row's key maps to that row or an earlier one, and to that row exactly when no earlier row has the same key |
| Recommender.BlendedScore | recommendation.py:132-135 | with similarity in [-1, 1] and popularity in [0, 1] the score is in [-0.75, 1], and 1 for perfect similarity and popularity |
| Recommender.BlendedScoreMonotone | config.py:39 | the score rises with similarity and with popularity, by 0.75 and 0.25 per unit |
| Recommender.ExcludeRow | recommendation.py:130 | the pool keeps exactly its neighbours other than the query row |
| Recommender.ExcludeRowSize | recommendation.py:130 | a pool of distinct rows loses exactly one entry when it holds the query row, none otherwise |
| Recommender.InsertByScore | recommendation.py:137 | inserting adds exactly the one element |
| Recommender.InsertByScoreDescending | recommendation.py:137 | inserting into a descending list keeps it descending |
| Recommender.SortByScore | recommendation.py:137 | the sorted list is a permutation of the candidates |
| Recommender.SortByScoreDescending | recommendation.py:137 | the sorted list has non-increasing scores |
| Recommender.HeadKeepsBest | recommendation.py:137 | `head(top_n)` of a descending list is descending, a sub-multiset, and nothing it drops scores above anything it keeps |
| Recommender.TopScores | recommendation.py:137 | `sort_values(...).head(top_n)` returns `PrefixLength(|candidates|, top_n)` candidates, descending, and none left out scores above one kept |
| Recommender.ProductRecommender.constructor | recommendation.py:53-57 | the fields are set once; the pool size is `min(30, rows)` |
| Recommender.ProductRecommender.Create | recommendation.py:37-57 | construction fails exactly when the table is empty (with the empty-dataset message) or the vectoriser fit raises (with its error), so always on a one-row table; otherwise the recommender holds the cleaned rows, pools of `min(30, rows)` and the name index, and each row's popularity is the formula over its own counts and the column maxima |
| Recommender.ProductRecommender.IndexHasKey | recommendation.py:111 | a normalised query is an index key exactly when some row's name normalises to it |
| Recommender.ProductRecommender.KeyRow | recommendation.py:112 | a key's row is the first row whose name normalises to the key |
| Recommender.ProductRecommender.DisplayNames | recommendation.py:115 | each suggested key becomes the `Name` of its first-occurrence row, and that name normalises back to the key |
| Recommender.ProductRecommender.ResolveName | recommendation.py:106-115 | an empty name gives `(None, [])`; a row is returned exactly when some name matches ignoring case and surrounding whitespace, and it is the first such row, with no suggestions; otherwise one suggestion per match of the normalised query among the keys (at most 5, cutoff 0.6), in the matcher's order, each the name of the first-occurrence row of that key |
| Recommender.ProductRecommender.ResolveNameIgnoresPaddingAndCase | recommendation.py:110-112 | whitespace around a non-empty query or a change of case does not change its resolution |
| Recommender.ProductRecommender.ResolveNameBlankQuery | recommendation.py:107-112 | the empty query resolves to nothing with no suggestions, but a whitespace-only query is looked up as the key `""` and resolves exactly when some row's name is blank, to such a row |
| Recommender.ProductRecommender.Search | recommendation.py:153-158 | no result (an error) for `limit <= 0`; otherwise one first-occurrence name per match, at most `limit`, each normalising back to the matched key |
| Recommender.ProductRecommender.Candidate | recommendation.py:128-135 | a neighbour's row with similarity `1 - distance` and score `0.75 * similarity + 0.25 * popularity`, in [-0.75, 1] for a distance in [0, 2], and 1 at distance 0 with top popularity |
| Recommender.ProductRecommender.Candidates | recommendation.py:127-135 | the pool without the query row: as many candidates as it has entries, every candidate from the pool and not the query row, and every other pool row present as a candidate with similarity `1 - distance`, its row's popularity and the blended score |
| Recommender.ProductRecommender.Recommend | recommendation.py:117-151 | unresolved: no results, no resolved name, the resolver's suggestions and the not-found message. Resolved row `i`: its `Name`, no suggestions, `PrefixLength(|candidates|, top_n)` results, at most the pool size; for `top_n >= 0` at most `top_n`, and exactly `min(top_n, pool - 1)` when `i` is in its pool; non-increasing scores; each from `i`'s pool, not `i`, scored `0.75*(1-d) + 0.25*popularity`; nothing left out scores above anything returned |
| App.Truncate | app.py:79-80 | a text no longer than `length` is unchanged; a longer one becomes its first `length` characters and `"..."`, of length `length + 3` (Python slicing for negative lengths) |
| App.TruncateBounds | app.py:80 | a truncated text is at most `length + 3` long and is either the text or a prefix of it followed by `"..."` |
| App.PrimaryImage | app.py:73-75 | the primary image is stripped, contains no `|`, is no longer than the URL, and is `""` for a missing or empty URL |
| App.PrimaryImageOfList | app.py:74 | from URLs joined by `|`, the first URL is recovered whatever follows it and whatever whitespace surrounds it; a blank first segment gives `""` |
| App.BeforeFirstStopsAtSeparator | app.py:74 | `(head + "|" + rest).split("|")[0] == head`, and a text without `|` splits to itself |
| App.Register | app.py:124-154 | GET: empty form, no errors, nothing created. POST: username stripped, email stripped and lower-cased; "required" for an empty field, else "already in use/registered" for a taken one; the length error below 8 characters, else the mismatch error; no other error keys; a user is created exactly when there is no error, and a created user is new, non-empty and has a confirmed password of at least 8 characters |
| App.ReadRecommendationForm | app.py:210-214 | the product name is stripped; `top_n` is `int(nbr)`, or 10 when `nbr` is missing, not an integer or longer than `int` converts |
| App.ReadProductName | app.py:210 | a product name sent with surrounding whitespace reads back without it |
| App.FormGet | app.py:128-131 | `request.form.get(key, "")`: the field's value when it was sent, `""` otherwise |
| App.ReadTopNumberPadded | app.py:212-214 | `nbr` padded with `int`'s whitespace still reads as its number when it has at most 4300 digits, and falls back to 10 beyond that |
| App.ReadTopNumberRejectsSeparator | app.py:212-214 | `nbr` with a file, group, record or unit separator before or after the number falls back to 10 |
| App.ReadTopNumber | app.py:212-214 | `nbr` sent as `str(n)` or `"-" + str(n)` reads as `n` or `-n` when `str(n)` has at most 4300 digits, and falls back to 10 beyond that |
| App.ReadTopNumberDefault | app.py:213-214 | `nbr` without a digit falls back to 10 |
| App.LoadUser | app.py:57-61 | an error (the uncaught `ValueError`) exactly when the id is a digit string of more than 4300 digits; otherwise a user exactly when the id is a non-empty digit string naming a stored user, and it is that user |
| App.LoadUserRoundTrip | app.py:59-60 | the id stored as `str(id)` loads that user back and an unknown id loads nothing, up to 4300 digits; a longer one is the error |

## Left out

- TF-IDF fitting and the nearest-neighbour search (recommendation.py:45-55, 127) are sklearn calls over floating point. The model takes their output as a function from a query row to a pool of `min(30, rows)` distinct rows with distances in [0, 2]. It does not assume the query row is in its own pool, because an all-zero TF-IDF row need not be.
- `difflib.get_close_matches` (recommendation.py:114, 157) is a parameter that returns at most `n` of its candidates; its similarity ratio and cutoff are not modelled. Its `ValueError` for `n <= 0` is modelled in `Search`.
- Recommender.ProductRecommender.Recommend: the result order among equal scores is not stated, because pandas' default quicksort fixes none.
- Recommender.ProductRecommender.Create: when the vectoriser fit raises is a parameter. The model states only that it raises on a one-row table, since with a minimum document frequency of 2 no term can occur in two rows there; the vocabulary pruning that decides the other cases (stop words, bigrams, `max_features`) is not modelled.
- `np.log1p` and floating-point rounding: scores are exact reals, and `log1p` is any function that is 0 at 0 and strictly increasing.
- CSV reading, `astype(str)` of non-text cells, and data-file lookup (config.py) are file I/O. The model starts from rows whose cells are text, numbers or missing.
- Unicode: `lower`, `strip`, `isdigit` and `int` are modelled on ASCII and the ASCII control characters. `str.strip` removes space, tab, newline, vertical tab, form feed, carriage return and the separators 0x1C-0x1F; `int` skips only the first six.
- The integer digit limit is CPython's default of 4300. Raising or removing it with `sys.set_int_max_str_digits` or `PYTHONINTMAXSTRDIGITS` is not modelled. Neither is the same limit on `str(n)`: `Text.Decimal` prints any number.
- The rest of app.py is framework and I/O and is not modelled: Flask routing, redirects, flash messages, templates, sessions and the authenticated-user redirect, SQLAlchemy persistence, password hashing, login, and the trending-products CSV.
- App.Register: the order in which errors are flashed is not modelled (errors are a map, not an ordered dict).
- `RecommendationResponse.results` is a data frame; the model carries each result's row number alongside the selected columns.
