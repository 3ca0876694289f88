# Movie reviews: cleaning and feature derivation in Dafny

This project models the data-cleaning and feature-derivation code of a movie
review analysis script. A review table passes through three pieces of code:

- `movieReviews/analysis.py` counts duplicate rows, then cleans the table
  (`clean_data`). Cleaning drops duplicate rows, fills nulls with `""`, parses
  dates, trims and lowercases three text columns, and parses ratings. The
  script then adds a word count and a rating-based `sentiment` label, and
  extracts the ten most common non-stopword words.
- `movieReviews/tmp/code.py` is a notebook cell that works on the frame in
  place. It:
  - picks a text column;
  - adds a word count and a regex token list;
  - builds a corpus-wide top-20 vocabulary;
  - adds per-row keywords and their `", "`-joined string;
  - adds short/long flags and a second rating rule (`sentiment_proxy`);
  - drops its helper `_tokens` column.
- `movieReviews/tmp/sentiment.py` prints the ten most common keywords among the
  `positive` rows and among the `negative` rows.

The Dafny modules:

- `Collections`: occurrence counts; first-occurrence deduplication (pandas
  `drop_duplicates` and the `seen`-set loop of `_row_keywords`); filters;
  flattening; subsequence witnesses.
- `PyStr`: the Python string operations used, over ASCII. These are
  `isspace`, `lower`, `strip()`, `split()`, `", ".join` and `split(", ")`.
- `Counting`: `collections.Counter`, its `update`, and `most_common(n)`.
  `most_common(n)` is a stable sort by count, proved against a
  specification (`IsMostCommon`).
- `Frame`: the table. Cells are a datatype, rows are maps, and a `DataFrame`
  class has `columns` and `rows` fields that `Assign` (`df[c] = ...`) and
  `Drop` update in place.
- `Analysis`, `Features`, `LabelReport`: the three source files.

Each imperative step is a method. Its contract ties the frame's new contents
to a specification function. Lemmas then state what that function promises:
cell by cell, row counts, orderings and round trips.

Library parsers are parameters. `pd.to_datetime` and `pd.to_numeric` with
`errors="coerce"` are functions `Cell -> Option<...>`; `None` becomes a null
cell. `astype(str)` of a non-string value is `render: Cell -> string`. The
90th-percentile threshold `quantile(0.90)` is `p90: seq<int> -> real`.

Behaviours of the code worth knowing, each as the model states it:

- `clean_data` deduplicates before it normalises, so its output can contain
  rows that are equal after trimming and lowercasing, and cleaning is not
  idempotent: `" Matrix "` and `"matrix"` both survive one cleaning as
  `"matrix"` and collapse into one row on a second
  (`Analysis.CleanNotIdempotent`).
- Every null is filled with the empty string; there is no type-aware fill.
  Three later steps bring nulls back: the date coercion (an unparsable
  date), the rating coercion (an unparsable rating), and text normalisation,
  which turns every non-string cell of `movie_title`, `review_text` or
  `reviewer` into null (`Analysis.NormalizeText`).
- There are two rating rules, modelled separately. `add_sentiment_proxy`
  in `analysis.py` writes a column named `sentiment` with the thresholds ≥7
  and ≥4, and a null rating becomes `negative`. The `code.py` cell writes
  `sentiment_proxy` with ≥8 and ≤4, and a null rating becomes `unknown`.

## Model

| member | source | states |
|---|---|---|
| Collections.FirstOccurrences | movieReviews/tmp/code.py:66-73 | The `seen`-set loop's result has no duplicates, holds only input elements that pass the filter, and includes every input element that passes it |
| Collections.FirstOccurrencesOrder | movieReviews/tmp/code.py:66-73 | Kept elements appear in the order of their first occurrence in the input |
| Collections.FirstOccurrencesSubsequence | movieReviews/tmp/code.py:66-73 | The result is a subsequence of the input, taken at each value's first occurrence |
| Collections.DedupSpec | movieReviews/analysis.py:67 | `drop_duplicates` keeps each distinct row exactly once, in first-occurrence order; its length is the input length minus the `duplicated()` count |
| Collections.SelectSubsequence | movieReviews/tmp/code.py:51 | A list-comprehension filter returns a subsequence of its input |
| Collections.SelectKeeps | movieReviews/tmp/code.py:51 | The filter drops only the elements it rejects: each accepted value keeps all its copies, each rejected value loses all of them |
| Collections.SelectAll | movieReviews/tmp/code.py:26 | A filter that rejects nothing returns its input unchanged |
| Collections.FlattenMember | movieReviews/analysis.py:192-194 | Every element of the concatenated word list comes from one row's list |
| Collections.FlattenOccurrences | movieReviews/tmp/sentiment.py:10 | With duplicate-free lists, a keyword's count in the concatenation equals the number of lists that contain it |
| PyStr.Lower | movieReviews/analysis.py:79 | `str.lower()` keeps the length, maps each upper-case letter `A`-`Z` to the letter 32 code points later (`a`-`z`), and keeps every other character |
| PyStr.Strip | movieReviews/analysis.py:79 | `str.strip()` returns the infix after the leading whitespace; everything after it is whitespace; its ends are not whitespace |
| PyStr.StripFacts | movieReviews/analysis.py:79 | Strip returns "" exactly for all-whitespace strings, and leaves a string whose ends are not whitespace unchanged |
| PyStr.Split | movieReviews/analysis.py:173 | Every word `str.split()` returns is non-empty and contains no whitespace |
| PyStr.SplitIsMaximalRuns | movieReviews/analysis.py:173 | The words of `str.split()` are exactly the maximal runs of non-whitespace: one word per word start (a non-whitespace character at the start or after whitespace), at increasing positions, each running up to whitespace or the end |
| PyStr.SplitKeepsText | movieReviews/analysis.py:173 | Concatenating the words of `split()` gives exactly the non-whitespace characters of the input, in order |
| PyStr.SplitChars | movieReviews/tmp/code.py:50 | Every character of a split word is a character of the split string |
| PyStr.SplitCommaJoin | movieReviews/tmp/code.py:78 | `s.split(", ")` inverts `", ".join` on a non-empty list of comma-free items |
| Counting.UpdateAppend | movieReviews/tmp/code.py:57-58 | Two successive `update` calls equal one `update` with the concatenated lists |
| Counting.TallySpec | movieReviews/analysis.py:196 | `Counter(words)` has each distinct word once as a key, in first-encounter order, and counts each word's exact occurrences |
| Counting.MostCommonSpec | movieReviews/analysis.py:196 | `most_common(n)` picks the first `min(n, len)` positions of a stable ranking by count, and every omitted item ranks after every picked one |
| Counting.MostCommonOfTally | movieReviews/analysis.py:196 | `Counter(words).most_common(n)` returns `min(n, distinct)` distinct words with exact counts. They are ordered by non-increasing count, ties in first-encounter order, and no omitted word ranks above a returned one |
| Frame.WithColumn | movieReviews/analysis.py:173 | `df[c] = values` overwrites or appends column `c`, changes no other cell, keeps the row count, and keeps the table well formed |
| Frame.WithoutColumn | movieReviews/tmp/code.py:126 | Dropping `c` removes exactly that column, keeps the other columns in their order (unchanged when `c` is absent), and changes no other cell |
| Frame.DataFrame.Assign | movieReviews/analysis.py:173 | The frame's new contents are `WithColumn` of its old contents |
| Frame.DataFrame.Drop | movieReviews/tmp/code.py:126 | The frame's new contents are `WithoutColumn` of its old contents |
| Analysis.DropDuplicatesSpec | movieReviews/analysis.py:67 | After deduplication each distinct input row appears exactly once, in first-occurrence order. The row count is the input count minus the duplicate count that lines 57-58 report |
| Analysis.FillNa | movieReviews/analysis.py:68 | `fillna("")` turns every null into `""`, leaves every other cell alone, and keeps the columns and the row count |
| Analysis.NormalizeText | movieReviews/analysis.py:79 | A string becomes the lowercased infix that starts at its first non-whitespace character and is followed only by whitespace, with non-whitespace ends; a non-string becomes null |
| Analysis.MapColumnsSpec | movieReviews/analysis.py:71-79 | The per-column loops convert every listed column that is present, skip absent ones, and leave all other columns and the row count unchanged |
| Analysis.CleanData | movieReviews/analysis.py:65-85 | `clean_data` returns a new frame whose contents are the cleaned table `Clean` |
| Analysis.CleanSpec | movieReviews/analysis.py:65-85 | Each cell of the cleaned table is its deduplicated input cell, filled and then coerced according to its column. Columns are kept; the row count is the input count minus the duplicate count |
| Analysis.CleanNotIdempotent | movieReviews/analysis.py:67-79 | `" Matrix "` and `"matrix"` both survive one cleaning as `"matrix"`, and a second cleaning collapses them into one row |
| Analysis.CleanIsReady | movieReviews/analysis.py:229-238 | After cleaning, `review_text` holds strings or nulls and `rating` holds numbers or nulls, as the enhancements need |
| Analysis.AddWordCount | movieReviews/analysis.py:171-174 | The frame becomes `WithWordCount` of its old contents |
| Analysis.WordCountSpec | movieReviews/analysis.py:171-174 | With `review_text`, `word_count` is the number of whitespace words of each row's text; the words are non-empty and lose no non-whitespace character. Without it the table is unchanged, and no other column changes |
| Analysis.SentimentAtLeast7 | movieReviews/analysis.py:177-183 | The label is positive iff rating ≥7, neutral iff 4 ≤ rating < 7, and negative iff the rating is below 4 or null; never unknown |
| Analysis.AddSentimentProxy | movieReviews/analysis.py:177-183 | The frame becomes `WithSentiment` of its old contents |
| Analysis.SentimentSpec | movieReviews/analysis.py:177-183 | With `rating`, each row's `sentiment` is the ≥7 / ≥4 label of that row's own rating (one of positive/neutral/negative); without `rating` the table is unchanged; no other column changes |
| Analysis.SentimentAtLeast7Monotone | movieReviews/analysis.py:179-182 | A higher rating never gets a lower label |
| Analysis.ExtractTopKeywords | movieReviews/analysis.py:186-196 | The loop's result equals `TopKeywords` of the table |
| Analysis.TopKeywordsSpec | movieReviews/analysis.py:186-196 | Without `review_text` the result is `[]`. Otherwise it meets `IsMostCommon` over all non-stopword words, holds at most `top_n` pairs, and each word is a whitespace token of some lowercased review, not a stopword |
| Analysis.RunPipeline | movieReviews/analysis.py:224-243 | `main` yields the cleaned table with word count and sentiment, and the top ten keywords of that table |
| Features.FirstPresent | movieReviews/tmp/code.py:9 | The returned candidate is present and no earlier candidate is; None iff no candidate is present |
| Features.PickTextColumnSpec | movieReviews/tmp/code.py:8-14 | The text column is the first of the five candidates that the table has; none is chosen iff none is present |
| Features.WordCountSpec | movieReviews/tmp/code.py:23-27 | The non-blank filter never removes a token, so `word_count` is the number of whitespace words |
| Features.Scrub | movieReviews/tmp/code.py:50 | The regex substitution keeps the length, keeps every `a-z0-9` or whitespace character, and turns every other character into a space |
| Features.SimpleTokensSpec | movieReviews/tmp/code.py:47-51 | Every token is `a-z0-9` only, at least 3 long and not a stopword. Tokens are a subsequence of the scrubbed words, and every qualifying word is kept |
| Features.SentimentFromRating | movieReviews/tmp/code.py:107-117 | unknown iff the rating is null or not a number; positive iff ≥8; negative iff ≤4; neutral iff strictly between |
| Features.CorpusCounter | movieReviews/tmp/code.py:55-58 | The update loop yields `Counter` of all rows' tokens concatenated |
| Features.VocabularySpec | movieReviews/tmp/code.py:61-62 | The vocabulary has `min(20, distinct)` distinct corpus tokens, and `most_common(20)` meets `IsMostCommon` over the corpus |
| Features.RowKeywords | movieReviews/tmp/code.py:66-73 | The `seen`/`result` loop computes the first occurrences of the vocabulary tokens of the row |
| Features.RowKeywordsSpec | movieReviews/tmp/code.py:66-75 | Row keywords have no duplicates and sit in the token list at first occurrences, in order. All are vocabulary tokens, and every vocabulary token of the row is included |
| Features.KeywordsStrRoundTrip | movieReviews/tmp/code.py:78 | An empty keyword list joins to ""; a non-empty one is recovered exactly by `split(", ")` |
| Features.KeywordColumn | movieReviews/tmp/code.py:75 | Applying `_row_keywords` row by row yields each row's keyword list |
| Features.AddKeywordFlags | movieReviews/tmp/code.py:75-92 | The frame gains `keywords`, `keywords_str`, `is_short_text` and `is_long_text` as specified |
| Features.AddTextFeatures | movieReviews/tmp/code.py:17-92 | The frame becomes `TextFeatures` of its old contents |
| Features.EngineerFeatures | movieReviews/tmp/code.py:9-126 | The frame and the completion flag are `Engineered` of the old frame |
| Features.TextFeaturesRow | movieReviews/tmp/code.py:17-92 | Per row: the text column holds the row's string, and `word_count` is its whitespace-word count. Tokens, keywords and `keywords_str` derive from that string and the vocabulary. `is_short_text` is count < 10, `is_long_text` is count > the one table-wide threshold, and other cells are unchanged |
| Features.FinishRow | movieReviews/tmp/code.py:106-126 | `sentiment_proxy` is the rule on the row's own rating, or unknown without a `rating` column; `_tokens` is gone and other cells are unchanged |
| Features.EngineeredRow | movieReviews/tmp/code.py:17-126 | On a non-empty table with a text column the cell completes. Each row has the label of its own rating, no `_tokens`, and otherwise the text features |
| Features.EngineeredOutcome | movieReviews/tmp/code.py:9-126 | Without a candidate column nothing changes. The cell stops early iff there is a text column and no rows. A completed run has `sentiment_proxy` and no `_tokens`, and the row count is kept |
| Features.EngineeredKeywordsDistinct | movieReviews/tmp/code.py:66-75 | Every `keywords` cell in the finished table is a list without repeats |
| LabelReport.RowKeywordLists | movieReviews/tmp/sentiment.py:10 | The comprehension yields each selected row's iterable keyword value, and fails iff some row's value is not iterable |
| LabelReport.KeywordReportsSpec | movieReviews/tmp/sentiment.py:7-12 | Nothing is reported unless both `sentiment_proxy` and `keywords` exist. A completed run reports `positive` then `negative`, and completes iff both labels' comprehensions succeed |
| LabelReport.LabelledRowsSpec | movieReviews/tmp/sentiment.py:10 | The label filter keeps exactly the rows carrying the label, at their positions in table order, with every copy of a repeated row |
| LabelReport.LabelTopSpec | movieReviews/tmp/sentiment.py:9-12 | Only rows carrying the label contribute, each of them at its own table position, with every copy of a repeated row. The report meets `IsMostCommon` with n = 10 |
| LabelReport.LabelTopCountsRows | movieReviews/tmp/sentiment.py:10 | With duplicate-free keyword lists, each reported count is the number of rows with the label whose list contains the keyword |
| LabelReport.ReportOnDistinctKeywords | movieReviews/tmp/sentiment.py:10 | When every keyword cell is a duplicate-free list, the report for a label never fails and counts rows |
| LabelReport.ReportOnEngineered | movieReviews/tmp/sentiment.py:10 | On the table the feature cell leaves, the report never fails and each count is a number of rows |

## Left out

- Loading and exporting CSV files, and exiting the process. These are file I/O.
- Plots, the console output of `exploratory_analysis`, `movie_statistics` and `filtering_grouping`, and all `print` calls. These are rendering and console output.
- Floating-point statistics. Means, medians, minima and maxima, missing-value percentages and group means are left out. So is the average word count by sentiment that `sentiment.py` prints first.
- The interpolated `quantile(0.90)` is the parameter `p90`. Ratings are exact reals, and NaN is the null cell `Missing`.
- `pd.to_datetime` and `pd.to_numeric` are parameters applied cell by cell. Their column-wide format inference is not modelled.
- `astype(str)` of a non-string value, such as NaN becoming `"nan"`, is the parameter `render`.
- Strings are ASCII. `lower`, `strip`, `split` and the regex class `\s` use Python's ASCII whitespace set; Unicode case mapping and whitespace are not modelled.
- A text column holding no strings at all makes pandas' `.str` accessor raise `AttributeError`. The model treats each non-string cell as giving null, which is pandas' behaviour for mixed columns.
- Features.EngineerFeatures: on a table with no rows, the 90th-percentile threshold is NaN, and converting it to an integer for the `is_long_text` message raises. The model stops the cell right after `is_long_text` is assigned. The model does not capture whether pandas' `quantile` raises earlier on an empty object column.
- The branch of `code.py` for a table without `word_count` is unreachable, because `word_count` has just been created. It is not modelled.
- `Counter` is a value that the update loop reassigns; it is not an object with identity. Nothing else holds a reference to it.
- Comparisons that raise inside `_sentiment_from_rating` are modelled as non-numeric cells; bools count as numbers, as in Python.
