/** movieReviews/tmp/code.py: the feature-engineering cell. It picks a text
    column, rewrites it as strings, and adds a word count, a token list, a
    corpus-wide top-20 vocabulary, per-row keywords and their joined string,
    short/long flags and a rating-based sentiment label, then drops the token
    helper column. */
module Features {
  import opened Collections
  import opened PyStr
  import opened Counting
  import opened Frame

  const TextCandidates: seq<string> := ["review_text", "content", "article_text", "body", "text"]
  const ShortThreshold: int := 10
  const TopNGlobal: nat := 20
  const PosThreshold: real := 8.0
  const NegThreshold: real := 4.0

  /** The stopword set of `_simple_tokens`, domain fillers included. */
  const Stopwords: set<string> := {
    "a", "an", "the", "and", "or", "but", "if", "while", "of", "at", "by", "for",
    "with", "about", "against", "between", "into", "through", "during", "before",
    "after", "above", "below", "to", "from", "up", "down", "in", "out", "on",
    "off", "over", "under", "again", "further", "then", "once", "here", "there",
    "when", "where", "why", "how", "all", "any", "both", "each", "few", "more",
    "most", "other", "some", "such", "no", "nor", "not", "only", "own", "same",
    "so", "than", "too", "very", "can", "will", "just", "don", "should", "now",
    "movie", "film", "review", "reviews", "article", "news"
  }

  // ---------------------------------------------------------------------------
  // Choosing the text column

  /** Position of the first candidate present among `columns`. */
  function FirstPresent(candidates: seq<string>, columns: seq<string>): (r: Option<nat>)
    ensures r.Some? ==> r.value < |candidates| && candidates[r.value] in columns
    ensures r.Some? ==> forall k :: 0 <= k < r.value ==> candidates[k] !in columns
    ensures r.None? <==> forall k :: 0 <= k < |candidates| ==> candidates[k] !in columns
    decreases |candidates|
  {
    if candidates == [] then None
    else if candidates[0] in columns then Some(0)
    else
      match FirstPresent(candidates[1..], columns)
      case None => None
      case Some(k) => Some(k + 1)
  }

  /** The text column: the first of the candidate names that the table has,
      or none. */
  function PickTextColumn(columns: seq<string>): Option<string> {
    match FirstPresent(TextCandidates, columns)
    case None => None
    case Some(k) => Some(TextCandidates[k])
  }

  /** The chosen column is a candidate the table has and no earlier candidate
      is present; nothing is chosen only when no candidate is present. */
  lemma PickTextColumnSpec(columns: seq<string>)
    ensures PickTextColumn(columns).None? <==>
      forall k :: 0 <= k < |TextCandidates| ==> TextCandidates[k] !in columns
    ensures PickTextColumn(columns).Some? ==>
      PickTextColumn(columns).value in TextCandidates && PickTextColumn(columns).value in columns
      && forall k :: 0 <= k < FirstIndex(TextCandidates, PickTextColumn(columns).value) ==>
        TextCandidates[k] !in columns
  {
    var r := FirstPresent(TextCandidates, columns);
    if r.Some? {
      var c := TextCandidates[r.value];
      assert c in TextCandidates;
      assert FirstIndex(TextCandidates, c) == r.value by {
        assert forall j, k :: 0 <= j < k < |TextCandidates| ==> TextCandidates[j] != TextCandidates[k];
      }
    }
  }

  // ---------------------------------------------------------------------------
  // Row-level features

  /** `str(value)` as `astype(str)` produces it: a string is kept, any other
      value (a number, or NaN, which becomes `"nan"`) is rendered by the
      library's formatter `render`. */
  function AsStr(c: Cell, render: Cell -> string): string {
    if c.Text? then c.s else render(c)
  }

  predicate IsNonBlank(w: string) {
    Strip(w) != []
  }

  /** The number of `split()` words that are not blank after `strip()`. */
  function WordCount(s: string): nat {
    |Select(Split(s), IsNonBlank)|
  }

  /** The non-blank filter never removes a token: the count is the number of
      whitespace-separated words. */
  lemma WordCountSpec(s: string)
    ensures WordCount(s) == |Split(s)|
  {
    var words := Split(s);
    forall w | w in words ensures IsNonBlank(w) {
      StripFacts(w);
    }
    SelectAll(words, IsNonBlank);
  }

  predicate IsTokenChar(c: char) {
    'a' <= c <= 'z' || '0' <= c <= '9'
  }

  /** `re.sub(r"[^a-z0-9\s]", " ", s)`: every character that is neither a
      lower-case letter, a digit nor whitespace becomes a space. */
  function Scrub(s: string): (r: string)
    ensures |r| == |s|
    ensures forall k :: 0 <= k < |r| ==> IsTokenChar(r[k]) || IsSpace(r[k])
    ensures forall k :: 0 <= k < |s| && (IsTokenChar(s[k]) || IsSpace(s[k])) ==> r[k] == s[k]
    ensures forall k :: 0 <= k < |s| && !IsTokenChar(s[k]) && !IsSpace(s[k]) ==> r[k] == ' '
  {
    seq(|s|, k requires 0 <= k < |s| => if IsTokenChar(s[k]) || IsSpace(s[k]) then s[k] else ' ')
  }

  predicate IsKeywordToken(w: string) {
    |w| >= 3 && w !in Stopwords
  }

  /** The whitespace-split words of the scrubbed, lowercased text. */
  function RawTokens(s: string): seq<string> {
    Split(Scrub(Lower(s)))
  }

  /** `_simple_tokens(s)`. */
  function SimpleTokens(s: string): seq<string> {
    Select(RawTokens(s), IsKeywordToken)
  }

  /** A token is made of `a-z0-9` only, is at least three characters long
      and is not a stopword. */
  predicate IsToken(w: string) {
    |w| >= 3 && w !in Stopwords && forall k :: 0 <= k < |w| ==> IsTokenChar(w[k])
  }

  /** Every token has the token shape; the tokens are the raw words in text
      order (a subsequence), and every raw word long enough and not a
      stopword is kept. */
  lemma SimpleTokensSpec(s: string)
    ensures forall i :: 0 <= i < |SimpleTokens(s)| ==> IsToken(SimpleTokens(s)[i])
    ensures IsSubsequenceAt(SimpleTokens(s), RawTokens(s), SelectPositions(RawTokens(s), IsKeywordToken))
    ensures forall i :: 0 <= i < |RawTokens(s)| && IsKeywordToken(RawTokens(s)[i]) ==>
      RawTokens(s)[i] in SimpleTokens(s)
  {
    var x := Scrub(Lower(s));
    var raw := Split(x);
    forall j | 0 <= j < |raw| ensures forall k :: 0 <= k < |raw[j]| ==> IsTokenChar(raw[j][k]) {
      SplitChars(x, j);
    }
    SelectSubsequence(raw, IsKeywordToken);
    SelectKeeps(raw, IsKeywordToken);
  }

  /** `_sentiment_from_rating(r)`: a null is unknown; a number at least 8 is
      positive, at most 4 negative, anything between neutral; a value the
      comparisons reject (text, a date, a list) raises inside the `try` and is
      unknown. */
  function SentimentFromRating(c: Cell): (s: Sentiment)
    ensures s == Unknown <==> NumericValue(c).None?
    ensures s == Positive <==> NumericValue(c).Some? && NumericValue(c).value >= PosThreshold
    ensures s == Negative <==> NumericValue(c).Some? && NumericValue(c).value <= NegThreshold
    ensures s == Neutral <==>
      NumericValue(c).Some? && NegThreshold < NumericValue(c).value < PosThreshold
  {
    match NumericValue(c)
    case None => Unknown
    case Some(x) => if x >= PosThreshold then Positive else if x <= NegThreshold then Negative else Neutral
  }

  // ---------------------------------------------------------------------------
  // The corpus vocabulary and the per-row keywords

  /** The corpus vocabulary: the words of the twenty most common tokens over
      all rows, most common first. */
  function Vocabulary(lists: seq<seq<string>>): seq<string> {
    Keys(MostCommon(Items(Tally(Flatten(lists))), TopNGlobal))
  }

  /** The corpus counter: starts empty and is updated with each row's token
      list in turn. */
  method CorpusCounter(lists: seq<seq<string>>) returns (counter: Counter)
    ensures counter == Tally(Flatten(lists))
  {
    counter := Empty;
    for i := 0 to |lists|
      invariant counter == Tally(Flatten(lists[..i]))
    {
      UpdateAppend(Empty, Flatten(lists[..i]), lists[i]);
      FlattenPrefix(lists, i);
      counter := Update(counter, lists[i]);
    }
    assert lists[..|lists|] == lists;
  }

  /** The vocabulary holds at most 20 distinct tokens of the corpus: the most
      frequent ones by total count over all rows, ties in first-encounter
      order, each paired in `most_common` with its exact count, and no
      omitted token ranking above an included one. */
  lemma VocabularySpec(lists: seq<seq<string>>)
    ensures |Vocabulary(lists)| == Min(TopNGlobal, |Dedup(Flatten(lists))|)
    ensures NoDuplicates(Vocabulary(lists))
    ensures forall k :: 0 <= k < |Vocabulary(lists)| ==> Vocabulary(lists)[k] in Flatten(lists)
    ensures IsMostCommon(Flatten(lists), TopNGlobal, MostCommon(Items(Tally(Flatten(lists))), TopNGlobal))
  {
    MostCommonOfTally(Flatten(lists), TopNGlobal);
  }

  function InVocabulary(vocab: seq<string>): string -> bool {
    w => w in vocab
  }

  /** `_row_keywords(tokens)`: one pass with a `seen` set. */
  method RowKeywords(tokens: seq<string>, vocab: seq<string>) returns (result: seq<string>)
    ensures result == FirstOccurrences(tokens, InVocabulary(vocab))
  {
    var seen: set<string> := {};
    result := [];
    for i := 0 to |tokens|
      invariant result == FirstOccurrences(tokens[..i], InVocabulary(vocab))
      invariant forall w :: w in seen <==> w in result
    {
      var t := tokens[i];
      assert tokens[..i + 1][..i] == tokens[..i];
      if t in vocab && t !in seen {
        seen := seen + {t};
        result := result + [t];
      }
    }
    assert tokens[..|tokens|] == tokens;
  }

  /** A row's keywords have no duplicates, sit in the row's token list at the
      first occurrence of each (a subsequence in first-occurrence order), are
      all vocabulary tokens, and include every vocabulary token of the row. */
  lemma RowKeywordsSpec(tokens: seq<string>, vocab: seq<string>)
    ensures NoDuplicates(FirstOccurrences(tokens, InVocabulary(vocab)))
    ensures IsSubsequenceAt(FirstOccurrences(tokens, InVocabulary(vocab)), tokens,
      FirstPositions(FirstOccurrences(tokens, InVocabulary(vocab)), tokens))
    ensures forall k :: 0 <= k < |FirstOccurrences(tokens, InVocabulary(vocab))| ==>
      FirstOccurrences(tokens, InVocabulary(vocab))[k] in vocab
    ensures forall i :: 0 <= i < |tokens| && tokens[i] in vocab ==>
      tokens[i] in FirstOccurrences(tokens, InVocabulary(vocab))
  {
    FirstOccurrencesSubsequence(tokens, InVocabulary(vocab));
  }

  /** Tokens hold no comma and no space, so splitting a non-empty
      `keywords_str` on `", "` gives back the keyword list, and an empty list
      gives the empty string. */
  lemma KeywordsStrRoundTrip(text: string, vocab: seq<string>)
    ensures FirstOccurrences(SimpleTokens(text), InVocabulary(vocab)) == [] ==>
      Join(FirstOccurrences(SimpleTokens(text), InVocabulary(vocab)), ", ") == ""
    ensures FirstOccurrences(SimpleTokens(text), InVocabulary(vocab)) != [] ==>
      SplitComma(Join(FirstOccurrences(SimpleTokens(text), InVocabulary(vocab)), ", ")) ==
        FirstOccurrences(SimpleTokens(text), InVocabulary(vocab))
  {
    var tokens := SimpleTokens(text);
    var ks := FirstOccurrences(tokens, InVocabulary(vocab));
    SimpleTokensSpec(text);
    forall i | 0 <= i < |ks| ensures ',' !in ks[i] {
      assert ks[i] in tokens;
      var j :| 0 <= j < |tokens| && tokens[j] == ks[i];
      assert IsToken(tokens[j]);
    }
    if ks != [] {
      SplitCommaJoin(ks);
    }
  }

  // ---------------------------------------------------------------------------
  // The columns the cell assigns

  function TextCells(xs: seq<string>): (cells: seq<Cell>)
    ensures |cells| == |xs|
  {
    seq(|xs|, i requires 0 <= i < |xs| => Text(xs[i]))
  }

  function IntCells(xs: seq<int>): (cells: seq<Cell>)
    ensures |cells| == |xs|
  {
    seq(|xs|, i requires 0 <= i < |xs| => Int(xs[i]))
  }

  function WordsCells(xs: seq<seq<string>>): (cells: seq<Cell>)
    ensures |cells| == |xs|
  {
    seq(|xs|, i requires 0 <= i < |xs| => Words(xs[i]))
  }

  function FlagCells(xs: seq<bool>): (cells: seq<Cell>)
    ensures |cells| == |xs|
  {
    seq(|xs|, i requires 0 <= i < |xs| => Flag(xs[i]))
  }

  /** `df[text_col].astype(str)`. */
  function Texts(t: Table, col: string, render: Cell -> string): (texts: seq<string>)
    ensures |texts| == |t.rows|
  {
    seq(|t.rows|, i requires 0 <= i < |t.rows| => AsStr(CellAt(t.rows[i], col), render))
  }

  function WordCounts(texts: seq<string>): (counts: seq<int>)
    ensures |counts| == |texts|
  {
    seq(|texts|, i requires 0 <= i < |texts| => WordCount(texts[i]) as int)
  }

  function TokenLists(texts: seq<string>): (lists: seq<seq<string>>)
    ensures |lists| == |texts|
  {
    seq(|texts|, i requires 0 <= i < |texts| => SimpleTokens(texts[i]))
  }

  function KeywordLists(lists: seq<seq<string>>, vocab: seq<string>): (kss: seq<seq<string>>)
    ensures |kss| == |lists|
  {
    seq(|lists|, i requires 0 <= i < |lists| => FirstOccurrences(lists[i], InVocabulary(vocab)))
  }

  function JoinedKeywords(kss: seq<seq<string>>): (strs: seq<string>)
    ensures |strs| == |kss|
  {
    seq(|kss|, i requires 0 <= i < |kss| => Join(kss[i], ", "))
  }

  function ShortFlags(counts: seq<int>): (flags: seq<bool>)
    ensures |flags| == |counts|
  {
    seq(|counts|, i requires 0 <= i < |counts| => counts[i] < ShortThreshold)
  }

  function LongFlags(counts: seq<int>, threshold: real): (flags: seq<bool>)
    ensures |flags| == |counts|
  {
    seq(|counts|, i requires 0 <= i < |counts| => counts[i] as real > threshold)
  }

  /** The table once the word-count, token, keyword and flag assignments
      have run on text column `col`; `p90` is
      pandas' `quantile(0.90)` of the word counts. */
  function TextFeatures(t: Table, col: string, render: Cell -> string, p90: seq<int> -> real): (r: Table)
    ensures |r.rows| == |t.rows|
  {
    var texts := Texts(t, col, render);
    var counts := WordCounts(texts);
    var lists := TokenLists(texts);
    var keywords := KeywordLists(lists, Vocabulary(lists));
    var t3 := WithColumn(WithColumn(WithColumn(t, col, TextCells(texts)), "word_count", IntCells(counts)),
      "_tokens", WordsCells(lists));
    TextFeaturesFrom(t3, counts, keywords, p90(counts))
  }

  /** `sentiment_proxy`: the rule applied to `rating`, or `"unknown"` on every
      row when there is no `rating` column. */
  function SentimentCells(t: Table): (cells: seq<Cell>)
    ensures |cells| == |t.rows|
  {
    if "rating" in t.columns then
      seq(|t.rows|, i requires 0 <= i < |t.rows| => Text(LabelText(SentimentFromRating(CellAt(t.rows[i], "rating")))))
    else
      seq(|t.rows|, i requires 0 <= i < |t.rows| => Text(LabelText(Unknown)))
  }

  /** The table the cell leaves, and whether it ran to its end. With no text
      column it only prints. On a table with no rows the quantile is NaN and
      converting the threshold to an integer for its message raises, so the cell
      stops after `is_long_text`. */
  function Engineered(t: Table, render: Cell -> string, p90: seq<int> -> real): (Table, bool) {
    match PickTextColumn(t.columns)
    case None => (t, true)
    case Some(col) =>
      var f := TextFeatures(t, col, render, p90);
      if |t.rows| == 0 then (f, false) else (Finished(f), true)
  }

  /** The closing steps: add `sentiment_proxy`, drop `_tokens`. */
  function Finished(f: Table): Table {
    WithoutColumn(WithColumn(f, "sentiment_proxy", SentimentCells(f)), "_tokens")
  }

  /** The `keywords` column: `_row_keywords` applied to each row's token
      list, row by row. */
  method KeywordColumn(lists: seq<seq<string>>, vocab: seq<string>) returns (keywords: seq<seq<string>>)
    ensures keywords == KeywordLists(lists, vocab)
  {
    keywords := [];
    for i := 0 to |lists|
      invariant keywords == KeywordLists(lists, vocab)[..i]
    {
      var ks := RowKeywords(lists[i], vocab);
      keywords := keywords + [ks];
    }
  }

  /** The word-count, token, keyword and flag assignments on text column
      `col`. */
  method AddTextFeatures(df: DataFrame, col: string, render: Cell -> string, p90: seq<int> -> real)
    modifies df
    ensures df.Snapshot() == TextFeatures(old(df.Snapshot()), col, render, p90)
  {
    ghost var t := df.Snapshot();
    var texts := Texts(df.Snapshot(), col, render);
    var counts := WordCounts(texts);
    var lists := TokenLists(texts);
    df.Assign(col, TextCells(texts));
    df.Assign("word_count", IntCells(counts));
    df.Assign("_tokens", WordsCells(lists));
    ghost var t3 := df.Snapshot();
    var counter := CorpusCounter(lists);
    var vocab := Keys(MostCommon(Items(counter), TopNGlobal));
    assert vocab == Vocabulary(lists);
    var keywords := KeywordColumn(lists, vocab);
    AddKeywordFlags(df, counts, keywords, p90);
    assert df.Snapshot() == TextFeaturesFrom(t3, counts, keywords, p90(counts));
  }

  /** The keyword, joined-keyword and short/long flag assignments, given the
      word counts and the keyword lists. */
  function TextFeaturesFrom(t: Table, counts: seq<int>, keywords: seq<seq<string>>, threshold: real): Table
    requires |counts| == |t.rows| && |keywords| == |t.rows|
  {
    var t4 := WithColumn(t, "keywords", WordsCells(keywords));
    var t5 := WithColumn(t4, "keywords_str", TextCells(JoinedKeywords(keywords)));
    var t6 := WithColumn(t5, "is_short_text", FlagCells(ShortFlags(counts)));
    WithColumn(t6, "is_long_text", FlagCells(LongFlags(counts, threshold)))
  }

  method AddKeywordFlags(df: DataFrame, counts: seq<int>, keywords: seq<seq<string>>, p90: seq<int> -> real)
    requires |counts| == |df.rows| && |keywords| == |df.rows|
    modifies df
    ensures df.Snapshot() == TextFeaturesFrom(old(df.Snapshot()), counts, keywords, p90(counts))
  {
    df.Assign("keywords", WordsCells(keywords));
    df.Assign("keywords_str", TextCells(JoinedKeywords(keywords)));
    df.Assign("is_short_text", FlagCells(ShortFlags(counts)));
    var longThreshold := p90(counts);
    df.Assign("is_long_text", FlagCells(LongFlags(counts, longThreshold)));
  }

  /** The whole cell, acting on the frame in place. */
  method EngineerFeatures(df: DataFrame, render: Cell -> string, p90: seq<int> -> real)
    returns (completed: bool)
    modifies df
    ensures (df.Snapshot(), completed) == Engineered(old(df.Snapshot()), render, p90)
  {
    var choice := PickTextColumn(df.columns);
    if choice.None? {
      return true;
    }
    var empty := |df.rows| == 0;
    AddTextFeatures(df, choice.value, render, p90);
    if empty {
      return false;
    }
    df.Assign("sentiment_proxy", SentimentCells(df.Snapshot()));
    df.Drop("_tokens");
    return true;
  }

  // ---------------------------------------------------------------------------
  // What the cell promises

  /** The columns the cell writes besides the text column. */
  const DerivedColumns: set<string> :=
    {"word_count", "_tokens", "keywords", "keywords_str", "is_short_text", "is_long_text", "sentiment_proxy"}

  /** One row after the word-count, token, keyword and flag assignments: the
      text column holds the row's string; the
      word count is its number of whitespace words; the tokens, keywords and
      joined keywords come from that string and the corpus vocabulary; the
      short flag depends on the row's own count only, the long flag compares
      it with the one table-wide threshold; nothing else changes. */
  lemma TextFeaturesRow(t: Table, col: string, render: Cell -> string, p90: seq<int> -> real, i: nat)
    requires col in TextCandidates && i < |t.rows|
    ensures var r := TextFeatures(t, col, render, p90).rows[i];
      var text := AsStr(CellAt(t.rows[i], col), render);
      var vocab := Vocabulary(TokenLists(Texts(t, col, render)));
      var keywords := FirstOccurrences(SimpleTokens(text), InVocabulary(vocab));
      CellAt(r, col) == Text(text)
      && CellAt(r, "word_count") == Int(|Split(text)|)
      && CellAt(r, "_tokens") == Words(SimpleTokens(text))
      && CellAt(r, "keywords") == Words(keywords)
      && CellAt(r, "keywords_str") == Text(Join(keywords, ", "))
      && CellAt(r, "is_short_text") == Flag(|Split(text)| < ShortThreshold)
      && CellAt(r, "is_long_text") == Flag(|Split(text)| as real > p90(WordCounts(Texts(t, col, render))))
    ensures forall d :: d != col && d !in DerivedColumns ==>
      CellAt(TextFeatures(t, col, render, p90).rows[i], d) == CellAt(t.rows[i], d)
  {
    ColumnNamesDistinct(col);
    var texts := Texts(t, col, render);
    var text := texts[i];
    WordCountSpec(text);
    var counts := WordCounts(texts);
    var lists := TokenLists(texts);
    var keywords := KeywordLists(lists, Vocabulary(lists));
    var t1 := WithColumn(t, col, TextCells(texts));
    var t2 := WithColumn(t1, "word_count", IntCells(counts));
    var t3 := WithColumn(t2, "_tokens", WordsCells(lists));
    var t4 := WithColumn(t3, "keywords", WordsCells(keywords));
    var t5 := WithColumn(t4, "keywords_str", TextCells(JoinedKeywords(keywords)));
    var t6 := WithColumn(t5, "is_short_text", FlagCells(ShortFlags(counts)));
    var t7 := WithColumn(t6, "is_long_text", FlagCells(LongFlags(counts, p90(counts))));
    assert TextFeatures(t, col, render, p90) == t7;
    var r1, r2, r3, r4, r5, r6, r7 := t1.rows[i], t2.rows[i], t3.rows[i], t4.rows[i], t5.rows[i], t6.rows[i], t7.rows[i];
    assert CellAt(r1, col) == Text(text);
    assert CellAt(r2, "word_count") == Int(|Split(text)|);
    assert CellAt(r3, "_tokens") == Words(lists[i]);
    assert CellAt(r4, "keywords") == Words(keywords[i]);
    assert CellAt(r5, "keywords_str") == Text(Join(keywords[i], ", "));
    assert CellAt(r6, "is_short_text") == Flag(counts[i] < ShortThreshold);
    assert CellAt(r7, "is_long_text") == Flag(counts[i] as real > p90(counts));
    forall d | d != "is_long_text" ensures CellAt(r7, d) == CellAt(r6, d) { }
    forall d | d != "is_short_text" ensures CellAt(r6, d) == CellAt(r5, d) { }
    forall d | d != "keywords_str" ensures CellAt(r5, d) == CellAt(r4, d) { }
    forall d | d != "keywords" ensures CellAt(r4, d) == CellAt(r3, d) { }
    forall d | d != "_tokens" ensures CellAt(r3, d) == CellAt(r2, d) { }
    forall d | d != "word_count" ensures CellAt(r2, d) == CellAt(r1, d) { }
    forall d | d != col ensures CellAt(r1, d) == CellAt(t.rows[i], d) { }
  }

  /** The text candidates and the derived column names are all different. */
  lemma ColumnNamesDistinct(col: string)
    requires col in TextCandidates
    ensures col !in DerivedColumns
    ensures "word_count" != "_tokens" && "word_count" != "keywords" && "word_count" != "keywords_str"
    ensures "word_count" != "is_short_text" && "word_count" != "is_long_text"
    ensures "_tokens" != "keywords" && "_tokens" != "keywords_str"
    ensures "_tokens" != "is_short_text" && "_tokens" != "is_long_text"
    ensures "keywords" != "keywords_str" && "keywords" != "is_short_text" && "keywords" != "is_long_text"
    ensures "keywords_str" != "is_short_text" && "keywords_str" != "is_long_text"
    ensures "is_short_text" != "is_long_text"
    ensures "sentiment_proxy" != "_tokens" && "rating" !in DerivedColumns && "rating" != col
  {
    assert "is_short_text"[3] != "is_long_text"[3];
    assert "keywords"[0] != "_tokens"[0];
  }

  /** The closing steps on one row: the label of the row's own rating (`unknown`
      everywhere without a `rating` column), no `_tokens`, nothing else
      changed. */
  lemma FinishRow(f: Table, i: nat)
    requires i < |f.rows|
    ensures var r := Finished(f).rows[i];
      CellAt(r, "_tokens") == Missing
      && CellAt(r, "sentiment_proxy") == Text(LabelText(
        if "rating" in f.columns then SentimentFromRating(CellAt(f.rows[i], "rating")) else Unknown))
    ensures forall d :: d != "_tokens" && d != "sentiment_proxy" ==>
      CellAt(Finished(f).rows[i], d) == CellAt(f.rows[i], d)
  {
    assert "sentiment_proxy" != "_tokens" by {
      assert "sentiment_proxy"[0] != "_tokens"[0];
    }
    var g := WithColumn(f, "sentiment_proxy", SentimentCells(f));
    assert CellAt(g.rows[i], "sentiment_proxy") == SentimentCells(f)[i];
  }

  /** One row of the finished table (a table with rows and a text column):
      the text features of that row, the sentiment label of its own rating
      (`unknown` everywhere without a `rating` column), no `_tokens` column,
      and every other cell as it was. */
  lemma EngineeredRow(t: Table, render: Cell -> string, p90: seq<int> -> real, i: nat)
    requires PickTextColumn(t.columns).Some? && i < |t.rows|
    ensures Engineered(t, render, p90).1
    ensures var col := PickTextColumn(t.columns).value;
      var r := Engineered(t, render, p90).0.rows[i];
      CellAt(r, "_tokens") == Missing
      && CellAt(r, "sentiment_proxy") == Text(LabelText(
        if "rating" in t.columns then SentimentFromRating(CellAt(t.rows[i], "rating")) else Unknown))
    ensures forall d :: d != "_tokens" && d != "sentiment_proxy" ==>
      CellAt(Engineered(t, render, p90).0.rows[i], d) ==
        CellAt(TextFeatures(t, PickTextColumn(t.columns).value, render, p90).rows[i], d)
  {
    var col := PickTextColumn(t.columns).value;
    PickTextColumnSpec(t.columns);
    TextFeaturesKeepRating(t, col, render, p90);
    RatingCellKept(t, col, render, p90, i);
    var f := TextFeatures(t, col, render, p90);
    assert Engineered(t, render, p90) == (Finished(f), true);
    FinishRow(f, i);
  }

  /** The text features leave each row's `rating` cell as it was. */
  lemma RatingCellKept(t: Table, col: string, render: Cell -> string, p90: seq<int> -> real, i: nat)
    requires col in TextCandidates && i < |t.rows|
    ensures CellAt(TextFeatures(t, col, render, p90).rows[i], "rating") == CellAt(t.rows[i], "rating")
  {
    ColumnNamesDistinct(col);
    TextFeaturesRow(t, col, render, p90, i);
  }

  /** The text features leave the presence of `rating` as it was. */
  lemma TextFeaturesKeepRating(t: Table, col: string, render: Cell -> string, p90: seq<int> -> real)
    requires col in TextCandidates
    ensures "rating" in TextFeatures(t, col, render, p90).columns <==> "rating" in t.columns
  {
    ColumnNamesDistinct(col);
    var texts := Texts(t, col, render);
    var counts := WordCounts(texts);
    var lists := TokenLists(texts);
    var keywords := KeywordLists(lists, Vocabulary(lists));
    var t1 := WithColumn(t, col, TextCells(texts));
    var t2 := WithColumn(t1, "word_count", IntCells(counts));
    var t3 := WithColumn(t2, "_tokens", WordsCells(lists));
    var t4 := WithColumn(t3, "keywords", WordsCells(keywords));
    var t5 := WithColumn(t4, "keywords_str", TextCells(JoinedKeywords(keywords)));
    var t6 := WithColumn(t5, "is_short_text", FlagCells(ShortFlags(counts)));
    var t7 := WithColumn(t6, "is_long_text", FlagCells(LongFlags(counts, p90(counts))));
    assert TextFeatures(t, col, render, p90) == t7;
    assert "rating" in t1.columns <==> "rating" in t.columns;
    assert "rating" in t2.columns <==> "rating" in t1.columns;
    assert "rating" in t3.columns <==> "rating" in t2.columns;
    assert "rating" in t4.columns <==> "rating" in t3.columns;
    assert "rating" in t5.columns <==> "rating" in t4.columns;
    assert "rating" in t6.columns <==> "rating" in t5.columns;
    assert "rating" in t7.columns <==> "rating" in t6.columns;
  }

  /** The cell writes nothing when no candidate column is present; it stops
      early exactly on a table with a text column and no rows; and it ends
      with a `sentiment_proxy` column and without `_tokens` whenever it runs
      to its end on a table with a text column. */
  lemma EngineeredOutcome(t: Table, render: Cell -> string, p90: seq<int> -> real)
    ensures (forall k :: 0 <= k < |TextCandidates| ==> TextCandidates[k] !in t.columns) ==>
      Engineered(t, render, p90) == (t, true)
    ensures !Engineered(t, render, p90).1 <==> PickTextColumn(t.columns).Some? && |t.rows| == 0
    ensures PickTextColumn(t.columns).Some? && |t.rows| > 0 ==>
      "sentiment_proxy" in Engineered(t, render, p90).0.columns
      && "_tokens" !in Engineered(t, render, p90).0.columns
    ensures |Engineered(t, render, p90).0.rows| == |t.rows|
  {
    PickTextColumnSpec(t.columns);
  }

  /** Every row's `keywords` cell in the finished table is a list without
      repeats. */
  lemma EngineeredKeywordsDistinct(t: Table, render: Cell -> string, p90: seq<int> -> real, i: nat)
    requires PickTextColumn(t.columns).Some? && i < |t.rows|
    ensures CellAt(Engineered(t, render, p90).0.rows[i], "keywords").Words?
    ensures NoDuplicates(CellAt(Engineered(t, render, p90).0.rows[i], "keywords").ws)
  {
    var col := PickTextColumn(t.columns).value;
    PickTextColumnSpec(t.columns);
    ColumnNamesDistinct(col);
    EngineeredRow(t, render, p90, i);
    TextFeaturesRow(t, col, render, p90, i);
  }
}
