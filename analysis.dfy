/** movieReviews/analysis.py: the quality count of duplicate rows, the cleaning
    step `clean_data`, and the enhancements `add_word_count`,
    `add_sentiment_proxy` and `extract_top_keywords`, run in that order by
    `main`. */
module Analysis {
  import opened Collections
  import opened PyStr
  import opened Counting
  import opened Frame

  const DateColumns: seq<string> := ["review_date", "publish_date"]
  const TextColumns: seq<string> := ["movie_title", "review_text", "reviewer"]
  const KeywordStopwords: set<string> := {"the", "and", "a", "to", "of", "in", "is", "it"}
  const DefaultTopN: nat := 10

  // ---------------------------------------------------------------------------
  // exploratory_analysis: the duplicate count it reports

  /** The duplicate count `exploratory_analysis` reports: rows equal to some
      earlier row, as pandas' `duplicated()` marks them. */
  function DuplicatedRows(t: Table): nat {
    DuplicateCount(t.rows)
  }

  // ---------------------------------------------------------------------------
  // clean_data

  /** Pandas' `drop_duplicates`, the index renumbered. */
  function DropDuplicates(t: Table): Table {
    Table(t.columns, Dedup(t.rows))
  }

  /** Dropping duplicates keeps one copy of every distinct row, at its first
      occurrence and in the original order, so the row count falls by exactly
      the number `exploratory_analysis` reports on the same table. */
  lemma DropDuplicatesSpec(t: Table)
    ensures DropDuplicates(t).columns == t.columns
    ensures |DropDuplicates(t).rows| == |t.rows| - DuplicatedRows(t)
    ensures NoDuplicates(DropDuplicates(t).rows)
    ensures forall r :: r in t.rows ==> Occurrences(DropDuplicates(t).rows, r) == 1
    ensures forall r :: r in DropDuplicates(t).rows ==> r in t.rows
    ensures forall i, j :: 0 <= i < j < |DropDuplicates(t).rows| ==>
      FirstIndex(t.rows, DropDuplicates(t).rows[i]) < FirstIndex(t.rows, DropDuplicates(t).rows[j])
    ensures WellFormed(t) ==> WellFormed(DropDuplicates(t))
  {
    DedupSpec(t.rows);
  }

  function FillCell(c: Cell): Cell {
    if c == Missing then Text("") else c
  }

  /** `df.fillna("")`: every null becomes the empty string; every other cell,
      the columns and the row count stay as they were. */
  function FillNa(t: Table): (r: Table)
    ensures r.columns == t.columns && |r.rows| == |t.rows|
    ensures forall i :: 0 <= i < |t.rows| ==> r.rows[i].Keys == t.rows[i].Keys
    ensures forall i, c :: 0 <= i < |t.rows| && c in t.rows[i] ==> r.rows[i][c] != Missing
    ensures forall i, c :: 0 <= i < |t.rows| && c in t.rows[i] && t.rows[i][c] != Missing ==>
      r.rows[i][c] == t.rows[i][c]
    ensures forall i, c :: 0 <= i < |t.rows| && c in t.rows[i] && t.rows[i][c] == Missing ==>
      r.rows[i][c] == Text("")
    ensures WellFormed(t) ==> WellFormed(r)
  {
    Table(t.columns, seq(|t.rows|, i requires 0 <= i < |t.rows| =>
      map c | c in t.rows[i] :: FillCell(t.rows[i][c])))
  }

  /** `pd.to_datetime(value, errors="coerce")` for one cell: the parser is a
      parameter; a value it rejects becomes NaT (null), never a made-up date. */
  function CoerceDate(parse: Cell -> Option<Date>, c: Cell): Cell {
    match parse(c)
    case Some(d) => Day(d)
    case None => Missing
  }

  function DateCoercion(parse: Cell -> Option<Date>): Cell -> Cell {
    c => CoerceDate(parse, c)
  }

  /** `.str.strip().str.lower()` for one cell: a string is trimmed then
      lowercased; any other value gives NaN, as pandas' `.str` accessor does. */
  function NormalizeText(c: Cell): (r: Cell)
    ensures r.Text? <==> c.Text?
    ensures !c.Text? ==> r == Missing
    ensures c.Text? ==> LeadingSpaces(c.s) + |r.s| <= |c.s|
    ensures c.Text? ==> r.s == Lower(c.s[LeadingSpaces(c.s)..LeadingSpaces(c.s) + |r.s|])
    ensures c.Text? ==> forall k :: LeadingSpaces(c.s) + |r.s| <= k < |c.s| ==> IsSpace(c.s[k])
    ensures r.Text? ==> r.s == [] || (!IsSpace(r.s[0]) && !IsSpace(r.s[|r.s| - 1]))
    ensures r.Text? ==> forall k :: 0 <= k < |r.s| ==> !IsUpper(r.s[k])
  {
    match c
    case Text(s) => Text(Lower(Strip(s)))
    case _ => Missing
  }

  /** `pd.to_numeric(value, errors="coerce")` for one cell. */
  function CoerceNumber(parse: Cell -> Option<real>, c: Cell): Cell {
    match parse(c)
    case Some(x) => Num(x)
    case None => Missing
  }

  function NumberCoercion(parse: Cell -> Option<real>): Cell -> Cell {
    c => CoerceNumber(parse, c)
  }

  function MapCells(cells: seq<Cell>, f: Cell -> Cell): (r: seq<Cell>)
    ensures |r| == |cells|
  {
    seq(|cells|, i requires 0 <= i < |cells| => f(cells[i]))
  }

  /** Converts column `col` with `f` when the table has it; otherwise the
      table is unchanged. */
  function MapColumn(t: Table, col: string, f: Cell -> Cell): Table {
    if col in t.columns then WithColumn(t, col, MapCells(Column(t, col), f)) else t
  }

  /** The loop `for col in cols: if col in df.columns: df[col] = f(df[col])`. */
  function MapColumns(t: Table, cols: seq<string>, f: Cell -> Cell): Table
    decreases |cols|
  {
    if cols == [] then t
    else MapColumn(MapColumns(t, cols[..|cols| - 1], f), cols[|cols| - 1], f)
  }

  /** Applying a conversion to a list of distinct columns converts every listed
      column the table has, skips the listed columns it lacks, and leaves
      every other column, the column order and the row count alone. */
  lemma {:induction false} MapColumnsSpec(t: Table, cols: seq<string>, f: Cell -> Cell)
    requires NoDuplicates(cols)
    ensures MapColumns(t, cols, f).columns == t.columns
    ensures |MapColumns(t, cols, f).rows| == |t.rows|
    ensures forall i, d :: 0 <= i < |t.rows| ==>
      CellAt(MapColumns(t, cols, f).rows[i], d) ==
        if d in cols && d in t.columns then f(CellAt(t.rows[i], d)) else CellAt(t.rows[i], d)
    ensures WellFormed(t) ==> WellFormed(MapColumns(t, cols, f))
    decreases |cols|
  {
    if cols != [] {
      var p := cols[..|cols| - 1];
      var c := cols[|cols| - 1];
      assert cols == p + [c];
      assert NoDuplicates(p) by {
        assert forall i :: 0 <= i < |p| ==> p[i] == cols[i];
      }
      assert c !in p by {
        assert forall i :: 0 <= i < |p| ==> p[i] == cols[i];
      }
      MapColumnsSpec(t, p, f);
    }
  }

  /** What `clean_data` does to one cell of column `c`: fill nulls, then the
      conversion that column's name calls for. */
  function CleanCell(c: string, x: Cell, parseDate: Cell -> Option<Date>, parseNum: Cell -> Option<real>): Cell {
    var y := FillCell(x);
    if c in DateColumns then CoerceDate(parseDate, y)
    else if c in TextColumns then NormalizeText(y)
    else if c == "rating" then CoerceNumber(parseNum, y)
    else y
  }

  /** The table `clean_data` returns. */
  function Clean(t: Table, parseDate: Cell -> Option<Date>, parseNum: Cell -> Option<real>): Table {
    var filled := FillNa(DropDuplicates(t));
    var dated := MapColumns(filled, DateColumns, DateCoercion(parseDate));
    var normalized := MapColumns(dated, TextColumns, NormalizeText);
    MapColumn(normalized, "rating", NumberCoercion(parseNum))
  }

  /** `clean_data(df)`: the step-by-step rebinding and the loops over the two
      column lists. The input frame is left alone; the result is a new frame. */
  method CleanData(df: DataFrame, parseDate: Cell -> Option<Date>, parseNum: Cell -> Option<real>)
    returns (out: DataFrame)
    ensures fresh(out)
    ensures out.Snapshot() == Clean(df.Snapshot(), parseDate, parseNum)
  {
    out := new DataFrame(FillNa(DropDuplicates(df.Snapshot())));
    ghost var filled := out.Snapshot();
    for k := 0 to |DateColumns|
      invariant out.Snapshot() == MapColumns(filled, DateColumns[..k], DateCoercion(parseDate))
    {
      var col := DateColumns[k];
      if col in out.columns {
        out.Assign(col, MapCells(Column(out.Snapshot(), col), DateCoercion(parseDate)));
      }
      assert DateColumns[..k + 1][..k] == DateColumns[..k];
    }
    assert DateColumns[..|DateColumns|] == DateColumns;
    ghost var dated := out.Snapshot();
    for k := 0 to |TextColumns|
      invariant out.Snapshot() == MapColumns(dated, TextColumns[..k], NormalizeText)
    {
      var col := TextColumns[k];
      if col in out.columns {
        out.Assign(col, MapCells(Column(out.Snapshot(), col), NormalizeText));
      }
      assert TextColumns[..k + 1][..k] == TextColumns[..k];
    }
    assert TextColumns[..|TextColumns|] == TextColumns;
    if "rating" in out.columns {
      out.Assign("rating", MapCells(Column(out.Snapshot(), "rating"), NumberCoercion(parseNum)));
    }
  }

  /** The cleaned table, cell by cell: it has the input's columns, one row per
      distinct input row (first occurrences, in order), and each cell is the
      filled and converted value of the same cell of that row. */
  lemma CleanSpec(t: Table, parseDate: Cell -> Option<Date>, parseNum: Cell -> Option<real>)
    requires WellFormed(t)
    ensures Clean(t, parseDate, parseNum).columns == t.columns
    ensures |Clean(t, parseDate, parseNum).rows| == |t.rows| - DuplicatedRows(t)
    ensures |Clean(t, parseDate, parseNum).rows| == |Dedup(t.rows)|
    ensures forall i, c :: 0 <= i < |Dedup(t.rows)| && c in t.columns ==>
      CellAt(Clean(t, parseDate, parseNum).rows[i], c) ==
        CleanCell(c, CellAt(Dedup(t.rows)[i], c), parseDate, parseNum)
    ensures WellFormed(Clean(t, parseDate, parseNum))
  {
    DropDuplicatesSpec(t);
    var deduped := DropDuplicates(t);
    var filled := FillNa(deduped);
    var dated := MapColumns(filled, DateColumns, DateCoercion(parseDate));
    var normalized := MapColumns(dated, TextColumns, NormalizeText);
    var final := MapColumn(normalized, "rating", NumberCoercion(parseNum));
    assert final == Clean(t, parseDate, parseNum);
    assert NoDuplicates(DateColumns) && NoDuplicates(TextColumns);
    MapColumnsSpec(filled, DateColumns, DateCoercion(parseDate));
    MapColumnsSpec(dated, TextColumns, NormalizeText);
    forall i, c | 0 <= i < |deduped.rows| && c in t.columns
      ensures CellAt(final.rows[i], c) == CleanCell(c, CellAt(deduped.rows[i], c), parseDate, parseNum)
    {
      var x0 := CellAt(deduped.rows[i], c);
      assert deduped.rows[i] in t.rows;
      assert c in deduped.rows[i];
      var x1 := CellAt(filled.rows[i], c);
      assert x1 == FillCell(x0);
      var x2 := CellAt(dated.rows[i], c);
      assert x2 == if c in DateColumns then CoerceDate(parseDate, x1) else x1;
      var x3 := CellAt(normalized.rows[i], c);
      assert x3 == if c in TextColumns then NormalizeText(x2) else x2;
      var x4 := CellAt(final.rows[i], c);
      assert x4 == if c == "rating" then CoerceNumber(parseNum, x3) else x3;
      CleanCellStages(c, x0, x1, x2, x3, x4, parseDate, parseNum);
    }
  }

  /** The four stages of `clean_data` compose to `CleanCell` on one cell. */
  lemma CleanCellStages(c: string, x0: Cell, x1: Cell, x2: Cell, x3: Cell, x4: Cell,
                        parseDate: Cell -> Option<Date>, parseNum: Cell -> Option<real>)
    requires x1 == FillCell(x0)
    requires x2 == if c in DateColumns then CoerceDate(parseDate, x1) else x1
    requires x3 == if c in TextColumns then NormalizeText(x2) else x2
    requires x4 == if c == "rating" then CoerceNumber(parseNum, x3) else x3
    ensures x4 == CleanCell(c, x0, parseDate, parseNum)
  {
  }

  /** Deduplication looks at the raw values, before trimming and lowercasing:
      two titles that differ only in case and surrounding blanks both survive
      one cleaning and collapse into one row on a second cleaning, so
      `clean_data` is not idempotent. */
  lemma CleanNotIdempotent(parseDate: Cell -> Option<Date>, parseNum: Cell -> Option<real>)
    ensures var t := Table(["movie_title"], [map["movie_title" := Text(" Matrix ")], map["movie_title" := Text("matrix")]]);
      |Clean(t, parseDate, parseNum).rows| == 2
      && CellAt(Clean(t, parseDate, parseNum).rows[0], "movie_title") == Text("matrix")
      && CellAt(Clean(t, parseDate, parseNum).rows[1], "movie_title") == Text("matrix")
      && |Clean(Clean(t, parseDate, parseNum), parseDate, parseNum).rows| == 1
  {
    var r0: Row := map["movie_title" := Text(" Matrix ")];
    var r1: Row := map["movie_title" := Text("matrix")];
    assert r0 != r1 by {
      assert r0["movie_title"] != r1["movie_title"];
    }
    CleanTwoTitles(Table(["movie_title"], [r0, r1]), r0, r1, parseDate, parseNum);
  }

  lemma CleanTwoTitles(t: Table, r0: Row, r1: Row, parseDate: Cell -> Option<Date>, parseNum: Cell -> Option<real>)
    requires r0 == map["movie_title" := Text(" Matrix ")] && r1 == map["movie_title" := Text("matrix")]
    requires r0 != r1
    requires t.columns == ["movie_title"] && t.rows == [r0, r1]
    ensures |Clean(t, parseDate, parseNum).rows| == 2
    ensures Clean(t, parseDate, parseNum).columns == ["movie_title"]
    ensures WellFormed(Clean(t, parseDate, parseNum))
    ensures CellAt(Clean(t, parseDate, parseNum).rows[0], "movie_title") == Text("matrix")
    ensures CellAt(Clean(t, parseDate, parseNum).rows[1], "movie_title") == Text("matrix")
    ensures |Clean(Clean(t, parseDate, parseNum), parseDate, parseNum).rows| == 1
  {
    assert WellFormed(t);
    DedupOfDistinctPair(r0, r1);
    CleanShape(t, parseDate, parseNum);
    CleanCellAt(t, parseDate, parseNum, 0, "movie_title");
    CleanCellAt(t, parseDate, parseNum, 1, "movie_title");
    MatrixTitles(parseDate, parseNum);
    CleanCollapsesEqualTitles(Clean(t, parseDate, parseNum), parseDate, parseNum);
  }

  /** A two-row table whose rows are the same title cleans to one row. */
  lemma CleanCollapsesEqualTitles(t: Table, parseDate: Cell -> Option<Date>, parseNum: Cell -> Option<real>)
    requires WellFormed(t) && t.columns == ["movie_title"] && |t.rows| == 2
    requires CellAt(t.rows[0], "movie_title") == Text("matrix")
    requires CellAt(t.rows[1], "movie_title") == Text("matrix")
    ensures |Clean(t, parseDate, parseNum).rows| == 1
  {
    var same: Row := map["movie_title" := Text("matrix")];
    assert t.rows[0].Keys == {"movie_title"} && t.rows[1].Keys == {"movie_title"};
    assert t.rows[0] == same && t.rows[1] == same;
    assert t.rows == [same, same];
    DedupOfEqualPair(same);
    CleanShape(t, parseDate, parseNum);
  }

  /** Both spellings of the title clean to the same string. */
  lemma MatrixTitles(parseDate: Cell -> Option<Date>, parseNum: Cell -> Option<real>)
    ensures CleanCell("movie_title", Text(" Matrix "), parseDate, parseNum) == Text("matrix")
    ensures CleanCell("movie_title", Text("matrix"), parseDate, parseNum) == Text("matrix")
  {
    assert "movie_title" !in DateColumns && "movie_title" in TextColumns;
    var padded := " Matrix ";
    assert LeadingSpaces(padded[1..]) == 0;
    assert LeadingSpaces(padded) == 1;
    var t := padded[1..];
    assert t[..|t| - 1] == "Matrix";
    assert TrailingSpaces("Matrix") == 0;
    assert TrailingSpaces(t) == 1;
    assert Strip(padded) == "Matrix";
    StripFacts("matrix");
    LowerOfMatrix("Matrix");
    LowerOfMatrix("matrix");
  }

  lemma LowerOfMatrix(s: string)
    requires s == "Matrix" || s == "matrix"
    ensures Lower(s) == "matrix"
  {
    var r := Lower(s);
    assert |r| == 6;
    assert r[0] == LowerChar(s[0]) == 'm';
    assert forall k :: 1 <= k < 6 ==> r[k] == s[k];
  }

  lemma DedupOfDistinctPair<T>(a: T, b: T)
    requires a != b
    ensures Dedup([a, b]) == [a, b]
  {
    var s := [a, b];
    DedupSpec(s);
    assert DuplicateCount(s) == 0 by {
      assert s[..1] == [a] && [a][..0] == [];
      assert b !in [a];
    }
    FirstOccurrencesOrder(s, _ => true);
    assert a in Dedup(s) && b in Dedup(s);
    assert FirstIndex(s, a) == 0 && FirstIndex(s, b) == 1;
  }

  lemma DedupOfEqualPair<T>(a: T)
    ensures |Dedup([a, a])| == 1
  {
    var s := [a, a];
    DedupSpec(s);
    assert s[..1] == [a] && [a][..0] == [];
    assert DuplicateCount(s) == 1;
  }

  // ---------------------------------------------------------------------------
  // Enhancements

  /** The review text as the enhancements read it after `.fillna("")`. */
  function TextOf(c: Cell): string {
    if c.Text? then c.s else ""
  }

  /** `review_text` holds strings or nulls, so `x.split()` and `.str.lower()`
      do not raise. */
  predicate ReviewTextReady(t: Table) {
    "review_text" in t.columns ==>
      forall i :: 0 <= i < |t.rows| ==> CellAt(t.rows[i], "review_text").Text? || CellAt(t.rows[i], "review_text") == Missing
  }

  /** `rating` holds numbers or nulls, so `rating >= 7` does not raise. */
  predicate RatingReady(t: Table) {
    "rating" in t.columns ==>
      forall i :: 0 <= i < |t.rows| ==> NumericValue(CellAt(t.rows[i], "rating")).Some? || CellAt(t.rows[i], "rating") == Missing
  }

  /** `clean_data` leaves the table in the state the enhancements need, which
      is the order in which `main` runs them. */
  lemma CleanIsReady(t: Table, parseDate: Cell -> Option<Date>, parseNum: Cell -> Option<real>)
    requires WellFormed(t)
    ensures ReviewTextReady(Clean(t, parseDate, parseNum))
    ensures RatingReady(Clean(t, parseDate, parseNum))
  {
    var r := Clean(t, parseDate, parseNum);
    CleanShape(t, parseDate, parseNum);
    forall i | 0 <= i < |r.rows|
      ensures "review_text" in r.columns ==>
        CellAt(r.rows[i], "review_text").Text? || CellAt(r.rows[i], "review_text") == Missing
      ensures "rating" in r.columns ==>
        NumericValue(CellAt(r.rows[i], "rating")).Some? || CellAt(r.rows[i], "rating") == Missing
    {
      if "review_text" in r.columns {
        CleanCellAt(t, parseDate, parseNum, i, "review_text");
      }
      if "rating" in r.columns {
        CleanCellAt(t, parseDate, parseNum, i, "rating");
      }
    }
  }

  lemma CleanShape(t: Table, parseDate: Cell -> Option<Date>, parseNum: Cell -> Option<real>)
    requires WellFormed(t)
    ensures Clean(t, parseDate, parseNum).columns == t.columns
    ensures |Clean(t, parseDate, parseNum).rows| == |Dedup(t.rows)|
    ensures WellFormed(Clean(t, parseDate, parseNum))
  {
    CleanSpec(t, parseDate, parseNum);
  }

  /** One cell of the cleaned table. */
  lemma CleanCellAt(t: Table, parseDate: Cell -> Option<Date>, parseNum: Cell -> Option<real>, i: nat, c: string)
    requires WellFormed(t) && i < |Dedup(t.rows)| && c in t.columns
    ensures i < |Clean(t, parseDate, parseNum).rows|
    ensures CellAt(Clean(t, parseDate, parseNum).rows[i], c) ==
      CleanCell(c, CellAt(Dedup(t.rows)[i], c), parseDate, parseNum)
  {
    CleanSpec(t, parseDate, parseNum);
  }

  /** The table `add_word_count` leaves. */
  function WithWordCount(t: Table): Table {
    if "review_text" in t.columns then
      WithColumn(t, "word_count", seq(|t.rows|, i requires 0 <= i < |t.rows| =>
        Int(|Split(TextOf(CellAt(t.rows[i], "review_text")))|)))
    else t
  }

  /** `add_word_count(df)`: assigns `word_count` into the frame it is given. */
  method AddWordCount(df: DataFrame)
    requires ReviewTextReady(df.Snapshot())
    modifies df
    ensures df.Snapshot() == WithWordCount(old(df.Snapshot()))
  {
    if "review_text" in df.columns {
      var rows := df.rows;
      var counts := seq(|rows|, i requires 0 <= i < |rows| =>
        Int(|Split(TextOf(CellAt(rows[i], "review_text")))|));
      df.Assign("word_count", counts);
    }
  }

  /** With `review_text` present, `word_count` is the number of whitespace
      separated words of each row's text (0 for a null), every word non-empty
      and free of whitespace, and no other column changes; without it the
      table is returned unchanged. */
  lemma WordCountSpec(t: Table)
    ensures "review_text" !in t.columns ==> WithWordCount(t) == t
    ensures |WithWordCount(t).rows| == |t.rows|
    ensures "review_text" in t.columns ==> forall i :: 0 <= i < |t.rows| ==>
      var words := Split(TextOf(CellAt(t.rows[i], "review_text")));
      CellAt(WithWordCount(t).rows[i], "word_count") == Int(|words|)
      && (forall k :: 0 <= k < |words| ==> words[k] != [] && NoSpace(words[k]))
      && Concat(words) == NonSpaceChars(TextOf(CellAt(t.rows[i], "review_text")))
    ensures forall i, d :: 0 <= i < |t.rows| && d != "word_count" ==>
      CellAt(WithWordCount(t).rows[i], d) == CellAt(t.rows[i], d)
  {
    forall i | 0 <= i < |t.rows| {
      SplitKeepsText(TextOf(CellAt(t.rows[i], "review_text")));
    }
  }

  /** The sentiment rule of `add_sentiment_proxy` for one rating: at least 7
      is positive, at least 4 neutral, anything else negative. A null rating
      fails both comparisons and is therefore negative; there is no unknown. */
  function SentimentAtLeast7(rating: Option<real>): (s: Sentiment)
    ensures s != Unknown
    ensures s == Positive <==> rating.Some? && rating.value >= 7.0
    ensures s == Neutral <==> rating.Some? && 4.0 <= rating.value < 7.0
    ensures s == Negative <==> rating.None? || rating.value < 4.0
  {
    match rating
    case Some(x) => if x >= 7.0 then Positive else if x >= 4.0 then Neutral else Negative
    case None => Negative
  }

  /** The table `add_sentiment_proxy` leaves (its column is named
      `sentiment`). */
  function WithSentiment(t: Table): Table {
    if "rating" in t.columns then
      WithColumn(t, "sentiment", seq(|t.rows|, i requires 0 <= i < |t.rows| =>
        Text(LabelText(SentimentAtLeast7(NumericValue(CellAt(t.rows[i], "rating")))))))
    else t
  }

  /** `add_sentiment_proxy(df)`: assigns `sentiment` into the frame it is given. */
  method AddSentimentProxy(df: DataFrame)
    requires RatingReady(df.Snapshot())
    modifies df
    ensures df.Snapshot() == WithSentiment(old(df.Snapshot()))
  {
    if "rating" in df.columns {
      var rows := df.rows;
      var labels := seq(|rows|, i requires 0 <= i < |rows| =>
        Text(LabelText(SentimentAtLeast7(NumericValue(CellAt(rows[i], "rating"))))));
      df.Assign("sentiment", labels);
    }
  }

  /** When `rating` exists, every row gets exactly one of positive, neutral,
      negative in `sentiment`: the label the ≥7 / ≥4 rule gives that row's own
      rating. No other column changes. */
  lemma SentimentSpec(t: Table)
    ensures "rating" !in t.columns ==> WithSentiment(t) == t
    ensures "rating" in t.columns ==> forall i :: 0 <= i < |t.rows| ==>
      CellAt(WithSentiment(t).rows[i], "sentiment") in
        {Text("positive"), Text("neutral"), Text("negative")}
    ensures "rating" in t.columns ==> forall i :: 0 <= i < |t.rows| ==>
      CellAt(WithSentiment(t).rows[i], "sentiment") ==
        Text(LabelText(SentimentAtLeast7(NumericValue(CellAt(t.rows[i], "rating")))))
    ensures forall i, d :: 0 <= i < |t.rows| && d != "sentiment" ==>
      CellAt(WithSentiment(t).rows[i], d) == CellAt(t.rows[i], d)
  {
  }

  function Rank(s: Sentiment): int {
    match s
    case Negative => 0
    case Neutral => 1
    case Positive => 2
    case Unknown => -1
  }

  /** The ≥7 / ≥4 rule never ranks a higher rating below a lower one. */
  lemma SentimentAtLeast7Monotone(x: real, y: real)
    requires x <= y
    ensures Rank(SentimentAtLeast7(Some(x))) <= Rank(SentimentAtLeast7(Some(y)))
  {
  }

  /** A review's words as `extract_top_keywords` collects them: the
      lowercased text split on whitespace, stopwords removed. */
  function ReviewWords(c: Cell): seq<string> {
    Select(Split(Lower(TextOf(c))), w => w !in KeywordStopwords)
  }

  function ReviewWordLists(t: Table): (lists: seq<seq<string>>)
    ensures |lists| == |t.rows|
  {
    seq(|t.rows|, i requires 0 <= i < |t.rows| => ReviewWords(CellAt(t.rows[i], "review_text")))
  }

  /** The list `extract_top_keywords` returns. */
  function TopKeywords(t: Table, n: nat): seq<(string, nat)> {
    if "review_text" in t.columns then MostCommon(Items(Tally(Flatten(ReviewWordLists(t)))), n) else []
  }

  /** `extract_top_keywords(df, top_n)`: grows the word list review by review,
      then counts it. */
  method ExtractTopKeywords(df: DataFrame, topN: nat) returns (r: seq<(string, nat)>)
    requires ReviewTextReady(df.Snapshot())
    ensures r == TopKeywords(df.Snapshot(), topN)
  {
    if "review_text" !in df.columns {
      return [];
    }
    var words: seq<string> := [];
    for i := 0 to |df.rows|
      invariant words == Flatten(ReviewWordLists(df.Snapshot())[..i])
    {
      words := words + ReviewWords(CellAt(df.rows[i], "review_text"));
      FlattenPrefix(ReviewWordLists(df.Snapshot()), i);
    }
    assert ReviewWordLists(df.Snapshot())[..|df.rows|] == ReviewWordLists(df.Snapshot());
    r := MostCommon(Items(Tally(words)), topN);
  }

  /** Without `review_text` the result is empty. Otherwise it holds at most
      `n` distinct words with their exact total counts, by non-increasing
      count, ties in first-encounter order, no omitted word ranking above an
      included one; each word is a whitespace token of some lowercased review,
      is not a stopword and has no upper-case letter. */
  lemma TopKeywordsSpec(t: Table, n: nat)
    ensures "review_text" !in t.columns ==> TopKeywords(t, n) == []
    ensures "review_text" in t.columns ==>
      IsMostCommon(Flatten(ReviewWordLists(t)), n, TopKeywords(t, n))
    ensures |TopKeywords(t, n)| <= n
    ensures forall p :: 0 <= p < |TopKeywords(t, n)| ==>
      var w := TopKeywords(t, n)[p].0;
      w !in KeywordStopwords && w != [] && NoSpace(w)
      && (forall k :: 0 <= k < |w| ==> !IsUpper(w[k]))
      && exists i :: 0 <= i < |t.rows| && w in Split(Lower(TextOf(CellAt(t.rows[i], "review_text"))))
  {
    if "review_text" in t.columns {
      var lists := ReviewWordLists(t);
      var words := Flatten(lists);
      var r := TopKeywords(t, n);
      MostCommonOfTally(words, n);
      forall p | 0 <= p < |r|
        ensures var w := r[p].0;
          w !in KeywordStopwords && w != [] && NoSpace(w)
          && (forall k :: 0 <= k < |w| ==> !IsUpper(w[k]))
          && exists i :: 0 <= i < |t.rows| && w in Split(Lower(TextOf(CellAt(t.rows[i], "review_text"))))
      {
        var w := r[p].0;
        FlattenMember(lists, w);
        var i :| 0 <= i < |lists| && w in lists[i];
        var text := Lower(TextOf(CellAt(t.rows[i], "review_text")));
        var split := Split(text);
        assert w in split;
        var j :| 0 <= j < |split| && split[j] == w;
        SplitChars(text, j);
      }
    }
  }

  /** `main()` from loading to export, with the console and plotting steps
      left out: clean, add the word count and the sentiment, and extract the
      top ten keywords. The preconditions of the enhancements hold because
      cleaning ran first. */
  method RunPipeline(raw: DataFrame, parseDate: Cell -> Option<Date>, parseNum: Cell -> Option<real>)
    returns (df: DataFrame, keywords: seq<(string, nat)>)
    requires WellFormed(raw.Snapshot())
    ensures fresh(df)
    ensures df.Snapshot() == WithSentiment(WithWordCount(Clean(raw.Snapshot(), parseDate, parseNum)))
    ensures keywords == TopKeywords(df.Snapshot(), DefaultTopN)
  {
    df := CleanData(raw, parseDate, parseNum);
    CleanIsReady(raw.Snapshot(), parseDate, parseNum);
    AddWordCount(df);
    AddSentimentProxy(df);
    keywords := ExtractTopKeywords(df, DefaultTopN);
  }
}
