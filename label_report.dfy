/** movieReviews/tmp/sentiment.py: the keyword frequency report for the
    `positive` and the `negative` rows, each the ten most common keywords over
    the keyword lists of the rows carrying that label. */
module LabelReport {
  import opened Collections
  import opened Counting
  import opened Frame
  import opened Features

  const ReportSize: nat := 10

  /** The items `for k in ks` iterates over: a list yields its elements, a
      string its characters; any other value is not iterable and raises. */
  function KeywordItems(c: Cell): Option<seq<string>> {
    match c
    case Words(ws) => Some(ws)
    case Text(s) => Some(seq(|s|, i requires 0 <= i < |s| => [s[i]]))
    case _ => None
  }

  predicate HasLabel(target: string, r: Row) {
    CellAt(r, "sentiment_proxy") == Text(target)
  }

  function LabelFilter(target: string): Row -> bool {
    r => HasLabel(target, r)
  }

  /** `df.loc[df["sentiment_proxy"] == label]`: the rows carrying `label`, in
      table order. */
  function LabelledRows(t: Table, target: string): seq<Row> {
    Select(t.rows, LabelFilter(target))
  }

  /** The keyword lists of `rows`, or None when one of them is not iterable. */
  function RowKeywordLists(rows: seq<Row>): (r: Option<seq<seq<string>>>)
    ensures r.Some? ==> |r.value| == |rows|
    ensures r.Some? ==> forall i :: 0 <= i < |rows| ==> KeywordItems(CellAt(rows[i], "keywords")) == Some(r.value[i])
    ensures r.None? <==> exists i :: 0 <= i < |rows| && KeywordItems(CellAt(rows[i], "keywords")).None?
    decreases |rows|
  {
    if rows == [] then Some([])
    else
      var p := rows[..|rows| - 1];
      var last := KeywordItems(CellAt(rows[|rows| - 1], "keywords"));
      match RowKeywordLists(p)
      case None =>
        assert forall i :: 0 <= i < |p| ==> p[i] == rows[i];
        None
      case Some(lists) =>
        assert forall i :: 0 <= i < |p| ==> p[i] == rows[i];
        if last.None? then None else Some(lists + [last.value])
  }

  /** The ten most common keywords, counted with `Counter` over the keyword
      lists of the rows with the label, or None when one is not iterable. */
  function LabelTop(t: Table, target: string): Option<seq<(string, nat)>> {
    match RowKeywordLists(LabelledRows(t, target))
    case None => None
    case Some(lists) => Some(MostCommon(Items(Tally(Flatten(lists))), ReportSize))
  }

  datatype Report = Report(name: string, top: seq<(string, nat)>)

  /** The reports the cell prints, in order, and whether it ran to its end. It
      prints nothing unless both `sentiment_proxy` and `keywords` exist; a
      label whose rows hold a non-iterable keyword value stops it there. */
  function KeywordReports(t: Table): (seq<Report>, bool) {
    if !("sentiment_proxy" in t.columns && "keywords" in t.columns) then ([], true)
    else
      match LabelTop(t, "positive")
      case None => ([], false)
      case Some(pos) =>
        match LabelTop(t, "negative")
        case None => ([Report("positive", pos)], false)
        case Some(neg) => ([Report("positive", pos), Report("negative", neg)], true)
  }

  /** The report runs only when both columns exist; when it completes it has
      one report per label, `positive` first. */
  lemma KeywordReportsSpec(t: Table)
    ensures KeywordReports(t).0 != [] ==> "sentiment_proxy" in t.columns && "keywords" in t.columns
    ensures !("sentiment_proxy" in t.columns && "keywords" in t.columns) ==> KeywordReports(t) == ([], true)
    ensures KeywordReports(t).1 && KeywordReports(t).0 != [] ==>
      |KeywordReports(t).0| == 2
      && KeywordReports(t).0[0] == Report("positive", LabelTop(t, "positive").value)
      && KeywordReports(t).0[1] == Report("negative", LabelTop(t, "negative").value)
    ensures "sentiment_proxy" in t.columns && "keywords" in t.columns ==>
      (KeywordReports(t).1 <==> LabelTop(t, "positive").Some? && LabelTop(t, "negative").Some?)
  {
  }

  /** `df.loc[df["sentiment_proxy"] == label]` keeps exactly the rows with
      the label, every copy of them, at their positions in table order. */
  lemma LabelledRowsSpec(t: Table, target: string)
    ensures forall k :: 0 <= k < |LabelledRows(t, target)| ==>
      LabelledRows(t, target)[k] in t.rows && CellAt(LabelledRows(t, target)[k], "sentiment_proxy") == Text(target)
    ensures forall i :: 0 <= i < |t.rows| && CellAt(t.rows[i], "sentiment_proxy") == Text(target) ==>
      t.rows[i] in LabelledRows(t, target)
    ensures IsSubsequenceAt(LabelledRows(t, target), t.rows, SelectPositions(t.rows, LabelFilter(target)))
    ensures forall i :: i in SelectPositions(t.rows, LabelFilter(target)) <==> 0 <= i < |t.rows| && HasLabel(target, t.rows[i])
    ensures forall r :: Occurrences(LabelledRows(t, target), r) == if HasLabel(target, r) then Occurrences(t.rows, r) else 0
  {
    var keep := LabelFilter(target);
    assert forall r :: keep(r) == HasLabel(target, r);
    SelectKeeps(t.rows, keep);
    SelectSubsequence(t.rows, keep);
  }

  /** Only rows carrying the label contribute, in table order; the report has
      at most ten distinct keywords with their exact total counts over those
      rows' lists, by non-increasing count, ties in first-encounter order, no
      omitted keyword ranking above an included one. */
  lemma LabelTopSpec(t: Table, target: string)
    ensures forall k :: 0 <= k < |LabelledRows(t, target)| ==>
      LabelledRows(t, target)[k] in t.rows && CellAt(LabelledRows(t, target)[k], "sentiment_proxy") == Text(target)
    ensures forall i :: 0 <= i < |t.rows| && CellAt(t.rows[i], "sentiment_proxy") == Text(target) ==>
      t.rows[i] in LabelledRows(t, target)
    ensures IsSubsequenceAt(LabelledRows(t, target), t.rows, SelectPositions(t.rows, LabelFilter(target)))
    ensures forall i :: i in SelectPositions(t.rows, LabelFilter(target)) <==> 0 <= i < |t.rows| && HasLabel(target, t.rows[i])
    ensures forall r :: Occurrences(LabelledRows(t, target), r) == if HasLabel(target, r) then Occurrences(t.rows, r) else 0
    ensures LabelTop(t, target).Some? ==>
      RowKeywordLists(LabelledRows(t, target)).Some?
      && IsMostCommon(Flatten(RowKeywordLists(LabelledRows(t, target)).value), ReportSize, LabelTop(t, target).value)
    ensures LabelTop(t, target).Some? ==> |LabelTop(t, target).value| <= ReportSize
  {
    LabelledRowsSpec(t, target);
    if LabelTop(t, target).Some? {
      MostCommonOfTally(Flatten(RowKeywordLists(LabelledRows(t, target)).value), ReportSize);
    }
  }

  /** When no row's keyword list repeats a keyword (as `_row_keywords`
      guarantees), a keyword's count in the report is the number of rows with
      the label whose list contains it. */
  lemma LabelTopCountsRows(t: Table, target: string)
    requires LabelTop(t, target).Some?
    requires forall k :: 0 <= k < |RowKeywordLists(LabelledRows(t, target)).value| ==>
      NoDuplicates(RowKeywordLists(LabelledRows(t, target)).value[k])
    ensures forall p :: 0 <= p < |LabelTop(t, target).value| ==>
      LabelTop(t, target).value[p].1 ==
        ListsContaining(RowKeywordLists(LabelledRows(t, target)).value, LabelTop(t, target).value[p].0)
  {
    var lists := RowKeywordLists(LabelledRows(t, target)).value;
    var r := LabelTop(t, target).value;
    LabelTopSpec(t, target);
    forall p | 0 <= p < |r| ensures r[p].1 == ListsContaining(lists, r[p].0) {
      FlattenOccurrences(lists, r[p].0);
    }
  }

  /** On a table where every keyword cell is a duplicate-free list, the
      report for a label never fails and each keyword's count is the number
      of rows with that label whose keywords contain it. */
  lemma ReportOnDistinctKeywords(e: Table, target: string)
    requires forall i :: 0 <= i < |e.rows| ==>
      CellAt(e.rows[i], "keywords").Words? && NoDuplicates(CellAt(e.rows[i], "keywords").ws)
    ensures LabelTop(e, target).Some?
    ensures forall p :: 0 <= p < |LabelTop(e, target).value| ==>
      LabelTop(e, target).value[p].1 ==
        ListsContaining(RowKeywordLists(LabelledRows(e, target)).value, LabelTop(e, target).value[p].0)
  {
    var rows := LabelledRows(e, target);
    forall k | 0 <= k < |rows|
      ensures CellAt(rows[k], "keywords").Words? && NoDuplicates(CellAt(rows[k], "keywords").ws)
    {
      assert rows[k] in e.rows;
    }
    var lists := RowKeywordLists(rows);
    assert lists.Some?;
    forall k | 0 <= k < |lists.value| ensures NoDuplicates(lists.value[k]) {
      assert KeywordItems(CellAt(rows[k], "keywords")) == Some(lists.value[k]);
    }
    LabelTopCountsRows(e, target);
  }

  /** The same on the table the feature cell leaves, whose keyword lists
      `_row_keywords` made duplicate-free. */
  lemma ReportOnEngineered(t: Table, render: Cell -> string, p90: seq<int> -> real, target: string)
    requires PickTextColumn(t.columns).Some? && |t.rows| > 0
    ensures LabelTop(Engineered(t, render, p90).0, target).Some?
    ensures forall p :: 0 <= p < |LabelTop(Engineered(t, render, p90).0, target).value| ==>
      LabelTop(Engineered(t, render, p90).0, target).value[p].1 ==
        ListsContaining(RowKeywordLists(LabelledRows(Engineered(t, render, p90).0, target)).value,
          LabelTop(Engineered(t, render, p90).0, target).value[p].0)
  {
    var e := Engineered(t, render, p90).0;
    EngineeredOutcome(t, render, p90);
    forall i | 0 <= i < |e.rows|
      ensures CellAt(e.rows[i], "keywords").Words? && NoDuplicates(CellAt(e.rows[i], "keywords").ws)
    {
      EngineeredKeywordsDistinct(t, render, p90, i);
    }
    ReportOnDistinctKeywords(e, target);
  }
}
