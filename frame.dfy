/** The table the pipeline threads through its steps: a pandas DataFrame seen
    as an ordered list of columns and an ordered list of rows, each row a map
    from column name to cell. The row index is the position in `rows`, which
    is what `reset_index(drop=True)` makes it. */
module Frame {
  import opened Collections

  /** A calendar date as produced by the date parser. */
  datatype Date = Date(year: int, month: int, day: int)

  /** One cell. `Missing` stands for every pandas null (NaN, None, NaT). */
  datatype Cell =
    | Text(s: string)
    | Num(x: real)
    | Int(n: int)
    | Flag(b: bool)
    | Words(ws: seq<string>)
    | Day(d: Date)
    | Missing

  type Row = map<string, Cell>

  datatype Option<T> = None | Some(value: T)

  /** The value a cell holds as a Python number, if it holds one (a bool is an
      int in Python). */
  function NumericValue(c: Cell): Option<real> {
    match c
    case Num(x) => Some(x)
    case Int(n) => Some(n as real)
    case Flag(b) => Some(if b then 1.0 else 0.0)
    case _ => None
  }

  /** The labels a rating-based sentiment rule writes. */
  datatype Sentiment = Positive | Neutral | Negative | Unknown

  function LabelText(s: Sentiment): string {
    match s
    case Positive => "positive"
    case Neutral => "neutral"
    case Negative => "negative"
    case Unknown => "unknown"
  }

  datatype Table = Table(columns: seq<string>, rows: seq<Row>)

  /** Column names are distinct and every row has exactly the table's columns. */
  predicate WellFormed(t: Table) {
    NoDuplicates(t.columns)
    && forall i :: 0 <= i < |t.rows| ==> t.rows[i].Keys == set c | c in t.columns
  }

  /** The cell of row `r` in column `c`; a column the row lacks reads as null. */
  function CellAt(r: Row, c: string): Cell {
    if c in r then r[c] else Missing
  }

  /** `df[c]` as a list of cells. */
  function Column(t: Table, c: string): (cells: seq<Cell>)
    ensures |cells| == |t.rows|
  {
    seq(|t.rows|, i requires 0 <= i < |t.rows| => CellAt(t.rows[i], c))
  }

  /** `df[c] = values`: an existing column is overwritten where it stands, a
      new one is appended on the right; no other cell changes. */
  function WithColumn(t: Table, c: string, values: seq<Cell>): (r: Table)
    requires |values| == |t.rows|
    ensures |r.rows| == |t.rows|
    ensures r.columns == if c in t.columns then t.columns else t.columns + [c]
    ensures forall i, d :: 0 <= i < |r.rows| ==>
      CellAt(r.rows[i], d) == if d == c then values[i] else CellAt(t.rows[i], d)
    ensures WellFormed(t) ==> WellFormed(r)
  {
    var rows := seq(|t.rows|, i requires 0 <= i < |t.rows| => t.rows[i][c := values[i]]);
    var columns := if c in t.columns then t.columns else t.columns + [c];
    assert WellFormed(t) ==> forall i :: 0 <= i < |rows| ==> rows[i].Keys == set d | d in columns by {
      if WellFormed(t) {
        forall i | 0 <= i < |rows| ensures rows[i].Keys == set d | d in columns {
          assert rows[i].Keys == t.rows[i].Keys + {c};
        }
      }
    }
    Table(columns, rows)
  }

  /** `cols` without the name `c`, order kept. */
  function RemoveName(cols: seq<string>, c: string): (r: seq<string>)
    ensures forall d :: d in r <==> d in cols && d != c
    ensures NoDuplicates(cols) ==> NoDuplicates(r)
    ensures c !in cols ==> r == cols
    ensures NoDuplicates(cols) && c in cols ==> r == cols[..FirstIndex(cols, c)] + cols[FirstIndex(cols, c) + 1..]
    decreases |cols|
  {
    if cols == [] then []
    else
      var p := cols[..|cols| - 1];
      var x := cols[|cols| - 1];
      assert cols == p + [x];
      var r := RemoveName(p, c);
      assert NoDuplicates(cols) ==> NoDuplicates(p) && x !in p by {
        if NoDuplicates(cols) {
          assert forall i :: 0 <= i < |p| ==> p[i] == cols[i];
        }
      }
      assert NoDuplicates(cols) && c in p ==> FirstIndex(cols, c) == FirstIndex(p, c) by {
        if NoDuplicates(cols) && c in p {
          FirstIndexAppend(p, x, c);
        }
      }
      if x == c then r else r + [x]
  }

  /** `df.drop(columns=[c], errors="ignore")`: the column disappears if it
      was there; nothing else changes. */
  function WithoutColumn(t: Table, c: string): (r: Table)
    ensures |r.rows| == |t.rows|
    ensures forall d :: d in r.columns <==> d in t.columns && d != c
    ensures c !in t.columns ==> r.columns == t.columns
    ensures NoDuplicates(t.columns) && c in t.columns ==>
      r.columns == t.columns[..FirstIndex(t.columns, c)] + t.columns[FirstIndex(t.columns, c) + 1..]
    ensures forall i, d :: 0 <= i < |r.rows| ==>
      CellAt(r.rows[i], d) == if d == c then Missing else CellAt(t.rows[i], d)
    ensures WellFormed(t) ==> WellFormed(r)
  {
    var columns := RemoveName(t.columns, c);
    var rows := seq(|t.rows|, i requires 0 <= i < |t.rows| => t.rows[i] - {c});
    assert WellFormed(t) ==> forall i :: 0 <= i < |rows| ==> rows[i].Keys == set d | d in columns by {
      if WellFormed(t) {
        forall i | 0 <= i < |rows| ensures rows[i].Keys == set d | d in columns {
          assert rows[i].Keys == t.rows[i].Keys - {c};
        }
      }
    }
    Table(columns, rows)
  }

  /** A pandas DataFrame whose columns the pipeline assigns and drops in place. */
  class DataFrame {
    var columns: seq<string>
    var rows: seq<Row>

    /** The current contents as a value. */
    function Snapshot(): Table
      reads this
    {
      Table(columns, rows)
    }

    constructor (t: Table)
      ensures Snapshot() == t
    {
      columns := t.columns;
      rows := t.rows;
    }

    /** `df[c] = values`. */
    method Assign(c: string, values: seq<Cell>)
      requires |values| == |rows|
      modifies this
      ensures Snapshot() == WithColumn(old(Snapshot()), c, values)
    {
      var t := WithColumn(Snapshot(), c, values);
      columns, rows := t.columns, t.rows;
    }

    /** `df.drop(columns=[c], inplace=True, errors="ignore")`. */
    method Drop(c: string)
      modifies this
      ensures Snapshot() == WithoutColumn(old(Snapshot()), c)
    {
      var t := WithoutColumn(Snapshot(), c);
      columns, rows := t.columns, t.rows;
    }
  }
}
