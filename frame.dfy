/**
 * The pandas data frame as the pipelines use it: named columns in order, the row
 * index labels (the row numbers of the sheet the frame was read from), and one
 * sequence of cells per column. Frames are values: `df[c] = …` and `df = …`
 * become a new frame assigned to the same variable, which is what these scripts
 * observe, since no frame is shared between two variables.
 */
module Frames {
  import opened Wrappers
  import opened Rows
  import Money
  import Ranking

  /**
   * A cell: empty (NaN, NaT, None), text, a decimal number, a parsed date (only
   * its year matters here) or an integer (an `Int64` or `int` column).
   */
  datatype Cell = Missing | Str(s: string) | Num(x: real) | Date(year: int) | Whole(n: int)

  /** A sheet as the reader hands it over: a header row and rows of optional text. */
  datatype Sheet = Sheet(header: seq<string>, rows: seq<seq<Option<string>>>)

  /** Header names are distinct (the reader renames duplicates) and every row has one cell per column. */
  ghost predicate WellFormed(s: Sheet)
  {
    Distinct(s.header) && forall i :: 0 <= i < |s.rows| ==> |s.rows[i]| == |s.header|
  }

  datatype Frame = Frame(columns: seq<string>, index: seq<nat>, data: map<string, seq<Cell>>)

  ghost predicate Valid(f: Frame)
  {
    && Distinct(f.columns)
    && (forall c :: c in f.data <==> c in f.columns)
    && (forall c :: c in f.data ==> |f.data[c]| == |f.index|)
  }

  function Range(n: nat): (r: seq<nat>)
    ensures |r| == n && forall i :: 0 <= i < n ==> r[i] == i
  {
    seq(n, i requires 0 <= i < n => i)
  }

  function RawCell(o: Option<string>): Cell
  {
    match o
    case None => Missing
    case Some(s) => Str(s)
  }

  /** A column that holds only text and empty cells, as read from the sheet. */
  ghost predicate TextColumn(col: seq<Cell>)
  {
    forall i :: 0 <= i < |col| ==> col[i].Missing? || col[i].Str?
  }

  function SheetColumn(s: Sheet, j: nat): (col: seq<Cell>)
    requires WellFormed(s) && j < |s.header|
    ensures |col| == |s.rows| && TextColumn(col)
    ensures forall i :: 0 <= i < |s.rows| ==> col[i] == RawCell(s.rows[i][j])
  {
    seq(|s.rows|, i requires 0 <= i < |s.rows| => RawCell(s.rows[i][j]))
  }

  /** The frame `read_excel` builds: the header's columns, index 0, 1, 2, … */
  function FromSheet(s: Sheet): (f: Frame)
    requires WellFormed(s)
    ensures Valid(f) && f.columns == s.header && f.index == Range(|s.rows|)
    ensures forall j :: 0 <= j < |s.header| ==> f.data[s.header[j]] == SheetColumn(s, j)
    ensures forall c :: c in f.data ==> TextColumn(f.data[c])
  {
    var data := map j | 0 <= j < |s.header| :: s.header[j] := SheetColumn(s, j);
    assert forall c :: c in data <==> c in s.header by {
      forall c | c in s.header ensures c in data {
        var j :| 0 <= j < |s.header| && s.header[j] == c;
      }
    }
    Frame(s.header, Range(|s.rows|), data)
  }

  function HasValue(col: seq<Cell>): bool
  {
    exists i :: 0 <= i < |col| && col[i] != Missing
  }

  /** Drop the columns with no non-empty cell. */
  function DropEmptyColumns(f: Frame): (g: Frame)
    requires Valid(f)
    ensures Valid(g) && g.index == f.index
    ensures forall c :: c in g.columns <==> c in f.columns && HasValue(f.data[c])
    ensures forall c :: c in g.data ==> g.data[c] == f.data[c]
  {
    var cols := Select(f.columns, ColumnMask(f));
    KeptColumns(f);
    Frame(cols, f.index, map c | c in cols :: f.data[c])
  }

  /** The columns holding at least one value. */
  function ColumnMask(f: Frame): (mask: seq<bool>)
    requires Valid(f)
    ensures |mask| == |f.columns|
  {
    seq(|f.columns|, j requires 0 <= j < |f.columns| => HasValue(f.data[f.columns[j]]))
  }

  lemma KeptColumns(f: Frame)
    requires Valid(f)
    ensures var cols := Select(f.columns, ColumnMask(f));
      && Distinct(cols)
      && forall c :: c in cols <==> c in f.columns && HasValue(f.data[c])
  {
    var mask := ColumnMask(f);
    var cols := Select(f.columns, mask);
    var idx := TrueIndices(mask);
    PickDistinct(f.columns, idx);
    forall c ensures c in cols <==> c in f.columns && HasValue(f.data[c]) {
      if c in cols {
        var i :| 0 <= i < |cols| && cols[i] == c;
        assert idx[i] in idx;
      }
      if c in f.columns && HasValue(f.data[c]) {
        var j :| 0 <= j < |f.columns| && f.columns[j] == c;
        assert mask[j];
        var i :| 0 <= i < |idx| && idx[i] == j;
        assert cols[i] == c;
      }
    }
  }

  /** `df[c] = col`: overwrite column c, or add it as the last column. */
  function Assign(f: Frame, c: string, col: seq<Cell>): (g: Frame)
    requires Valid(f) && |col| == |f.index|
    ensures Valid(g) && g.index == f.index
    ensures g.columns == if c in f.columns then f.columns else f.columns + [c]
    ensures g.data == f.data[c := col]
  {
    Frame(if c in f.columns then f.columns else f.columns + [c], f.index, f.data[c := col])
  }

  /** `df[mask]`: keep the rows where the mask is true, in order, with their labels. */
  function SelectRows(f: Frame, mask: seq<bool>): (g: Frame)
    requires Valid(f) && |mask| == |f.index|
    ensures Valid(g) && g.columns == f.columns
    ensures g.index == Pick(f.index, TrueIndices(mask))
    ensures forall c :: c in g.data ==> g.data[c] == Pick(f.data[c], TrueIndices(mask))
  {
    PickRows(f, TrueIndices(mask))
  }

  /** `df.take(idx)`: the rows at the given positions, in the given order. */
  function PickRows(f: Frame, idx: seq<nat>): (g: Frame)
    requires Valid(f) && InRange(idx, |f.index|)
    ensures Valid(g) && g.columns == f.columns
    ensures g.index == Pick(f.index, idx)
    ensures forall c :: c in g.data ==> g.data[c] == Pick(f.data[c], idx)
  {
    Frame(f.columns, Pick(f.index, idx), map c | c in f.data :: Pick(f.data[c], idx))
  }

  /** The rows where none of the `subset` columns is empty. */
  function NotNullMask(f: Frame, subset: seq<string>): (mask: seq<bool>)
    requires Valid(f) && forall c :: c in subset ==> c in f.data
    ensures |mask| == |f.index|
    ensures forall p :: 0 <= p < |mask| ==> (mask[p] <==> forall c :: c in subset ==> f.data[c][p] != Missing)
  {
    seq(|f.index|, p requires 0 <= p < |f.index| => forall c :: c in subset ==> f.data[c][p] != Missing)
  }

  /** `dropna(subset=…)` over columns that exist. */
  function DropNa(f: Frame, subset: seq<string>): (g: Frame)
    requires Valid(f) && forall c :: c in subset ==> c in f.data
    ensures Valid(g) && g.columns == f.columns
    ensures forall c, i :: c in subset && 0 <= i < |g.index| ==> g.data[c][i] != Missing
    // exactly the rows with no empty cell in the subset, in order, with their labels
    ensures g.index == Pick(f.index, TrueIndices(NotNullMask(f, subset)))
    ensures forall c :: c in g.data ==> g.data[c] == Pick(f.data[c], TrueIndices(NotNullMask(f, subset)))
  {
    var mask := NotNullMask(f, subset);
    var idx := TrueIndices(mask);
    forall i | 0 <= i < |idx| ensures mask[idx[i]] {
      assert idx[i] in idx;
    }
    SelectRows(f, mask)
  }

  /**
   * One money cell through `astype(str)`, the two replacements and
   * `to_numeric(errors="coerce")`. An empty cell is the text "nan", which is
   * not a number. A number already read as one prints as a decimal that reads
   * back as the same number; a date prints with colons and spaces and does not.
   */
  function MoneyCell(c: Cell): (r: Cell)
    ensures r.Missing? || r.Num?
    // text becomes the number its cleaned text reads as, or empty when it reads as none
    ensures c.Str? ==> (r.Num? <==> Money.CleanMoney(c.s).Some?) && (r.Num? ==> Money.CleanMoney(c.s) == Some(r.x))
    // numbers keep their value; empty cells and dates become empty
    ensures c.Num? ==> r == c
    ensures c.Whole? ==> r == Num(c.n as real)
    ensures c.Missing? || c.Date? ==> r.Missing?
  {
    Money.EmptyCellExample();
    match c
    case Missing => (match Money.CleanMoney("nan") case Some(x) => Num(x) case None => Missing)
    case Str(s) => (match Money.CleanMoney(s) case Some(x) => Num(x) case None => Missing)
    case Num(x) => Num(x)
    case Whole(n) => Num(n as real)
    case Date(_) => Missing
  }

  function MoneyColumn(col: seq<Cell>): (r: seq<Cell>)
    ensures |r| == |col| && forall i :: 0 <= i < |col| ==> r[i] == MoneyCell(col[i])
  {
    seq(|col|, i requires 0 <= i < |col| => MoneyCell(col[i]))
  }

  /** Date conversion with failures made empty, with the text-to-date parser given as `yearOf`. */
  function DateCell(c: Cell, yearOf: string -> Option<int>): (r: Cell)
    ensures r.Missing? || r.Date?
    ensures c.Str? ==> (r.Date? <==> yearOf(c.s).Some?) && (r.Date? ==> yearOf(c.s) == Some(r.year))
    ensures c.Date? ==> r == c
    ensures !c.Str? && !c.Date? ==> r.Missing?
  {
    match c
    case Str(s) => (match yearOf(s) case Some(y) => Date(y) case None => Missing)
    case Date(y) => Date(y)
    case _ => Missing
  }

  function DateColumn(col: seq<Cell>, yearOf: string -> Option<int>): (r: seq<Cell>)
    ensures |r| == |col| && forall i :: 0 <= i < |col| ==> r[i] == DateCell(col[i], yearOf)
  {
    seq(|col|, i requires 0 <= i < |col| => DateCell(col[i], yearOf))
  }

  /** `.dt.year`: the year of a date, empty for an empty date. */
  function YearCell(c: Cell): (r: Cell)
    ensures r.Missing? || r.Whole?
    ensures r.Whole? <==> c.Date?
    ensures c.Date? ==> r.n == c.year
  {
    if c.Date? then Whole(c.year) else Missing
  }

  function YearColumn(col: seq<Cell>): (r: seq<Cell>)
    ensures |r| == |col| && forall i :: 0 <= i < |col| ==> r[i] == YearCell(col[i])
  {
    seq(|col|, i requires 0 <= i < |col| => YearCell(col[i]))
  }

  /** Column subtraction: a number when both sides are numbers, empty otherwise. */
  function SubCell(a: Cell, b: Cell): (r: Cell)
    ensures r.Num? <==> a.Num? && b.Num?
    ensures r.Num? ==> r.x == a.x - b.x
  {
    if a.Num? && b.Num? then Num(a.x - b.x) else Missing
  }

  function SubColumn(a: seq<Cell>, b: seq<Cell>): (r: seq<Cell>)
    requires |a| == |b|
    ensures |r| == |a| && forall i :: 0 <= i < |a| ==> r[i] == SubCell(a[i], b[i])
  {
    seq(|a|, i requires 0 <= i < |a| => SubCell(a[i], b[i]))
  }

  /** A cell as a sort key: numbers are keys, empty cells are not. */
  function NumKey(c: Cell): Option<real>
  {
    match c
    case Num(x) => Some(x)
    case Whole(n) => Some(n as real)
    case _ => None
  }

  function NumKeys(col: seq<Cell>): (r: seq<Option<real>>)
    ensures |r| == |col| && forall i :: 0 <= i < |col| ==> r[i] == NumKey(col[i])
  {
    seq(|col|, i requires 0 <= i < |col| => NumKey(col[i]))
  }

  /** A numeric cell with the empty value read as 0 (`fillna(0)`). */
  function ValueOr0(c: Cell): real
  {
    match NumKey(c)
    case Some(x) => x
    case None => 0.0
  }

  /**
   * "nlargest": the rows of the n largest values of column c, largest
   * first, equal values in row order; when fewer than n rows have a value,
   * the rows where c is empty follow, in row order, until there are n rows.
   */
  function NLargest(f: Frame, n: nat, c: string): (g: Frame)
    requires Valid(f) && c in f.data
    ensures Valid(g) && g.columns == f.columns
    ensures |g.index| == Ranking.Min(n, |f.index|)
    ensures var k := Ranking.Min(n, Ranking.CountPresent(NumKeys(f.data[c])));
      && k <= |g.index|
      && (forall i :: 0 <= i < |g.index| ==> (NumKey(g.data[c][i]).Some? <==> i < k))
      && (forall i, j :: 0 <= i < j < k ==> NumKey(g.data[c][i]).value >= NumKey(g.data[c][j]).value)
    ensures g == PickRows(f, Ranking.NLargestPositions(NumKeys(f.data[c]), n))
  {
    var keys := NumKeys(f.data[c]);
    Ranking.NLargestKeyed(keys, n);
    PickedKeys(f, c, Ranking.NLargestPositions(keys, n), Ranking.Min(n, Ranking.CountPresent(keys)));
    PickRows(f, Ranking.NLargestPositions(keys, n))
  }

  /** Rows picked at positions whose keys are present exactly below k, in non-increasing order, carry those keys. */
  lemma PickedKeys(f: Frame, c: string, t: seq<nat>, k: nat)
    requires Valid(f) && c in f.data && InRange(t, |f.index|) && k <= |t|
    requires forall i :: 0 <= i < |t| ==> (NumKeys(f.data[c])[t[i]].Some? <==> i < k)
    requires forall i, j :: 0 <= i < j < k ==> NumKeys(f.data[c])[t[i]].value >= NumKeys(f.data[c])[t[j]].value
    ensures var g := PickRows(f, t);
      && (forall i :: 0 <= i < |g.index| ==> (NumKey(g.data[c][i]).Some? <==> i < k))
      && (forall i, j :: 0 <= i < j < k ==> NumKey(g.data[c][i]).value >= NumKey(g.data[c][j]).value)
  {
    var g := PickRows(f, t);
    forall i | 0 <= i < |g.index| ensures NumKey(g.data[c][i]) == NumKeys(f.data[c])[t[i]] {
    }
  }

  /** With a value in every row of column c, nlargest keeps only ranked rows. */
  lemma NLargestNoEmpty(f: Frame, n: nat, c: string)
    requires Valid(f) && c in f.data
    requires forall p :: 0 <= p < |f.index| ==> NumKey(f.data[c][p]).Some?
    ensures NLargest(f, n, c) == PickRows(f, Ranking.TopN(NumKeys(f.data[c]), n))
    ensures |NLargest(f, n, c).index| == Ranking.Min(n, |f.index|)
    ensures forall i :: 0 <= i < |NLargest(f, n, c).index| ==> NumKey(NLargest(f, n, c).data[c][i]).Some?
  {
    Ranking.NoNullsNoTail(NumKeys(f.data[c]), n);
  }

  /** Row i of a boolean selection is row idx[i] of the frame selected from, in every column. */
  lemma SelectedRow(df: Frame, mask: seq<bool>, g: Frame, i: nat)
    requires Valid(df) && |mask| == |df.index| && g == SelectRows(df, mask)
    requires i < |TrueIndices(mask)|
    ensures var p := TrueIndices(mask)[i];
      && p < |df.index| && mask[p] && i < |g.index|
      && forall c :: c in df.data ==> g.data[c][i] == df.data[c][p]
  {
    assert TrueIndices(mask)[i] in TrueIndices(mask);
  }

  /** Picking from the row numbers 0, 1, 2, … gives the positions themselves. */
  lemma PickRange(n: nat, idx: seq<nat>)
    requires InRange(idx, n)
    ensures Pick(Range(n), idx) == idx
  {
  }
}
