/**
 * The customer sheet as both customer scripts (app.py and visualiseringer.py)
 * read it: its column names, the choice of the revenue column, money cleaning
 * of whole columns, the per-value distributions with their customer names, the
 * paid/free split and the yearly subscription sums.
 */
module Customers {
  import opened Wrappers
  import opened Rows
  import opened Frames
  import opened Grouping
  import Ranking
  import Money
  import Text

  const INDTJENING := "Indtjening"
  const SUB := "Indtjening på abonnement (pr. år)"
  const FEE := "indtjening gebyr/i alt"
  const NAME := "Name"
  const KONTRAKT := "Kontrakttype"
  const START_DATO := "Start Dato"
  const START_AAR := "Start År"
  const BETALT := "Betalt"
  const GRATIS := "Gratis"

  /** What makes a load fail: no revenue column (an `IndexError`), or a column it reads is absent (`KeyError`). */
  datatype Failure = NoRevenueColumn | MissingColumn(name: string)

  /** A revenue column: its lower-cased name contains "indtjening". */
  predicate IsRevenueName(c: string)
  {
    Text.Contains(Text.Lower(c), "indtjening")
  }

  function RevenueMask(columns: seq<string>): (mask: seq<bool>)
    ensures |mask| == |columns| && forall j :: 0 <= j < |columns| ==> (mask[j] <==> IsRevenueName(columns[j]))
  {
    seq(|columns|, j requires 0 <= j < |columns| => IsRevenueName(columns[j]))
  }

  lemma IndtjeningIsRevenue()
    ensures IsRevenueName(INDTJENING)
  {
    assert Text.Lower(INDTJENING) == "indtjening";
  }

  /** A name whose lower-cased form has no 'i' is not a revenue column. */
  lemma NotRevenue(c: string)
    requires 'i' !in Text.Lower(c)
    ensures !IsRevenueName(c)
  {
    Text.ContainsAbsentFirst(Text.Lower(c), "indtjening");
  }

  /** None of the sheet's other columns the scripts read is a revenue column. */
  lemma OtherNamesAreNotRevenue()
    ensures !IsRevenueName(NAME) && !IsRevenueName(KONTRAKT)
    ensures !IsRevenueName(START_DATO) && !IsRevenueName(START_AAR)
  {
    Text.ContainsLonger(Text.Lower(NAME), "indtjening");
    Text.ContainsLonger(Text.Lower(START_AAR), "indtjening");
    KontraktIsNotRevenue();
    var s := Text.Lower(START_DATO);
    assert s[0] == 's';
    Text.ContainsLonger(s[1..], "indtjening");
  }

  lemma KontraktIsNotRevenue()
    ensures !IsRevenueName(KONTRAKT)
  {
    var s := Text.Lower(KONTRAKT);
    assert s == "kontrakttype";
    NotRevenue(KONTRAKT);
  }

  /**
   * `rev_col`: "Indtjening" when it is among the revenue columns, else the
   * first revenue column; None when there is none (taking the first of no columns raises).
   */
  function ChooseRevenueColumn(columns: seq<string>): (r: Option<string>)
    ensures r.None? <==> forall c :: c in columns ==> !IsRevenueName(c)
    ensures r.Some? ==> r.value in columns && IsRevenueName(r.value)
    ensures r.Some? && INDTJENING in columns ==> r.value == INDTJENING
    ensures r.Some? && INDTJENING !in columns ==>
      forall j :: 0 <= j < |columns| && IsRevenueName(columns[j]) ==> r.value in columns[..j + 1]
  {
    var mask := RevenueMask(columns);
    var idx := TrueIndices(mask);
    var revCols := Select(columns, mask);
    IndtjeningIsRevenue();
    forall c | c in columns && IsRevenueName(c) ensures c in revCols {
      var j :| 0 <= j < |columns| && columns[j] == c;
      assert j in idx;
      var i :| 0 <= i < |idx| && idx[i] == j;
      assert revCols[i] == c;
    }
    forall i | 0 <= i < |idx| ensures mask[idx[i]] {
      assert idx[i] in idx;
    }
    if INDTJENING in revCols then Some(INDTJENING)
    else if |revCols| == 0 then None
    else
      assert forall j :: 0 <= j < |columns| && IsRevenueName(columns[j]) ==> idx[0] <= j by {
        forall j | 0 <= j < |columns| && IsRevenueName(columns[j]) ensures idx[0] <= j {
          assert j in idx;
        }
      }
      Some(revCols[0])
  }

  /** The sheet as read, without its entirely empty columns. */
  function Kept(sheet: Sheet): (raw: Frame)
    requires WellFormed(sheet)
    ensures Valid(raw) && raw.index == Range(|sheet.rows|)
    ensures forall c :: c in raw.data ==> TextColumn(raw.data[c])
  {
    DropEmptyColumns(FromSheet(sheet))
  }

  /** The rows the loader keeps: a name and a revenue that cleans to a number. */
  function KundeMask(raw: Frame, rev: string): (mask: seq<bool>)
    requires Valid(raw) && NAME in raw.data && rev in raw.data
    ensures |mask| == |raw.index|
    ensures forall p :: 0 <= p < |mask| ==>
      (mask[p] <==> raw.data[NAME][p] != Missing && MoneyCell(raw.data[rev][p]) != Missing)
  {
    seq(|raw.index|, p requires 0 <= p < |raw.index| =>
      raw.data[NAME][p] != Missing && MoneyCell(raw.data[rev][p]) != Missing)
  }

  /** Dropping the rows without a name or a revenue, after cleaning, is dropping them by the sheet's own cells. */
  lemma MaskAgrees(df: Frame, raw: Frame, rev: string)
    requires Valid(df) && Valid(raw) && df.index == raw.index
    requires NAME in raw.data && rev in raw.data && NAME in df.data && rev in df.data
    requires df.data[NAME] == raw.data[NAME] && df.data[rev] == MoneyColumn(raw.data[rev])
    ensures NotNullMask(df, [NAME, rev]) == KundeMask(raw, rev)
  {
  }

  /** Cleaning a cleaned money cell changes nothing. */
  lemma MoneyCellIdempotent(c: Cell)
    ensures MoneyCell(MoneyCell(c)) == MoneyCell(c)
  {
    Money.EmptyCellExample();
  }

  lemma MoneyColumnIdempotent(col: seq<Cell>)
    ensures MoneyColumn(MoneyColumn(col)) == MoneyColumn(col)
  {
    forall i | 0 <= i < |col| ensures MoneyCell(MoneyCell(col[i])) == MoneyCell(col[i]) {
      MoneyCellIdempotent(col[i]);
    }
  }

  /** The text keys of a column, in row order: `groupby` and `value_counts` skip empty keys. */
  function TextKeys(keys: seq<Cell>): seq<string>
  {
    if |keys| == 0 then []
    else
      var k := keys[|keys| - 1];
      TextKeys(keys[..|keys| - 1]) + (if k.Str? then [k.s] else [])
  }

  /** The names on the same rows as `TextKeys`, an empty name read as "". */
  function TextNames(keys: seq<Cell>, names: seq<Cell>): (r: seq<string>)
    requires |keys| == |names|
    ensures |r| == |TextKeys(keys)|
  {
    if |keys| == 0 then []
    else
      var k := keys[|keys| - 1];
      var n := names[|names| - 1];
      TextNames(keys[..|keys| - 1], names[..|names| - 1]) + (if k.Str? then [if n.Str? then n.s else ""] else [])
  }

  /** Number of non-empty cells. */
  function NonEmpty(col: seq<Cell>): nat
  {
    if |col| == 0 then 0 else NonEmpty(col[..|col| - 1]) + (if col[|col| - 1] != Missing then 1 else 0)
  }

  lemma {:induction false} TextKeysFacts(keys: seq<Cell>, names: seq<Cell>)
    requires |keys| == |names| && TextColumn(keys)
    ensures |TextKeys(keys)| == |TextNames(keys, names)| == NonEmpty(keys)
    ensures forall s :: s in TextKeys(keys) <==> Str(s) in keys
  {
    if |keys| > 0 {
      var pk := keys[..|keys| - 1];
      TextKeysFacts(pk, names[..|names| - 1]);
      assert keys == pk + [keys[|keys| - 1]];
    }
  }

  /** A column without empty cells has one non-empty cell per row. */
  lemma {:induction false} NonEmptyAll(col: seq<Cell>)
    requires forall i :: 0 <= i < |col| ==> col[i] != Missing
    ensures NonEmpty(col) == |col|
  {
    if |col| > 0 {
      NonEmptyAll(col[..|col| - 1]);
    }
  }

  /** A pie chart's data: the value counts and, per slice, its customers' names joined by a separator. */
  datatype Pie = Pie(counts: seq<Count<string>>, names: seq<string>)

  /**
   * A distribution of the customers over the values of column `col`:
   * the value counts of the column, and the names of each value's rows, in
   * row order, joined by `sep` and lined up with the counts.
   */
  function Distribution(df: Frame, col: string, sep: string): (r: Pie)
    requires Valid(df) && col in df.data && NAME in df.data && TextColumn(df.data[col])
    ensures |r.names| == |r.counts|
    ensures forall s :: Str(s) in df.data[col] <==> s in CountKeys(r.counts)
    ensures Distinct(CountKeys(r.counts))
    ensures forall i, j :: 0 <= i < j < |r.counts| ==> r.counts[i].n >= r.counts[j].n
    ensures CountTotal(r.counts) == NonEmpty(df.data[col])
    ensures forall i :: 0 <= i < |r.counts| ==>
      var names := NamesFor(TextKeys(df.data[col]), TextNames(df.data[col], df.data[NAME]), r.counts[i].key);
      && r.counts[i].n == |names| > 0
      && r.names[i] == Text.Join(names, sep)
  {
    var ks := TextKeys(df.data[col]);
    var ns := TextNames(df.data[col], df.data[NAME]);
    TextKeysFacts(df.data[col], df.data[NAME]);
    StrLessIsOrder();
    var counts := ValueCounts(ks, Text.StrLess);
    Pie(counts, seq(|counts|, i requires 0 <= i < |counts| => Text.Join(NamesFor(ks, ns, counts[i].key), sep)))
  }

  /**
   * The paid/free column: "Betalt" when the subscription value, with an empty
   * one read as 0, is positive, else "Gratis" (negative values too). Added to
   * the frame under the name `col`.
   */
  method AddPaidType(df: Frame, sub: string, col: string) returns (g: Frame)
    requires Valid(df) && sub in df.data
    ensures Valid(g) && g.index == df.index && col in g.data
    ensures g.columns == if col in df.columns then df.columns else df.columns + [col]
    ensures forall c :: c in g.columns <==> c in df.columns || c == col
    ensures forall c :: c in df.data && c != col ==> g.data[c] == df.data[c]
    ensures forall i :: 0 <= i < |g.index| ==>
      (g.data[col][i] == Str(BETALT) <==> ValueOr0(df.data[sub][i]) > 0.0)
      && (g.data[col][i] == Str(GRATIS) <==> ValueOr0(df.data[sub][i]) <= 0.0)
    ensures TextColumn(g.data[col])
  {
    var kind := seq(|df.index|, i requires 0 <= i < |df.index| =>
      if ValueOr0(df.data[sub][i]) > 0.0 then Str(BETALT) else Str(GRATIS));
    g := Assign(df, col, kind);
  }

  /** (year, subscription value with empty as 0) of the rows with a start year. */
  function YearValues(years: seq<Cell>, subs: seq<Cell>): seq<(int, real)>
    requires |years| == |subs|
  {
    if |years| == 0 then []
    else
      var y := years[|years| - 1];
      YearValues(years[..|years| - 1], subs[..|subs| - 1])
        + (if y.Whole? then [(y.n, ValueOr0(subs[|subs| - 1]))] else [])
  }

  lemma {:induction false} YearValuesKeys(years: seq<Cell>, subs: seq<Cell>)
    requires |years| == |subs|
    ensures forall y :: y in Firsts(YearValues(years, subs)) <==> Whole(y) in years
  {
    if |years| > 0 {
      var py := years[..|years| - 1];
      YearValuesKeys(py, subs[..|subs| - 1]);
      assert years == py + [years[|years| - 1]];
      var last := years[|years| - 1];
      assert Firsts(YearValues(years, subs)) ==
        Firsts(YearValues(py, subs[..|subs| - 1])) + (if last.Whole? then [last.n] else []);
    }
  }

  /**
   * "Abonnements-growth": the subscription values summed per start year. One point
   * per start year present, ascending; rows without a year are left out, empty
   * values count as 0; the points add up to the summed values.
   */
  function Growth(dff: Frame, sub: string): (r: seq<Group<int>>)
    requires Valid(dff) && START_AAR in dff.data && sub in dff.data
    ensures forall i, j :: 0 <= i < j < |r| ==> r[i].key < r[j].key
    ensures forall y :: y in Keys(r) <==> Whole(y) in dff.data[START_AAR]
    ensures forall i :: 0 <= i < |r| ==>
      r[i].total == SumFor(YearValues(dff.data[START_AAR], dff.data[sub]), r[i].key)
    ensures GrandTotal(r) == Ranking.Sum(Seconds(YearValues(dff.data[START_AAR], dff.data[sub])))
  {
    IntLessIsOrder();
    var pairs := YearValues(dff.data[START_AAR], dff.data[sub]);
    YearValuesKeys(dff.data[START_AAR], dff.data[sub]);
    var r := GroupSum(pairs, IntLess);
    AscendingTotals(r, IntLess);
    r
  }
}
