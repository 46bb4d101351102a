/**
 * The fee table (app.py:63-76, 227-231, 237-244; gebyr-visualisering.py:15-31,
 * 84-119): each line of the fee file names an organizer ("Arrangør"), a period
 * start ("Periode start", of which only the year is used) and the fee earned
 * ("Vores gebyr"). Both pipelines clean it the same way, then sum fees per
 * organizer, per year and per (year, organizer).
 */
module Fees {
  import opened Wrappers
  import opened Rows
  import opened Grouping
  import Ranking
  import Money
  import Text

  /** A line of the fee file as read: organizer, year of the start date if it parsed, fee text. */
  datatype FeeLine = FeeLine(organizer: Option<string>, start: Option<int>, fee: Option<string>)

  /** A cleaned row: its line in the file (the index label), organizer, year ("År") and fee. */
  datatype Fee = Fee(line: nat, organizer: Option<string>, year: int, fee: real)

  /** What the two charts show: a message in place of a chart, or the summed points. */
  datatype Plot<K> = Message(text: string) | Points(groups: seq<Group<K>>)

  /** Numeric conversion of the fee text, failures made null: a decimal literal or null. */
  function FeeValue(t: Option<string>): (r: Option<real>)
    ensures r.Some? <==> t.Some? && Money.IsDecimalLiteral(t.value)
  {
    match t
    case None => None
    case Some(s) => Money.ParseDecimal(s)
  }

  function Lines(df: seq<Fee>): (ls: seq<nat>)
    ensures |ls| == |df| && forall i :: 0 <= i < |df| ==> ls[i] == df[i].line
  {
    seq(|df|, i requires 0 <= i < |df| => df[i].line)
  }

  function Organizers(df: seq<Fee>): (os: seq<Option<string>>)
    ensures |os| == |df| && forall i :: 0 <= i < |df| ==> os[i] == df[i].organizer
  {
    seq(|df|, i requires 0 <= i < |df| => df[i].organizer)
  }

  function Amounts(df: seq<Fee>): (vs: seq<real>)
    ensures |vs| == |df| && forall i :: 0 <= i < |df| ==> vs[i] == df[i].fee
  {
    seq(|df|, i requires 0 <= i < |df| => df[i].fee)
  }

  /**
   * The cleaned table of a fee file: exactly its lines with a start date and
   * a fee that parses, in file order, each with its line number, organizer,
   * year and fee.
   */
  ghost predicate CleanedFrom(raw: seq<FeeLine>, df: seq<Fee>)
  {
    && Increasing(Lines(df))
    && (forall p :: 0 <= p < |raw| ==> (p in Lines(df) <==> raw[p].start.Some? && FeeValue(raw[p].fee).Some?))
    && forall i :: 0 <= i < |df| ==>
      var l := df[i].line;
      && l < |raw| && raw[l].start.Some? && FeeValue(raw[l].fee).Some?
      && df[i] == Fee(l, raw[l].organizer, raw[l].start.value, FeeValue(raw[l].fee).value)
  }

  /**
   * The module-level cleaning: the fee column through `to_numeric`, then the
   * lines whose start date or fee did not parse are dropped, then the year
   * column is added. Kept lines keep their file order and their line number.
   */
  method CleanFees(raw: seq<FeeLine>) returns (df: seq<Fee>)
    ensures CleanedFrom(raw, df)
  {
    // parse every fee text
    var fees := seq(|raw|, p requires 0 <= p < |raw| => FeeValue(raw[p].fee));
    // keep the lines with a start date and a fee, in file order
    var mask := seq(|raw|, p requires 0 <= p < |raw| => raw[p].start.Some? && fees[p].Some?);
    var kept := TrueIndices(mask);
    assert forall i :: 0 <= i < |kept| ==> mask[kept[i]] by {
      forall i | 0 <= i < |kept| ensures mask[kept[i]] {
        assert kept[i] in kept;
      }
    }
    // one row per kept line, its year taken from the start date
    df := seq(|kept|, i requires 0 <= i < |kept| =>
      Fee(kept[i], raw[kept[i]].organizer, raw[kept[i]].start.value, fees[kept[i]].value));
    assert Lines(df) == kept;
  }

  /** (organizer, fee) of the rows with an organizer, in row order: `groupby` drops null keys. */
  function OrganizerFees(df: seq<Fee>): seq<(string, real)>
  {
    if |df| == 0 then []
    else
      var last := df[|df| - 1];
      OrganizerFees(df[..|df| - 1]) + (if last.organizer.Some? then [(last.organizer.value, last.fee)] else [])
  }

  lemma {:induction false} OrganizerFeesKeys(df: seq<Fee>)
    ensures forall o :: o in Firsts(OrganizerFees(df)) <==> Some(o) in Organizers(df)
  {
    if |df| > 0 {
      var prefix := df[..|df| - 1];
      OrganizerFeesKeys(prefix);
      var last := df[|df| - 1];
      assert Organizers(df) == Organizers(prefix) + [last.organizer];
      assert Firsts(OrganizerFees(df)) ==
        Firsts(OrganizerFees(prefix)) + (if last.organizer.Some? then [last.organizer.value] else []);
    }
  }

  /** Summed fee of one organizer (the per-organizer sum of "Vores gebyr"). */
  function OrganizerTotal(df: seq<Fee>, o: string): real
  {
    SumFor(OrganizerFees(df), o)
  }

  /**
   * The n organizers with the largest summed fee: at most n
   * distinct organizers of the table, largest summed fee first; no organizer
   * left out has a larger sum than one kept, and among equal sums the
   * alphabetically earlier organizer (the `groupby` key order) is kept.
   */
  function TopOrganizers(df: seq<Fee>, n: nat): (top: seq<string>)
    ensures |top| <= n && Distinct(top)
    ensures forall o :: o in top ==> Some(o) in Organizers(df)
    ensures |top| < n ==> forall o :: Some(o) in Organizers(df) ==> o in top
    ensures forall i, j :: 0 <= i < j < |top| ==> OrganizerTotal(df, top[i]) >= OrganizerTotal(df, top[j])
    ensures forall i, o :: 0 <= i < |top| && Some(o) in Organizers(df) && o !in top ==>
      && OrganizerTotal(df, o) <= OrganizerTotal(df, top[i])
      && (OrganizerTotal(df, o) == OrganizerTotal(df, top[i]) ==> Text.StrLess(top[i], o))
  {
    StrLessIsOrder();
    var g := GroupSum(OrganizerFees(df), Text.StrLess);
    OrganizerFeesKeys(df);
    TopKeys(g, n, Text.StrLess)
  }

  /** The rows whose organizer is one of `names` (a null organizer is never among them). */
  function IsinMask(df: seq<Fee>, names: seq<string>): (mask: seq<bool>)
    ensures |mask| == |df|
    ensures forall p :: 0 <= p < |df| ==> (mask[p] <==> df[p].organizer.Some? && df[p].organizer.value in names)
  {
    seq(|df|, p requires 0 <= p < |df| => df[p].organizer.Some? && df[p].organizer.value in names)
  }

  /** Restriction to the given organizers: exactly the rows of those organizers, in row order. */
  function Restrict(df: seq<Fee>, names: seq<string>): (r: seq<Fee>)
    ensures |r| <= |df|
    ensures forall i :: 0 <= i < |r| ==> r[i].organizer.Some? && r[i].organizer.value in names
    ensures forall p :: 0 <= p < |df| && df[p].organizer.Some? && df[p].organizer.value in names ==> df[p] in r
    ensures r == Select(df, IsinMask(df, names))
  {
    var mask := IsinMask(df, names);
    var idx := TrueIndices(mask);
    forall i | 0 <= i < |idx| ensures mask[idx[i]] {
      assert idx[i] in idx;
    }
    forall p | 0 <= p < |df| && mask[p] ensures df[p] in Select(df, mask) {
      var i :| 0 <= i < |idx| && idx[i] == p;
      assert Select(df, mask)[i] == df[p];
    }
    Select(df, mask)
  }

  /** A row passes the fee filter: its organizer contains the search text (case-blind) and its year is at most maxYear. */
  predicate Matches(row: Fee, search: string, maxYear: int)
  {
    row.organizer.Some? && Text.ContainsIgnoreCase(row.organizer.value, search) && row.year <= maxYear
  }

  function FilterMask(df: seq<Fee>, search: string, maxYear: int): (mask: seq<bool>)
    ensures |mask| == |df|
    ensures forall p :: 0 <= p < |df| ==> (mask[p] <==> Matches(df[p], search, maxYear))
  {
    seq(|df|, p requires 0 <= p < |df| => Matches(df[p], search, maxYear))
  }

  /**
   * The rows whose organizer contains the search, case-blind, and whose year
   * is at most maxYear: exactly the matching rows, in row order.
   */
  function Filter(df: seq<Fee>, search: string, maxYear: int): (r: seq<Fee>)
    ensures |r| <= |df|
    ensures forall i :: 0 <= i < |r| ==> Matches(r[i], search, maxYear)
    ensures forall p :: 0 <= p < |df| && Matches(df[p], search, maxYear) ==> df[p] in r
    ensures r == Select(df, FilterMask(df, search, maxYear))
  {
    var mask := FilterMask(df, search, maxYear);
    var idx := TrueIndices(mask);
    forall i | 0 <= i < |idx| ensures mask[idx[i]] {
      assert idx[i] in idx;
    }
    forall p | 0 <= p < |df| && mask[p] ensures df[p] in Select(df, mask) {
      var i :| 0 <= i < |idx| && idx[i] == p;
      assert Select(df, mask)[i] == df[p];
    }
    Select(df, mask)
  }

  function YearFees(df: seq<Fee>): (pairs: seq<(int, real)>)
    ensures |pairs| == |df| && forall i :: 0 <= i < |df| ==> pairs[i] == (df[i].year, df[i].fee)
  {
    seq(|df|, i requires 0 <= i < |df| => (df[i].year, df[i].fee))
  }

  /**
   * Fees summed per year: one point per year present, years
   * strictly ascending, each the sum of that year's fees; the points add up to
   * the sum of all fees.
   */
  function YearTotals(df: seq<Fee>): (r: seq<Group<int>>)
    ensures forall i, j :: 0 <= i < j < |r| ==> r[i].key < r[j].key
    ensures forall y :: y in Keys(r) <==> exists p :: 0 <= p < |df| && df[p].year == y
    ensures forall i :: 0 <= i < |r| ==> r[i].total == SumFor(YearFees(df), r[i].key)
    ensures GrandTotal(r) == Ranking.Sum(Amounts(df))
  {
    IntLessIsOrder();
    var pairs := YearFees(df);
    var r := GroupSum(pairs, IntLess);
    AscendingTotals(r, IntLess);
    assert Seconds(YearFees(df)) == Amounts(df);
    forall y ensures y in Firsts(YearFees(df)) <==> exists p :: 0 <= p < |df| && df[p].year == y {
      if exists p :: 0 <= p < |df| && df[p].year == y {
        var p :| 0 <= p < |df| && df[p].year == y;
        assert Firsts(YearFees(df))[p] == y;
      }
    }
    r
  }

  /** ((year, organizer), fee) of the rows with an organizer, in row order. */
  function PairFees(df: seq<Fee>): seq<((int, string), real)>
  {
    if |df| == 0 then []
    else
      var last := df[|df| - 1];
      PairFees(df[..|df| - 1]) + (if last.organizer.Some? then [((last.year, last.organizer.value), last.fee)] else [])
  }

  lemma {:induction false} PairFeesKeys(df: seq<Fee>)
    ensures forall y, o :: (y, o) in Firsts(PairFees(df)) <==> exists p :: 0 <= p < |df| && df[p].year == y && df[p].organizer == Some(o)
  {
    if |df| > 0 {
      var prefix := df[..|df| - 1];
      PairFeesKeys(prefix);
      var last := df[|df| - 1];
      assert Firsts(PairFees(df)) ==
        Firsts(PairFees(prefix)) + (if last.organizer.Some? then [(last.year, last.organizer.value)] else []);
      forall y, o | exists p :: 0 <= p < |df| && df[p].year == y && df[p].organizer == Some(o)
        ensures (y, o) in Firsts(PairFees(df))
      {
        var p :| 0 <= p < |df| && df[p].year == y && df[p].organizer == Some(o);
        if p < |df| - 1 {
          assert prefix[p] == df[p];
        }
      }
    }
  }

  /**
   * Fees summed per (year, organizer): one point per (year,
   * organizer) pair present, sorted by year then organizer, each the sum of that
   * pair's fees.
   */
  function PairTotals(df: seq<Fee>): (r: seq<Group<(int, string)>>)
    ensures forall i, j :: 0 <= i < j < |r| ==> PairLess(r[i].key, r[j].key)
    ensures forall y, o :: (y, o) in Keys(r) <==> exists p :: 0 <= p < |df| && df[p].year == y && df[p].organizer == Some(o)
    ensures forall i :: 0 <= i < |r| ==> r[i].total == SumFor(PairFees(df), r[i].key)
  {
    PairLessIsOrder();
    PairFeesKeys(df);
    var r := GroupSum(PairFees(df), PairLess);
    AscendingTotals(r, PairLess);
    r
  }

  /**
   * The yearly fee chart: the rows whose organizer contains the search
   * (case-blind) and whose year is at most `maxYear`, summed per year.
   */
  function FilteredYearTotals(df: seq<Fee>, search: string, maxYear: int): (r: seq<Group<int>>)
    ensures forall i, j :: 0 <= i < j < |r| ==> r[i].key < r[j].key
    ensures forall y :: y in Keys(r) <==>
      exists p :: 0 <= p < |df| && Matches(df[p], search, maxYear) && df[p].year == y
    ensures forall i :: 0 <= i < |r| ==> r[i].total == SumFor(YearFees(Filter(df, search, maxYear)), r[i].key)
    ensures GrandTotal(r) == Ranking.Sum(Amounts(Filter(df, search, maxYear)))
  {
    var filt := Filter(df, search, maxYear);
    var r := YearTotals(filt);
    forall y ensures y in Keys(r) <==>
      exists p :: 0 <= p < |df| && Matches(df[p], search, maxYear) && df[p].year == y
    {
      if exists p :: 0 <= p < |df| && Matches(df[p], search, maxYear) && df[p].year == y {
        var p :| 0 <= p < |df| && Matches(df[p], search, maxYear) && df[p].year == y;
        assert df[p] in filt;
      }
    }
    r
  }

  /**
   * The chart of chosen organizers: the rows of `df` whose organizer is chosen,
   * summed per (year, organizer), sorted by year then organizer.
   */
  function ChosenTotals(df: seq<Fee>, chosen: seq<string>): (r: seq<Group<(int, string)>>)
    ensures forall i, j :: 0 <= i < j < |r| ==> PairLess(r[i].key, r[j].key)
    ensures forall y, o :: (y, o) in Keys(r) <==>
      o in chosen && exists p :: 0 <= p < |df| && df[p].year == y && df[p].organizer == Some(o)
    ensures forall i :: 0 <= i < |r| ==> r[i].total == SumFor(PairFees(Restrict(df, chosen)), r[i].key)
  {
    ChosenKeys(df, chosen);
    PairTotals(Restrict(df, chosen))
  }

  lemma ChosenKeys(df: seq<Fee>, chosen: seq<string>)
    ensures forall y, o :: (y, o) in Keys(PairTotals(Restrict(df, chosen))) <==>
      o in chosen && exists p :: 0 <= p < |df| && df[p].year == y && df[p].organizer == Some(o)
  {
    forall y, o ensures (y, o) in Keys(PairTotals(Restrict(df, chosen))) <==>
      o in chosen && exists p :: 0 <= p < |df| && df[p].year == y && df[p].organizer == Some(o)
    {
      if o in chosen && exists p :: 0 <= p < |df| && df[p].year == y && df[p].organizer == Some(o) {
        var p :| 0 <= p < |df| && df[p].year == y && df[p].organizer == Some(o);
        ChosenRowKept(df, chosen, p);
      }
      if (y, o) in Keys(PairTotals(Restrict(df, chosen))) {
        ChosenPairFromRow(df, chosen, y, o);
      }
    }
  }

  lemma ChosenRowKept(df: seq<Fee>, chosen: seq<string>, p: nat)
    requires p < |df| && df[p].organizer.Some? && df[p].organizer.value in chosen
    ensures (df[p].year, df[p].organizer.value) in Keys(PairTotals(Restrict(df, chosen)))
  {
    var rows := Restrict(df, chosen);
    assert df[p] in rows;
    var q :| 0 <= q < |rows| && rows[q] == df[p];
  }

  lemma ChosenPairFromRow(df: seq<Fee>, chosen: seq<string>, y: int, o: string)
    requires (y, o) in Keys(PairTotals(Restrict(df, chosen)))
    ensures o in chosen && exists p :: 0 <= p < |df| && df[p].year == y && df[p].organizer == Some(o)
  {
    var rows := Restrict(df, chosen);
    var q :| 0 <= q < |rows| && rows[q].year == y && rows[q].organizer == Some(o);
    assert rows[q] in df;
  }
}
