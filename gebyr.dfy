/**
 * gebyr-visualisering.py: the Dash dashboard over the fee file. At start-up it
 * cleans the table, lists the years for the slider, ranks the 25 organizers
 * with the largest summed fee and keeps their rows; two callbacks redraw the
 * yearly chart for a searched organizer and the chart of the chosen top-25
 * organizers.
 */
module GebyrVisualisering {
  import opened Wrappers
  import opened Rows
  import opened Grouping
  import opened Fees
  import Ranking

  const NO_DATA := "Ingen data fundet for dette filter"
  const PICK_ONE := "Vælg mindst én arrangør ovenfor!"

  function YearsOf(df: seq<Fee>): (ys: seq<int>)
    ensures |ys| == |df| && forall i :: 0 <= i < |df| ==> ys[i] == df[i].year
  {
    seq(|df|, i requires 0 <= i < |df| => df[i].year)
  }

  /** The slider's years ("år_valg"): every year of the table once, ascending. */
  function Years(df: seq<Fee>): (ys: seq<int>)
    ensures forall i, j :: 0 <= i < j < |ys| ==> ys[i] < ys[j]
    ensures forall y :: y in ys <==> exists p :: 0 <= p < |df| && df[p].year == y
  {
    IntLessIsOrder();
    DistinctKeysSorted(YearsOf(df), IntLess);
    var ys := DistinctKeys(YearsOf(df), IntLess);
    assert forall y :: y in YearsOf(df) <==> exists p :: 0 <= p < |df| && df[p].year == y;
    ys
  }

  /** The least and the greatest year; None where both raise on an empty list. */
  function Bounds(ys: seq<int>): (b: Option<(int, int)>)
    ensures b.None? <==> |ys| == 0
    ensures b.Some? ==> b.value.0 in ys && b.value.1 in ys
    ensures b.Some? ==> forall y :: y in ys ==> b.value.0 <= y <= b.value.1
  {
    if |ys| == 0 then None
    else
      match Bounds(ys[1..])
      case None => Some((ys[0], ys[0]))
      case Some((lo, hi)) =>
        assert forall y :: y in ys ==> y == ys[0] || y in ys[1..];
        Some((if ys[0] < lo then ys[0] else lo, if ys[0] > hi then ys[0] else hi))
  }

  /** On an ascending list, the bounds are its first and last elements. */
  lemma BoundsOfAscending(ys: seq<int>)
    requires |ys| > 0
    requires forall i, j :: 0 <= i < j < |ys| ==> ys[i] < ys[j]
    ensures Bounds(ys) == Some((ys[0], ys[|ys| - 1]))
  {
    forall y | y in ys ensures ys[0] <= y <= ys[|ys| - 1] {
      var k :| 0 <= k < |ys| && ys[k] == y;
      assert k == 0 || ys[0] < ys[k];
      assert k == |ys| - 1 || ys[k] < ys[|ys| - 1];
    }
    assert ys[0] in ys && ys[|ys| - 1] in ys;
  }

  /**
   * "top_kunder": the 25 organizers with the largest summed fee, by a descending sort.
   * The sort is not stable, so nothing is said about the order of equal sums.
   */
  function TopKunder(df: seq<Fee>): (top: seq<string>)
    ensures |top| <= 25 && Distinct(top)
    ensures forall o :: o in top ==> Some(o) in Organizers(df)
    ensures |top| < 25 ==> forall o :: Some(o) in Organizers(df) ==> o in top
    ensures forall i, j :: 0 <= i < j < |top| ==> OrganizerTotal(df, top[i]) >= OrganizerTotal(df, top[j])
    ensures forall i, o :: 0 <= i < |top| && Some(o) in Organizers(df) && o !in top ==>
      OrganizerTotal(df, o) <= OrganizerTotal(df, top[i])
  {
    TopOrganizers(df, 25)
  }

  /** The default dropdown choice, the first five of "top_kunder": five organizers no other organizer out-earns. */
  lemma DefaultIsLargest(df: seq<Fee>)
    ensures var top := TopKunder(df);
      var d := top[..Ranking.Min(5, |top|)];
      forall a, o :: a in d && Some(o) in Organizers(df) && o !in d ==>
        OrganizerTotal(df, o) <= OrganizerTotal(df, a)
  {
    var top := TopKunder(df);
    PrefixIsLargest(df, top, Ranking.Min(5, |top|));
  }

  /** Any prefix of a ranking whose left-out organizers earn no more than the ranked ones is out-earned by no other organizer. */
  lemma PrefixIsLargest(df: seq<Fee>, top: seq<string>, m: nat)
    requires m <= |top|
    requires forall i, j :: 0 <= i < j < |top| ==> OrganizerTotal(df, top[i]) >= OrganizerTotal(df, top[j])
    requires forall i, o :: 0 <= i < |top| && Some(o) in Organizers(df) && o !in top ==>
      OrganizerTotal(df, o) <= OrganizerTotal(df, top[i])
    ensures forall a, o :: a in top[..m] && Some(o) in Organizers(df) && o !in top[..m] ==>
      OrganizerTotal(df, o) <= OrganizerTotal(df, a)
  {
    var d := top[..m];
    forall a, o | a in d && Some(o) in Organizers(df) && o !in d
      ensures OrganizerTotal(df, o) <= OrganizerTotal(df, a)
    {
      var i :| 0 <= i < |d| && d[i] == a;
      if o in top {
        var j :| 0 <= j < |top| && top[j] == o;
        assert j >= |d|;
      }
    }
  }

  /** What the dashboard holds once set up: the cleaned table, the slider's years, the top 25 and the default choice. */
  datatype Board = Board(
    df: seq<Fee>, years: seq<int>, yearMin: int, yearMax: int,
    top: seq<string>, dfTop25: seq<Fee>, chosen: seq<string>)

  /**
   * The board built from the fee lines: the cleaned table, its years in
   * ascending order with the first and the last as the slider's bounds, the
   * top 25 with their rows, and the first five of them chosen.
   */
  ghost predicate SetUpFrom(raw: seq<FeeLine>, b: Board)
  {
    && CleanedFrom(raw, b.df)
    && b.years == Years(b.df) && |b.years| > 0
    && b.yearMin == b.years[0] && b.yearMax == b.years[|b.years| - 1]
    && b.top == TopKunder(b.df)
    && b.dfTop25 == Restrict(b.df, b.top)
    && b.chosen == b.top[..Ranking.Min(5, |b.top|)]
  }

  /**
   * The start-up script: clean the table, list the years and take their
   * bounds, rank the top 25 organizers and keep their rows; the first five of
   * them are the default choice. No surviving row leaves the year list empty,
   * where `min` raises: the result is None.
   */
  method Setup(raw: seq<FeeLine>) returns (r: Option<Board>)
    ensures r.None? <==> forall p :: 0 <= p < |raw| ==> !(raw[p].start.Some? && FeeValue(raw[p].fee).Some?)
    ensures r.Some? ==> SetUpFrom(raw, r.value)
  {
    var df := CleanFees(raw);
    var years := Years(df);
    var bounds := Bounds(years);
    NoRowsNoYears(df);
    NoSurvivors(raw, df);
    if bounds.None? {
      return None;
    }
    BoundsOfAscending(years);
    var top := TopKunder(df);
    var dfTop25 := Restrict(df, top);
    var chosen := top[..Ranking.Min(5, |top|)];
    return Some(Board(df, years, bounds.value.0, bounds.value.1, top, dfTop25, chosen));
  }

  lemma NoRowsNoYears(df: seq<Fee>)
    ensures |Years(df)| == 0 <==> |df| == 0
  {
    if |df| > 0 {
      assert df[0].year in Years(df);
    }
  }

  /** The cleaned table is empty exactly when no line has both a start date and a fee. */
  lemma NoSurvivors(raw: seq<FeeLine>, df: seq<Fee>)
    requires CleanedFrom(raw, df)
    ensures |df| == 0 <==> forall p :: 0 <= p < |raw| ==> !(raw[p].start.Some? && FeeValue(raw[p].fee).Some?)
  {
    if |df| > 0 {
      assert df[0].line in Lines(df);
    }
  }

  /**
   * `opdater_graf`: a missing search is "", the rows whose organizer contains
   * it (case-blind) up to year `maksAar` are summed per year; no such row
   * gives the placeholder message.
   */
  function OpdaterGraf(df: seq<Fee>, search: Option<string>, maksAar: int): (r: Plot<int>)
    ensures var s := if search.Some? then search.value else "";
      && (r.Message? <==> forall p :: 0 <= p < |df| ==> !Matches(df[p], s, maksAar))
      && (r.Message? ==> r.text == NO_DATA)
      && (r.Points? ==> r.groups == FilteredYearTotals(df, s, maksAar) && |r.groups| > 0)
  {
    var s := if search.Some? then search.value else "";
    var filt := Filter(df, s, maksAar);
    if |filt| == 0 then
      Message(NO_DATA)
    else
      assert Matches(filt[0], s, maksAar);
      assert filt[0] in df;
      assert filt[0].year in Keys(FilteredYearTotals(df, s, maksAar));
      Points(FilteredYearTotals(df, s, maksAar))
  }

  /**
   * `opdater_top25`: no choice (None or empty) gives the placeholder; otherwise
   * the chosen organizers' rows of `df_top25`, summed per (year, organizer).
   */
  function OpdaterTop25(dfTop25: seq<Fee>, valgte: Option<seq<string>>): (r: Plot<(int, string)>)
    ensures r.Message? <==> valgte.None? || |valgte.value| == 0
    ensures r.Message? ==> r.text == PICK_ONE
    ensures r.Points? ==> r.groups == ChosenTotals(dfTop25, valgte.value)
  {
    if valgte.None? || |valgte.value| == 0 then Message(PICK_ONE)
    else Points(ChosenTotals(dfTop25, valgte.value))
  }
}
