/**
 * app.py: the Streamlit app. `load_kunde_data` cleans the customer sheet,
 * `load_gebyr_data` the fee file; tab 1 filters the customers and derives the
 * top 25, the contract and paid/free distributions, the yearly subscription
 * growth and the top 10 invoices; tab 2 sums fees per year and per (year,
 * organizer) for the chosen top-25 organizers.
 */
module App {
  import opened Wrappers
  import opened Rows
  import opened Frames
  import opened Grouping
  import opened Customers
  import Fees
  import Ranking
  import Money
  import Text

  const FRAKTURER := "Frakturer"
  const TYPE := "Type"
  const PICK_ONE := "Vælg mindst én arrangør fra dropdown’en ovenfor."

  /** `load_kunde_data`'s result: the frame and the names of its revenue, subscription and fee columns. */
  datatype Kunder = Kunder(df: Frame, rev: string, sub: string, fee: string)

  /** None of the columns the loader reads or writes, besides the money columns, is a revenue column. */
  lemma LoaderNamesAreNotRevenue()
    ensures !IsRevenueName(FRAKTURER) && !IsRevenueName(START_AAR) && !IsRevenueName(NAME)
    ensures !IsRevenueName(START_DATO)
  {
    OtherNamesAreNotRevenue();
    assert Text.Lower(FRAKTURER) == "frakturer";
    NotRevenue(FRAKTURER);
  }

  lemma NamesDiffer()
    ensures SUB != FEE && SUB != FRAKTURER && SUB != START_DATO && SUB != START_AAR
    ensures FEE != FRAKTURER && FEE != START_DATO && FEE != START_AAR
    ensures FRAKTURER != START_DATO && FRAKTURER != START_AAR && START_DATO != START_AAR
    ensures NAME != SUB && NAME != FEE && NAME != FRAKTURER && NAME != START_DATO && NAME != START_AAR
  {
    assert |SUB| == 33 && |FEE| == 22 && |START_DATO| == 10;
    assert FRAKTURER[0] != START_AAR[0];
  }

  /** The column-level facts of a loaded customer frame. */
  ghost predicate Shape(raw: Frame, k: Kunder)
  {
    && Valid(raw) && Valid(k.df)
    && ChooseRevenueColumn(raw.columns) == Some(k.rev) && k.sub == SUB && k.fee == FEE
    && NAME in raw.data && k.rev in raw.data && SUB in raw.data && FEE in raw.data && START_DATO in raw.data
    && (forall c :: c in k.df.columns <==> c in raw.columns || c == FRAKTURER || c == START_AAR)
  }

  /** Row i of the loaded frame is sheet row p, cleaned. */
  ghost predicate RowLoaded(raw: Frame, k: Kunder, yearOf: string -> Option<int>, i: nat, p: nat)
    requires Shape(raw, k) && i < |k.df.index| && p < |raw.index|
  {
    && k.df.data[NAME][i] == raw.data[NAME][p] && k.df.data[NAME][i] != Missing
    && k.df.data[k.rev][i] == MoneyCell(raw.data[k.rev][p]) && k.df.data[k.rev][i].Num?
    && k.df.data[SUB][i] == MoneyCell(raw.data[SUB][p])
    && k.df.data[FEE][i] == MoneyCell(raw.data[FEE][p])
    && k.df.data[FRAKTURER][i] == SubCell(k.df.data[k.rev][i], k.df.data[FEE][i])
    && k.df.data[START_DATO][i] == DateCell(raw.data[START_DATO][p], yearOf)
    && k.df.data[START_AAR][i] == YearCell(k.df.data[START_DATO][i])
    && forall c :: (c in raw.data && c != k.rev && c != SUB && c != FEE && c != START_DATO
        && c != FRAKTURER && c != START_AAR) ==> k.df.data[c][i] == raw.data[c][p]
  }

  /** What a successful `load_kunde_data` returns, row by row, in terms of the sheet. */
  ghost predicate Loaded(sheet: Sheet, yearOf: string -> Option<int>, k: Kunder)
    requires WellFormed(sheet)
  {
    var raw := Kept(sheet);
    && Shape(raw, k)
    // exactly the sheet rows with a name and a revenue, in sheet order
    && k.df.index == TrueIndices(KundeMask(raw, k.rev))
    && forall i :: 0 <= i < |k.df.index| ==>
      k.df.index[i] < |raw.index| && RowLoaded(raw, k, yearOf, i, k.df.index[i])
  }

  /** Lines 4-6 of the loader: the three money columns cleaned, the revenue column first. */
  function MoneyColumns(raw: Frame, rev: string): (d: Frame)
    requires Valid(raw) && rev in raw.data && SUB in raw.data && FEE in raw.data
    ensures Valid(d) && d.index == raw.index && d.columns == raw.columns
    ensures d.data[rev] == MoneyColumn(raw.data[rev])
    ensures d.data[SUB] == MoneyColumn(raw.data[SUB])
    ensures d.data[FEE] == MoneyColumn(raw.data[FEE])
    ensures forall c :: (c in raw.data && c != rev && c != SUB && c != FEE) ==> d.data[c] == raw.data[c]
  {
    NamesDiffer();
    MoneyColumnIdempotent(raw.data[rev]);
    MoneyColumnIdempotent(raw.data[SUB]);
    var d1 := Assign(raw, rev, MoneyColumn(raw.data[rev]));
    var d2 := Assign(d1, SUB, MoneyColumn(d1.data[SUB]));
    Assign(d2, FEE, MoneyColumn(d2.data[FEE]))
  }

  /** The derived columns: "Frakturer" is revenue minus fee, "Start Dato" parsed, "Start År" its year. */
  function Derived(d: Frame, rev: string, yearOf: string -> Option<int>): (e: Frame)
    requires Valid(d) && rev in d.data && FEE in d.data && START_DATO in d.data
    requires rev != FRAKTURER && rev != START_DATO && rev != START_AAR
    ensures Valid(e) && e.index == d.index
    ensures forall c :: c in e.columns <==> c in d.columns || c == FRAKTURER || c == START_AAR
    ensures e.data[FRAKTURER] == SubColumn(d.data[rev], d.data[FEE])
    ensures e.data[START_DATO] == DateColumn(d.data[START_DATO], yearOf)
    ensures e.data[START_AAR] == YearColumn(e.data[START_DATO])
    ensures forall c :: (c in d.data && c != START_DATO && c != FRAKTURER && c != START_AAR) ==> e.data[c] == d.data[c]
  {
    NamesDiffer();
    var d4 := Assign(d, FRAKTURER, SubColumn(d.data[rev], d.data[FEE]));
    var d5 := Assign(d4, START_DATO, DateColumn(d4.data[START_DATO], yearOf));
    Assign(d5, START_AAR, YearColumn(d5.data[START_DATO]))
  }

  /** The column assignments of the loader, in its order, before the rows are dropped. */
  function Cleaned(raw: Frame, rev: string, yearOf: string -> Option<int>): (df: Frame)
    requires Valid(raw) && rev in raw.data && rev != FRAKTURER && rev != START_DATO && rev != START_AAR
    requires SUB in raw.data && FEE in raw.data && START_DATO in raw.data
  {
    Derived(MoneyColumns(raw, rev), rev, yearOf)
  }

  lemma CleanedFacts(raw: Frame, rev: string, yearOf: string -> Option<int>)
    requires Valid(raw) && rev in raw.data && rev != FRAKTURER && rev != START_DATO && rev != START_AAR
    requires SUB in raw.data && FEE in raw.data && START_DATO in raw.data
    ensures var df := Cleaned(raw, rev, yearOf);
      && Valid(df) && df.index == raw.index
      && (forall c :: c in df.columns <==> c in raw.columns || c == FRAKTURER || c == START_AAR)
      && df.data[rev] == MoneyColumn(raw.data[rev])
      && df.data[SUB] == MoneyColumn(raw.data[SUB])
      && df.data[FEE] == MoneyColumn(raw.data[FEE])
      && df.data[FRAKTURER] == SubColumn(df.data[rev], df.data[FEE])
      && df.data[START_DATO] == DateColumn(raw.data[START_DATO], yearOf)
      && df.data[START_AAR] == YearColumn(df.data[START_DATO])
      && forall c :: (c in raw.data && c != rev && c != SUB && c != FEE && c != START_DATO
        && c != FRAKTURER && c != START_AAR) ==> df.data[c] == raw.data[c]
  {
    NamesDiffer();
    var d := MoneyColumns(raw, rev);
    assert d.data[START_DATO] == raw.data[START_DATO];
  }

  /**
   * `load_kunde_data`: drop the empty columns, choose the revenue column, clean
   * the revenue, subscription and fee columns, add "Frakturer" (revenue minus
   * fee) and "Start År", then drop the rows without a name or a revenue. The
   * failures come in the order the source meets them.
   */
  method LoadKundeData(sheet: Sheet, yearOf: string -> Option<int>) returns (r: Result<Kunder, Failure>)
    requires WellFormed(sheet)
    ensures var raw := Kept(sheet);
      var choice := ChooseRevenueColumn(raw.columns);
      && (r == Err(NoRevenueColumn) <==> choice.None?)
      && (r == Err(MissingColumn(SUB)) <==> choice.Some? && SUB !in raw.columns)
      && (r == Err(MissingColumn(FEE)) <==> choice.Some? && SUB in raw.columns && FEE !in raw.columns)
      && (r == Err(MissingColumn(START_DATO)) <==>
          choice.Some? && SUB in raw.columns && FEE in raw.columns && START_DATO !in raw.columns)
      && (r == Err(MissingColumn(NAME)) <==>
          choice.Some? && SUB in raw.columns && FEE in raw.columns && START_DATO in raw.columns && NAME !in raw.columns)
      && (r.Ok? <==>
          choice.Some? && SUB in raw.columns && FEE in raw.columns && START_DATO in raw.columns && NAME in raw.columns)
    ensures r.Ok? ==> Loaded(sheet, yearOf, r.value)
  {
    var df := FromSheet(sheet);
    df := DropEmptyColumns(df);
    var raw := df;
    var choice := ChooseRevenueColumn(df.columns);
    if choice.None? {
      return Err(NoRevenueColumn);
    }
    var rev := choice.value;
    LoaderNamesAreNotRevenue();
    df := Assign(df, rev, MoneyColumn(df.data[rev]));
    if SUB !in df.data {
      return Err(MissingColumn(SUB));
    }
    df := Assign(df, SUB, MoneyColumn(df.data[SUB]));
    if FEE !in df.data {
      return Err(MissingColumn(FEE));
    }
    df := Assign(df, FEE, MoneyColumn(df.data[FEE]));
    df := Assign(df, FRAKTURER, SubColumn(df.data[rev], df.data[FEE]));
    if START_DATO !in df.data {
      return Err(MissingColumn(START_DATO));
    }
    df := Assign(df, START_DATO, DateColumn(df.data[START_DATO], yearOf));
    df := Assign(df, START_AAR, YearColumn(df.data[START_DATO]));
    assert df == Cleaned(raw, rev, yearOf);
    if NAME !in df.data {
      return Err(MissingColumn(NAME));
    }
    CleanedFacts(raw, rev, yearOf);
    NamesDiffer();
    var mask := NotNullMask(df, [NAME, rev]);
    MaskAgrees(df, raw, rev);
    var k := Kunder(SelectRows(df, mask), rev, SUB, FEE);
    LoadedRows(sheet, yearOf, raw, k);
    return Ok(k);
  }
  /** The last step of the loader: the column-wise facts become row-wise facts after the row selection. */
  lemma LoadedRows(sheet: Sheet, yearOf: string -> Option<int>, raw: Frame, k: Kunder)
    requires WellFormed(sheet) && raw == Kept(sheet)
    requires ChooseRevenueColumn(raw.columns) == Some(k.rev) && k.sub == SUB && k.fee == FEE
    requires k.rev != FRAKTURER && k.rev != START_DATO && k.rev != START_AAR
    requires NAME in raw.data && SUB in raw.data && FEE in raw.data && START_DATO in raw.data
    requires k.df == SelectRows(Cleaned(raw, k.rev, yearOf), KundeMask(raw, k.rev))
    ensures Loaded(sheet, yearOf, k)
  {
    LoadedShape(raw, k, yearOf);
    LoadedIndex(sheet, yearOf, raw, k);
    AllRows(raw, k, yearOf);
  }

  lemma LoadedShape(raw: Frame, k: Kunder, yearOf: string -> Option<int>)
    requires Valid(raw) && ChooseRevenueColumn(raw.columns) == Some(k.rev) && k.sub == SUB && k.fee == FEE
    requires k.rev != FRAKTURER && k.rev != START_DATO && k.rev != START_AAR
    requires NAME in raw.data && k.rev in raw.data && SUB in raw.data && FEE in raw.data && START_DATO in raw.data
    requires k.df == SelectRows(Cleaned(raw, k.rev, yearOf), KundeMask(raw, k.rev))
    ensures Shape(raw, k)
  {
    CleanedFacts(raw, k.rev, yearOf);
  }

  /** The loaded rows are labelled by their sheet rows. */
  lemma LoadedIndex(sheet: Sheet, yearOf: string -> Option<int>, raw: Frame, k: Kunder)
    requires WellFormed(sheet) && raw == Kept(sheet)
    requires k.rev in raw.data && k.rev != FRAKTURER && k.rev != START_DATO && k.rev != START_AAR
    requires NAME in raw.data && SUB in raw.data && FEE in raw.data && START_DATO in raw.data
    requires k.df == SelectRows(Cleaned(raw, k.rev, yearOf), KundeMask(raw, k.rev))
    ensures k.df.index == TrueIndices(KundeMask(raw, k.rev))
  {
    CleanedFacts(raw, k.rev, yearOf);
    PickRange(|sheet.rows|, TrueIndices(KundeMask(raw, k.rev)));
  }

  lemma AllRows(raw: Frame, k: Kunder, yearOf: string -> Option<int>)
    requires Shape(raw, k)
    requires k.rev != FRAKTURER && k.rev != START_DATO && k.rev != START_AAR
    requires k.df == SelectRows(Cleaned(raw, k.rev, yearOf), KundeMask(raw, k.rev))
    ensures var idx := TrueIndices(KundeMask(raw, k.rev));
      forall i :: 0 <= i < |idx| ==> idx[i] < |raw.index| && RowLoaded(raw, k, yearOf, i, idx[i])
  {
    var idx := TrueIndices(KundeMask(raw, k.rev));
    forall i | 0 <= i < |idx| ensures idx[i] < |raw.index| && RowLoaded(raw, k, yearOf, i, idx[i]) {
      RowAt(raw, k, yearOf, i);
    }
  }

  lemma RowAt(raw: Frame, k: Kunder, yearOf: string -> Option<int>, i: nat)
    requires Shape(raw, k)
    requires k.rev != FRAKTURER && k.rev != START_DATO && k.rev != START_AAR
    requires k.df == SelectRows(Cleaned(raw, k.rev, yearOf), KundeMask(raw, k.rev))
    requires i < |TrueIndices(KundeMask(raw, k.rev))|
    ensures var p := TrueIndices(KundeMask(raw, k.rev))[i];
      && p < |raw.index| && i < |k.df.index| && RowLoaded(raw, k, yearOf, i, p)
  {
    var df := Cleaned(raw, k.rev, yearOf);
    SelectedRow(df, KundeMask(raw, k.rev), k.df, i);
    OneRow(raw, k, yearOf, df, i, TrueIndices(KundeMask(raw, k.rev))[i]);
  }

  lemma OneRow(raw: Frame, k: Kunder, yearOf: string -> Option<int>, df: Frame, i: nat, p: nat)
    requires Shape(raw, k) && i < |k.df.index| && p < |raw.index|
    requires k.rev != FRAKTURER && k.rev != START_DATO && k.rev != START_AAR
    requires df == Cleaned(raw, k.rev, yearOf)
    requires KundeMask(raw, k.rev)[p]
    requires forall c :: c in df.data ==> k.df.data[c][i] == df.data[c][p]
    ensures RowLoaded(raw, k, yearOf, i, p)
  {
    CleanedFacts(raw, k.rev, yearOf);
    NamesDiffer();
    LoaderNamesAreNotRevenue();
  }

  // ─── Tab 1: customers ───────────────────────────────────────────────────

  /** The case-blind name search on one cell: an empty or non-text cell never matches. */
  predicate NameMatches(c: Cell, search: string)
  {
    c.Str? && Text.ContainsIgnoreCase(c.s, search)
  }

  /** A start year with an empty year read as 0. */
  function YearOr0(c: Cell): int
  {
    if c.Whole? then c.n else 0
  }

  /** The customer filter for one row, all three tests at once. */
  ghost predicate Wanted(df: Frame, p: nat, search: string, maxYear: int, kontr: seq<Cell>)
    requires Valid(df) && NAME in df.data && START_AAR in df.data && KONTRAKT in df.data && p < |df.index|
  {
    && NameMatches(df.data[NAME][p], search)
    && YearOr0(df.data[START_AAR][p]) <= maxYear
    && (|kontr| > 0 ==> df.data[KONTRAKT][p] in kontr)
  }

  ghost function WantedMask(df: Frame, search: string, maxYear: int, kontr: seq<Cell>): (mask: seq<bool>)
    requires Valid(df) && NAME in df.data && START_AAR in df.data && KONTRAKT in df.data
    ensures |mask| == |df.index|
    ensures forall p :: 0 <= p < |df.index| ==> (mask[p] <==> Wanted(df, p, search, maxYear, kontr))
  {
    seq(|df.index|, p requires 0 <= p < |df.index| => Wanted(df, p, search, maxYear, kontr))
  }

  /**
   * The sidebar filter: the mask starts as the name search, is and-ed with the
   * year bound (an empty year counts as 0), and, when some contract types are
   * chosen, with membership in them. A missing "Kontrakttype" column fails
   * (its options are read before the filter).
   */
  method FilterCustomers(df: Frame, search: string, maxYear: int, kontr: seq<Cell>) returns (r: Result<Frame, Failure>)
    requires Valid(df) && NAME in df.data && START_AAR in df.data
    ensures r.Err? <==> KONTRAKT !in df.data
    ensures r.Err? ==> r.error == MissingColumn(KONTRAKT)
    ensures r.Ok? ==> r.value == SelectRows(df, WantedMask(df, search, maxYear, kontr))
  {
    if KONTRAKT !in df.data {
      return Err(MissingColumn(KONTRAKT));
    }
    var n := |df.index|;
    var mask := seq(n, p requires 0 <= p < n => NameMatches(df.data[NAME][p], search));
    mask := And(mask, seq(n, p requires 0 <= p < n => YearOr0(df.data[START_AAR][p]) <= maxYear));
    if |kontr| > 0 {
      mask := And(mask, seq(n, p requires 0 <= p < n => df.data[KONTRAKT][p] in kontr));
    }
    assert mask == WantedMask(df, search, maxYear, kontr);
    return Ok(SelectRows(df, mask));
  }

  /**
   * What the filter keeps: exactly the positions of the rows that pass all
   * three tests, in their order, each with its label and all its cells.
   */
  lemma FilterKeepsExactly(df: Frame, search: string, maxYear: int, kontr: seq<Cell>, g: Frame)
    requires Valid(df) && NAME in df.data && START_AAR in df.data && KONTRAKT in df.data
    requires g == SelectRows(df, WantedMask(df, search, maxYear, kontr))
    ensures var kept := TrueIndices(WantedMask(df, search, maxYear, kontr));
      && |g.index| == |kept| <= |df.index|
      && (forall p :: 0 <= p < |df.index| ==> (p in kept <==> Wanted(df, p, search, maxYear, kontr)))
      && forall i :: 0 <= i < |kept| ==> kept[i] < |df.index| && SameRow(g, i, df, kept[i])
  {
    var kept := TrueIndices(WantedMask(df, search, maxYear, kontr));
    forall i | 0 <= i < |kept| ensures kept[i] < |df.index| && SameRow(g, i, df, kept[i]) {
      assert kept[i] in kept;
    }
  }

  /** Row i of g is row p of f: the same label and the same cells. */
  ghost predicate SameRow(g: Frame, i: nat, f: Frame, p: nat)
    requires Valid(g) && Valid(f) && g.columns == f.columns && i < |g.index| && p < |f.index|
  {
    g.index[i] == f.index[p] && forall c :: c in g.data ==> g.data[c][i] == f.data[c][p]
  }

  /**
   * "Top 25 efter samlet indtjening": the 25 filtered customers with the
   * largest revenue; the loader leaves no revenue empty, and then every row
   * shown has one.
   */
  function Top25(dff: Frame, rev: string): (g: Frame)
    requires Valid(dff) && rev in dff.data
    ensures Valid(g) && g.columns == dff.columns
    ensures |g.index| == Ranking.Min(25, |dff.index|)
    ensures var k := Ranking.Min(25, Ranking.CountPresent(NumKeys(dff.data[rev])));
      && k <= |g.index|
      && (forall i :: 0 <= i < |g.index| ==> (NumKey(g.data[rev][i]).Some? <==> i < k))
      && (forall i, j :: 0 <= i < j < k ==> NumKey(g.data[rev][i]).value >= NumKey(g.data[rev][j]).value)
    ensures (forall p :: 0 <= p < |dff.index| ==> NumKey(dff.data[rev][p]).Some?) ==>
      forall i :: 0 <= i < |g.index| ==> NumKey(g.data[rev][i]).Some?
    ensures g == PickRows(dff, Ranking.NLargestPositions(NumKeys(dff.data[rev]), 25))
  {
    if forall p :: 0 <= p < |dff.index| ==> NumKey(dff.data[rev][p]).Some? then
      NLargestNoEmpty(dff, 25, rev);
      NLargest(dff, 25, rev)
    else
      NLargest(dff, 25, rev)
  }

  /**
   * "Top 10 Betalte Fakturaer": the 10 filtered customers with the largest
   * "Frakturer", then, up to 10 rows, the customers whose "Frakturer" is empty
   * (no fee number), in row order.
   */
  function Top10(dff: Frame): (g: Frame)
    requires Valid(dff) && FRAKTURER in dff.data
    ensures Valid(g) && g.columns == dff.columns
    ensures |g.index| == Ranking.Min(10, |dff.index|)
    ensures var k := Ranking.Min(10, Ranking.CountPresent(NumKeys(dff.data[FRAKTURER])));
      && k <= |g.index|
      && (forall i :: 0 <= i < |g.index| ==> (NumKey(g.data[FRAKTURER][i]).Some? <==> i < k))
      && (forall i, j :: 0 <= i < j < k ==>
        NumKey(g.data[FRAKTURER][i]).value >= NumKey(g.data[FRAKTURER][j]).value)
    ensures g == PickRows(dff, Ranking.NLargestPositions(NumKeys(dff.data[FRAKTURER]), 10))
  {
    NLargest(dff, 10, FRAKTURER)
  }

  // ─── Tab 2: fees per organizer ──────────────────────────────────────────

  /**
   * `load_gebyr_data`: the cleaned fee table, and its rows of the 25
   * organizers with the largest summed fee.
   */
  method LoadGebyrData(raw: seq<Fees.FeeLine>) returns (df2: seq<Fees.Fee>, top25: seq<Fees.Fee>)
    ensures Fees.CleanedFrom(raw, df2)
    ensures forall i :: 0 <= i < |top25| ==>
      top25[i].organizer.Some? && top25[i].organizer.value in Fees.TopOrganizers(df2, 25)
    ensures forall p :: (0 <= p < |df2| && df2[p].organizer.Some?
      && df2[p].organizer.value in Fees.TopOrganizers(df2, 25)) ==> df2[p] in top25
    ensures top25 == Select(df2, Fees.IsinMask(df2, Fees.TopOrganizers(df2, 25)))
  {
    df2 := Fees.CleanFees(raw);
    var top25Idx := Fees.TopOrganizers(df2, 25);
    top25 := Fees.Restrict(df2, top25Idx);
  }

  /** The organizer names of the rows that have one, in row order. */
  function OrganizerNames(df: seq<Fees.Fee>): (ns: seq<string>)
    ensures forall o :: o in ns <==> Some(o) in Fees.Organizers(df)
  {
    if |df| == 0 then []
    else
      var last := df[|df| - 1];
      assert Fees.Organizers(df) == Fees.Organizers(df[..|df| - 1]) + [last.organizer];
      OrganizerNames(df[..|df| - 1]) + (if last.organizer.Some? then [last.organizer.value] else [])
  }

  /**
   * `top25_opts` and `default`: the distinct organizers of `gebyr_top25` in
   * order of first appearance, and the first five of them — the five that
   * appear first in the table, not the five with the largest sums.
   */
  function Options(top25: seq<Fees.Fee>): (r: (seq<string>, seq<string>))
    ensures Distinct(r.0)
    ensures forall o :: o in r.0 <==> Some(o) in Fees.Organizers(top25)
    ensures |r.1| == Ranking.Min(5, |r.0|) && r.1 == r.0[..|r.1|]
    ensures forall a, b :: a in r.1 && b in r.0 && b !in r.1 ==>
      FirstIndex(OrganizerNames(top25), a) < FirstIndex(OrganizerNames(top25), b)
  {
    var names := OrganizerNames(top25);
    var opts := Unique(names);
    var d := opts[..Ranking.Min(5, |opts|)];
    FirstSeenPrefix(names, Ranking.Min(5, |opts|));
    (opts, d)
  }

  /** The first m distinct values all appear before any of the others. */
  lemma FirstSeenPrefix(names: seq<string>, m: nat)
    requires m <= |Unique(names)|
    ensures var opts := Unique(names);
      forall a, b :: a in opts[..m] && b in opts && b !in opts[..m] ==>
        FirstIndex(names, a) < FirstIndex(names, b)
  {
    var opts := Unique(names);
    var d := opts[..m];
    UniqueOrder(names);
    forall a, b | a in d && b in opts && b !in d
      ensures FirstIndex(names, a) < FirstIndex(names, b)
    {
      var i :| 0 <= i < |d| && d[i] == a;
      var j :| 0 <= j < |opts| && opts[j] == b;
      assert j >= |d|;
    }
  }

  /**
   * The chart of the chosen top-25 organizers: with a non-empty choice, the
   * fees of their rows summed per (year, organizer), sorted by year then
   * organizer; with none, the info message.
   */
  function ChosenPlot(top25: seq<Fees.Fee>, valgt: seq<string>): (r: Fees.Plot<(int, string)>)
    ensures r.Message? <==> |valgt| == 0
    ensures r.Message? ==> r.text == PICK_ONE
    ensures r.Points? ==> r.groups == Fees.ChosenTotals(top25, valgt)
  {
    if |valgt| > 0 then Fees.Points(Fees.ChosenTotals(top25, valgt)) else Fees.Message(PICK_ONE)
  }
}
