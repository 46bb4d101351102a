/**
 * visualiseringer.py: the stand-alone script over the customer sheet. It cleans
 * the revenue column and drops the customers without a name or a revenue,
 * ranks the 25 largest revenues, splits the customers by contract type, parses
 * the start dates and sums the yearly subscription per start year, splits the
 * customers into paid and free subscriptions, and ranks the ten largest
 * revenues net of fees. Two click handlers show, for a pie slice, its first ten
 * customer names.
 */
module Visualiseringer {
  import opened Wrappers
  import opened Rows
  import opened Frames
  import opened Grouping
  import opened Customers
  import Ranking
  import Text

  const ABONNEMENTSTYPE := "Abonnementstype"
  const BETALTE_FRAKTURER := "Betalte Frakturer"
  const ELLIPSIS := "…"

  /** The column names the script reads or adds are pairwise different. */
  lemma NamesDiffer()
    ensures |NAME| == 4 && |KONTRAKT| == 12 && |START_DATO| == 10 && |START_AAR| == 8
    ensures |SUB| == 33 && |FEE| == 22 && |ABONNEMENTSTYPE| == 15 && |BETALTE_FRAKTURER| == 17
  {
  }

  /** Neither added column is a revenue column, so neither can be the chosen one. */
  lemma AddedNamesAreNotRevenue()
    ensures !IsRevenueName(ABONNEMENTSTYPE) && !IsRevenueName(BETALTE_FRAKTURER)
  {
    TypeIsNotRevenue();
    FrakturerIsNotRevenue();
  }

  lemma TypeIsNotRevenue()
    ensures !IsRevenueName(ABONNEMENTSTYPE)
  {
    assert Text.Lower(ABONNEMENTSTYPE) == "abonnementstype";
    NotRevenue(ABONNEMENTSTYPE);
  }

  lemma FrakturerIsNotRevenue()
    ensures !IsRevenueName(BETALTE_FRAKTURER)
  {
    assert Text.Lower(BETALTE_FRAKTURER) == "betalte frakturer";
    NotRevenue(BETALTE_FRAKTURER);
  }

  /** Row i of a loaded customer frame: sheet row p with its revenue cleaned to a number and a name present. */
  ghost predicate CustomerRow(raw: Frame, rev: string, df: Frame, i: nat)
    requires Valid(raw) && Valid(df) && df.columns == raw.columns && NAME in raw.data && rev in raw.data
    requires InRange(df.index, |raw.index|) && i < |df.index|
  {
    var p := df.index[i];
    && df.data[NAME][i] != Missing
    && df.data[rev][i] == MoneyCell(raw.data[rev][p]) && df.data[rev][i].Num?
    && forall c :: c in raw.data && c != rev ==> df.data[c][i] == raw.data[c][p]
  }

  /**
   * The customers after the first steps: the revenue column chosen, cleaned,
   * and the rows kept that have a name and a revenue, in sheet order.
   */
  ghost predicate CustomersLoaded(raw: Frame, rev: string, df: Frame)
    requires Valid(raw)
  {
    && ChooseRevenueColumn(raw.columns) == Some(rev) && rev in raw.data && NAME in raw.data
    && Valid(df) && df.columns == raw.columns
    && df.index == TrueIndices(KundeMask(raw, rev))
    && forall i :: 0 <= i < |df.index| ==> CustomerRow(raw, rev, df, i)
  }

  /**
   * Steps 1 to 3: read the sheet, drop the empty columns, choose and clean the
   * revenue column, drop the rows without a name or a revenue. No revenue
   * column and no "Name" column are the failures.
   */
  method LoadCustomers(sheet: Sheet) returns (r: Result<(string, Frame), Failure>)
    requires WellFormed(sheet)
    ensures var raw := Kept(sheet);
      var choice := ChooseRevenueColumn(raw.columns);
      && (r == Err(NoRevenueColumn) <==> choice.None?)
      && (r == Err(MissingColumn(NAME)) <==> choice.Some? && NAME !in raw.columns)
      && (r.Ok? <==> choice.Some? && NAME in raw.columns)
      && (r.Ok? ==> CustomersLoaded(raw, r.value.0, r.value.1))
  {
    var df := FromSheet(sheet);
    df := DropEmptyColumns(df);
    ghost var raw := df;
    var choice := ChooseRevenueColumn(df.columns);
    if choice.None? {
      return Err(NoRevenueColumn);
    }
    var rev := choice.value;
    df := Assign(df, rev, MoneyColumn(df.data[rev]));
    if NAME !in df.data {
      return Err(MissingColumn(NAME));
    }
    CleanedMask(raw, rev);
    var mask := NotNullMask(df, [NAME, rev]);
    ghost var cleaned := df;
    df := SelectRows(df, mask);
    CustomerRows(raw, rev, cleaned, df);
    return Ok((rev, df));
  }

  /** The rows with a name and a cleaned revenue are the same before and after the revenue column is cleaned. */
  lemma CleanedMask(raw: Frame, rev: string)
    requires Valid(raw) && NAME in raw.data && rev in raw.data && ChooseRevenueColumn(raw.columns) == Some(rev)
    ensures NAME != rev
    ensures NotNullMask(Assign(raw, rev, MoneyColumn(raw.data[rev])), [NAME, rev]) == KundeMask(raw, rev)
  {
    OtherNamesAreNotRevenue();
    MaskAgrees(Assign(raw, rev, MoneyColumn(raw.data[rev])), raw, rev);
  }

  lemma CustomerRows(raw: Frame, rev: string, cleaned: Frame, df: Frame)
    requires Valid(raw) && raw.index == Range(|raw.index|) && NAME in raw.data && rev in raw.data && NAME != rev
    requires ChooseRevenueColumn(raw.columns) == Some(rev)
    requires cleaned == Assign(raw, rev, MoneyColumn(raw.data[rev]))
    requires df == SelectRows(cleaned, KundeMask(raw, rev))
    ensures CustomersLoaded(raw, rev, df)
  {
    var idx := TrueIndices(KundeMask(raw, rev));
    PickRange(|raw.index|, idx);
    assert df.index == idx;
    forall i | 0 <= i < |df.index| ensures CustomerRow(raw, rev, df, i) {
      OneCustomerRow(raw, rev, cleaned, df, i);
    }
  }

  lemma OneCustomerRow(raw: Frame, rev: string, cleaned: Frame, df: Frame, i: nat)
    requires Valid(raw) && NAME in raw.data && rev in raw.data && NAME != rev
    requires cleaned == Assign(raw, rev, MoneyColumn(raw.data[rev]))
    requires df == SelectRows(cleaned, KundeMask(raw, rev))
    requires df.index == TrueIndices(KundeMask(raw, rev)) && i < |df.index|
    ensures CustomerRow(raw, rev, df, i)
  {
    var idx := TrueIndices(KundeMask(raw, rev));
    assert idx[i] in idx;
    var p := idx[i];
    assert KundeMask(raw, rev)[p];
    assert df.data[NAME][i] == raw.data[NAME][p];
    assert df.data[rev][i] == MoneyCell(raw.data[rev][p]);
  }

  /** Row i of `after` is row keep[i] of `before` in every column outside `changed`. */
  ghost predicate KeptRows(before: Frame, after: Frame, keep: seq<nat>, changed: set<string>)
    requires Valid(before) && Valid(after) && InRange(keep, |before.index|) && |keep| == |after.index|
  {
    forall c, i :: c in before.data && c !in changed && 0 <= i < |keep| ==>
      c in after.data && after.data[c][i] == before.data[c][keep[i]]
  }

  /** The rows whose start date parses. */
  function DateMask(col: seq<Cell>, yearOf: string -> Option<int>): (mask: seq<bool>)
    ensures |mask| == |col| && forall p :: 0 <= p < |col| ==> (mask[p] <==> DateCell(col[p], yearOf) != Missing)
  {
    seq(|col|, p requires 0 <= p < |col| => DateCell(col[p], yearOf) != Missing)
  }

  /**
   * Step 8's date handling: exactly the rows whose "Start Dato" parses are
   * kept, in order; each holds its date and, in "Start År", that date's year.
   */
  ghost predicate DatedFrom(before: Frame, yearOf: string -> Option<int>, after: Frame)
    requires Valid(before) && START_DATO in before.data
  {
    var keep := TrueIndices(DateMask(before.data[START_DATO], yearOf));
    && Valid(after)
    && (forall c :: c in after.data <==> c in before.data || c == START_AAR)
    && after.index == Pick(before.index, keep)
    && forall i :: 0 <= i < |keep| ==> DatedRow(before, yearOf, after, keep, i)
  }

  method ParseStartDates(before: Frame, yearOf: string -> Option<int>) returns (after: Frame)
    requires Valid(before) && START_DATO in before.data
    ensures DatedFrom(before, yearOf, after)
  {
    var df := Assign(before, START_DATO, DateColumn(before.data[START_DATO], yearOf));
    ghost var parsed := df;
    df := DropNa(df, [START_DATO]);
    after := Assign(df, START_AAR, YearColumn(df.data[START_DATO]));
    DatedRows(before, yearOf, parsed, after);
  }

  lemma DatedRows(before: Frame, yearOf: string -> Option<int>, parsed: Frame, after: Frame)
    requires Valid(before) && START_DATO in before.data
    requires parsed == Assign(before, START_DATO, DateColumn(before.data[START_DATO], yearOf))
    requires after == Assign(DropNa(parsed, [START_DATO]), START_AAR, YearColumn(DropNa(parsed, [START_DATO]).data[START_DATO]))
    ensures DatedFrom(before, yearOf, after)
  {
    var keep := TrueIndices(DateMask(before.data[START_DATO], yearOf));
    assert NotNullMask(parsed, [START_DATO]) == DateMask(before.data[START_DATO], yearOf);
    forall i | 0 <= i < |keep| ensures DatedRow(before, yearOf, after, keep, i) {
      DatedRowAt(before, yearOf, parsed, after, i);
    }
  }

  /** Row i after the date step: sheet row keep[i] with its parsed date and that date's year. */
  ghost predicate DatedRow(before: Frame, yearOf: string -> Option<int>, after: Frame, keep: seq<nat>, i: nat)
    requires Valid(before) && START_DATO in before.data && InRange(keep, |before.index|) && i < |keep|
  {
    && (forall c :: c in before.data && c !in {START_DATO, START_AAR} ==>
      c in after.data && |after.data[c]| == |keep| && after.data[c][i] == before.data[c][keep[i]])
    && START_DATO in after.data && START_AAR in after.data
    && |after.data[START_DATO]| == |after.data[START_AAR]| == |keep|
    && after.data[START_DATO][i] == DateCell(before.data[START_DATO][keep[i]], yearOf)
    && after.data[START_DATO][i].Date?
    && after.data[START_AAR][i] == Whole(after.data[START_DATO][i].year)
  }

  lemma DatedRowAt(before: Frame, yearOf: string -> Option<int>, parsed: Frame, after: Frame, i: nat)
    requires Valid(before) && START_DATO in before.data
    requires parsed == Assign(before, START_DATO, DateColumn(before.data[START_DATO], yearOf))
    requires NotNullMask(parsed, [START_DATO]) == DateMask(before.data[START_DATO], yearOf)
    requires after == Assign(DropNa(parsed, [START_DATO]), START_AAR, YearColumn(DropNa(parsed, [START_DATO]).data[START_DATO]))
    requires i < |TrueIndices(DateMask(before.data[START_DATO], yearOf))|
    ensures DatedRow(before, yearOf, after, TrueIndices(DateMask(before.data[START_DATO], yearOf)), i)
  {
    var dropped := DropNa(parsed, [START_DATO]);
    var keep := TrueIndices(DateMask(before.data[START_DATO], yearOf));
    DroppedRow(before, yearOf, parsed, i);
    forall c | c in before.data && c !in {START_DATO, START_AAR}
      ensures c in after.data && |after.data[c]| == |keep| && after.data[c][i] == before.data[c][keep[i]]
    {
      assert after.data[c] == dropped.data[c];
    }
    assert after.data[START_DATO] == dropped.data[START_DATO];
    assert after.data[START_AAR] == YearColumn(dropped.data[START_DATO]);
    assert after.data[START_AAR][i] == YearCell(dropped.data[START_DATO][i]);
  }

  /** Row i after dropping the undated rows is the i-th dated row of `before`, with its date converted. */
  lemma DroppedRow(before: Frame, yearOf: string -> Option<int>, parsed: Frame, i: nat)
    requires Valid(before) && START_DATO in before.data
    requires parsed == Assign(before, START_DATO, DateColumn(before.data[START_DATO], yearOf))
    requires NotNullMask(parsed, [START_DATO]) == DateMask(before.data[START_DATO], yearOf)
    requires i < |TrueIndices(DateMask(before.data[START_DATO], yearOf))|
    ensures var dropped := DropNa(parsed, [START_DATO]);
      var keep := TrueIndices(DateMask(before.data[START_DATO], yearOf));
      && keep[i] < |before.index| && |dropped.index| == |keep|
      && (forall c :: c in before.data ==> c in dropped.data && |dropped.data[c]| == |keep|)
      && (forall c :: c in before.data && c != START_DATO ==> dropped.data[c][i] == before.data[c][keep[i]])
      && START_DATO in dropped.data
      && dropped.data[START_DATO][i] == DateCell(before.data[START_DATO][keep[i]], yearOf)
      && dropped.data[START_DATO][i].Date?
  {
    var dropped := DropNa(parsed, [START_DATO]);
    var idx := TrueIndices(DateMask(before.data[START_DATO], yearOf));
    assert idx[i] in idx;
    var p := idx[i];
    assert forall c :: c in dropped.data ==> dropped.data[c][i] == parsed.data[c][p];
    assert dropped.data[START_DATO][i] == DateCell(before.data[START_DATO][p], yearOf);
  }

  /** The rows whose money text cleans to a number. */
  function MoneyMask(col: seq<Cell>): (mask: seq<bool>)
    ensures |mask| == |col| && forall p :: 0 <= p < |col| ==> (mask[p] <==> MoneyCell(col[p]) != Missing)
  {
    seq(|col|, p requires 0 <= p < |col| => MoneyCell(col[p]) != Missing)
  }

  /**
   * Step 8's subscription cleaning: exactly the rows whose subscription value
   * cleans to a number are kept, in order, holding that number.
   */
  ghost predicate SubscribedFrom(before: Frame, after: Frame)
    requires Valid(before) && SUB in before.data
  {
    var keep := TrueIndices(MoneyMask(before.data[SUB]));
    && Valid(after) && after.columns == before.columns
    && after.index == Pick(before.index, keep)
    && KeptRows(before, after, keep, {SUB})
    && forall i :: 0 <= i < |after.index| ==>
      after.data[SUB][i] == MoneyCell(before.data[SUB][keep[i]]) && after.data[SUB][i].Num?
  }

  method CleanSubscription(before: Frame) returns (after: Frame)
    requires Valid(before) && SUB in before.data
    ensures SubscribedFrom(before, after)
  {
    var df := Assign(before, SUB, MoneyColumn(before.data[SUB]));
    ghost var cleaned := df;
    after := DropNa(df, [SUB]);
    assert NotNullMask(cleaned, [SUB]) == MoneyMask(before.data[SUB]);
  }

  /** Row i of a billed frame: "Betalte Frakturer" is revenue minus fee. */
  ghost predicate BilledRow(f: Frame, rev: string, i: nat)
    requires Valid(f) && rev in f.data && FEE in f.data && BETALTE_FRAKTURER in f.data && i < |f.index|
  {
    f.data[BETALTE_FRAKTURER][i] == SubCell(f.data[rev][i], f.data[FEE][i])
  }

  /**
   * Step 10: the fee column cleaned, "Betalte Frakturer" added as revenue
   * minus fee, the rows without it dropped and the ten largest ranked. Every
   * ranked row has a revenue and a fee, and its value is their difference.
   */
  ghost predicate BilledFrom(before: Frame, rev: string, billed: Frame, top10: Frame)
    requires Valid(before) && rev in before.data && FEE in before.data
  {
    && BilledColumns(before, rev, billed)
    && RankedNet(billed, rev, top10)
  }

  /** The fee column cleaned and "Betalte Frakturer" added as revenue minus fee; nothing else changes. */
  ghost predicate BilledColumns(before: Frame, rev: string, billed: Frame)
    requires Valid(before) && rev in before.data && FEE in before.data
  {
    && Valid(billed) && billed.index == before.index
    && (forall c :: c in billed.data <==> c in before.data || c == BETALTE_FRAKTURER)
    && billed.data[FEE] == MoneyColumn(before.data[FEE])
    && (forall c :: c in before.data && c != FEE && c != BETALTE_FRAKTURER ==> billed.data[c] == before.data[c])
    && (forall i :: 0 <= i < |billed.index| ==> BilledRow(billed, rev, i))
  }

  /** The ten largest "Betalte Frakturer" rows, each with a revenue, a fee and their difference. */
  ghost predicate RankedNet(billed: Frame, rev: string, top10: Frame)
  {
    && Valid(billed) && rev in billed.data && FEE in billed.data && BETALTE_FRAKTURER in billed.data
    && top10 == NLargest(DropNa(billed, [BETALTE_FRAKTURER]), 10, BETALTE_FRAKTURER)
    && |top10.index| <= 10
    && forall i :: 0 <= i < |top10.index| ==>
      && top10.data[rev][i].Num? && top10.data[FEE][i].Num?
      && top10.data[BETALTE_FRAKTURER][i] == Num(top10.data[rev][i].x - top10.data[FEE][i].x)
  }

  method BillFrakturer(before: Frame, rev: string) returns (billed: Frame, top10: Frame)
    requires Valid(before) && rev in before.data && FEE in before.data && IsRevenueName(rev)
    ensures BilledFrom(before, rev, billed, top10)
  {
    FrakturerIsNotRevenue();
    var df := Assign(before, FEE, MoneyColumn(before.data[FEE]));
    billed := Assign(df, BETALTE_FRAKTURER, SubColumn(df.data[rev], df.data[FEE]));
    var frak := DropNa(billed, [BETALTE_FRAKTURER]);
    top10 := NLargest(frak, 10, BETALTE_FRAKTURER);
    BilledColumnsOf(before, rev);
    TopTenRows(billed, rev, top10);
  }

  lemma BilledColumnsOf(before: Frame, rev: string)
    requires Valid(before) && rev in before.data && FEE in before.data && rev != BETALTE_FRAKTURER
    ensures var df := Assign(before, FEE, MoneyColumn(before.data[FEE]));
      BilledColumns(before, rev, Assign(df, BETALTE_FRAKTURER, SubColumn(df.data[rev], df.data[FEE])))
  {
    NamesDiffer();
    var df := Assign(before, FEE, MoneyColumn(before.data[FEE]));
    var net := SubColumn(df.data[rev], df.data[FEE]);
    var billed := Assign(df, BETALTE_FRAKTURER, net);
    assert billed.data[rev] == df.data[rev] && billed.data[FEE] == df.data[FEE];
    assert billed.data[BETALTE_FRAKTURER] == net;
    forall i | 0 <= i < |billed.index| ensures BilledRow(billed, rev, i) {
      assert net[i] == SubCell(df.data[rev][i], df.data[FEE][i]);
    }
  }

  /** Every row of the net revenue ranking has a revenue and a fee, and holds their difference. */
  lemma TopTenRows(billed: Frame, rev: string, top10: Frame)
    requires Valid(billed) && rev in billed.data && FEE in billed.data && BETALTE_FRAKTURER in billed.data
    requires forall i :: 0 <= i < |billed.index| ==> BilledRow(billed, rev, i)
    requires top10 == NLargest(DropNa(billed, [BETALTE_FRAKTURER]), 10, BETALTE_FRAKTURER)
    ensures RankedNet(billed, rev, top10)
  {
    var frak := DropNa(billed, [BETALTE_FRAKTURER]);
    PickKeepsBilledRows(billed, rev, TrueIndices(NotNullMask(billed, [BETALTE_FRAKTURER])));
    PickKeepsBilledRows(frak, rev, Ranking.NLargestPositions(NumKeys(frak.data[BETALTE_FRAKTURER]), 10));
    forall i | 0 <= i < |top10.index|
      ensures top10.data[rev][i].Num? && top10.data[FEE][i].Num?
      ensures top10.data[BETALTE_FRAKTURER][i] == Num(top10.data[rev][i].x - top10.data[FEE][i].x)
    {
      assert BilledRow(top10, rev, i);
    }
  }

  /** Taking rows keeps the revenue-minus-fee relation of every row. */
  lemma PickKeepsBilledRows(f: Frame, rev: string, idx: seq<nat>)
    requires Valid(f) && rev in f.data && FEE in f.data && BETALTE_FRAKTURER in f.data && InRange(idx, |f.index|)
    requires forall i :: 0 <= i < |f.index| ==> BilledRow(f, rev, i)
    ensures forall i :: 0 <= i < |idx| ==> BilledRow(PickRows(f, idx), rev, i)
  {
    var g := PickRows(f, idx);
    forall i | 0 <= i < |idx| ensures BilledRow(g, rev, i) {
      assert BilledRow(f, rev, idx[i]);
    }
  }

  /** `grouped`: each slice's key mapped to its names joined by a line break. */
  function Grouped(p: Pie): (m: map<string, string>)
    requires |p.names| == |p.counts| && Distinct(CountKeys(p.counts))
    ensures forall k :: k in m <==> k in CountKeys(p.counts)
    ensures forall i :: 0 <= i < |p.counts| ==> m[p.counts[i].key] == p.names[i]
  {
    map i | 0 <= i < |p.counts| :: p.counts[i].key := p.names[i]
  }

  /** Steps 1 to 7: the chosen revenue column, the loaded customers, their top 25 and the contract-type pie. */
  datatype Front = Front(
    rev: string, customers: Frame, top25: Frame,
    contractRows: Frame, contracts: Pie, grouped: map<string, string>)

  /** Steps 8 to 10: dates, subscriptions and their yearly sums, paid or free, and the net revenue ranking. */
  datatype Back = Back(
    dated: Frame, subscribed: Frame, yearly: seq<Group<int>>,
    typed: Frame, types: Pie, grouped2: map<string, string>,
    billed: Frame, top10: Frame)

  /** What the script computes and plots, step by step. */
  datatype Report = Report(front: Front, back: Back)

  ghost predicate CustomerPart(raw: Frame, f: Front)
    requires Valid(raw)
  {
    && CustomersLoaded(raw, f.rev, f.customers)
    && KONTRAKT in f.customers.data
    && f.top25 == NLargest(f.customers, 25, f.rev)
    && f.contractRows == DropNa(f.customers, [KONTRAKT])
    && TextColumn(f.contractRows.data[KONTRAKT])
    && f.contracts == Distribution(f.contractRows, KONTRAKT, "\n")
    && f.grouped == Grouped(f.contracts)
  }

  /** The paid/free column: every row's subscription value is a number, and "Betalt" marks the positive ones. */
  ghost predicate PaidFrom(subscribed: Frame, typed: Frame)
    requires Valid(subscribed) && SUB in subscribed.data
    requires forall i :: 0 <= i < |subscribed.index| ==> subscribed.data[SUB][i].Num?
  {
    && Valid(typed) && typed.index == subscribed.index
    && (forall c :: c in typed.data <==> c in subscribed.data || c == ABONNEMENTSTYPE)
    && (forall c :: c in subscribed.data && c != ABONNEMENTSTYPE ==> typed.data[c] == subscribed.data[c])
    && (forall i :: 0 <= i < |typed.index| ==>
      && (typed.data[ABONNEMENTSTYPE][i] == Str(BETALT) <==> subscribed.data[SUB][i].x > 0.0)
      && (typed.data[ABONNEMENTSTYPE][i] == Str(GRATIS) <==> subscribed.data[SUB][i].x <= 0.0))
    && TextColumn(typed.data[ABONNEMENTSTYPE])
  }

  /** Steps 8 (the yearly sums) to 10, on the rows with a parsed date and a subscription number. */
  ghost predicate TailPart(b: Back, rev: string)
  {
    && Valid(b.subscribed) && SUB in b.subscribed.data && START_AAR in b.subscribed.data
    && rev in b.subscribed.data && NAME in b.subscribed.data
    && (forall i :: 0 <= i < |b.subscribed.index| ==> b.subscribed.data[SUB][i].Num?)
    && b.yearly == Growth(b.subscribed, SUB)
    && PaidFrom(b.subscribed, b.typed)
    && b.types == Distribution(b.typed, ABONNEMENTSTYPE, "\n")
    && b.grouped2 == Grouped(b.types)
    && FEE in b.typed.data
    && BilledFrom(b.typed, rev, b.billed, b.top10)
  }

  ghost predicate SubscriptionPart(customers: Frame, rev: string, b: Back, yearOf: string -> Option<int>)
  {
    && Valid(customers) && START_DATO in customers.data
    && DatedFrom(customers, yearOf, b.dated)
    && SUB in b.dated.data
    && SubscribedFrom(b.dated, b.subscribed)
    && TailPart(b, rev)
  }

  /** The contract-type counts add up to the customers that have a contract type. */
  lemma ContractCountsCoverRows(raw: Frame, f: Front)
    requires Valid(raw) && CustomerPart(raw, f)
    ensures CountTotal(f.contracts.counts) == |f.contractRows.index|
  {
    NonEmptyAll(f.contractRows.data[KONTRAKT]);
  }

  /**
   * Steps 1 to 7. The failures, in the order the script meets them: no revenue
   * column, no "Name" column, no "Kontrakttype" column.
   */
  method CustomerSteps(sheet: Sheet) returns (r: Result<Front, Failure>)
    requires WellFormed(sheet)
    ensures var raw := Kept(sheet);
      var choice := ChooseRevenueColumn(raw.columns);
      && (r == Err(NoRevenueColumn) <==> choice.None?)
      && (r == Err(MissingColumn(NAME)) <==> choice.Some? && NAME !in raw.columns)
      && (r == Err(MissingColumn(KONTRAKT)) <==> choice.Some? && NAME in raw.columns && KONTRAKT !in raw.columns)
      && (r.Ok? <==> choice.Some? && NAME in raw.columns && KONTRAKT in raw.columns)
      && (r.Ok? ==> CustomerPart(raw, r.value))
  {
    ghost var raw := Kept(sheet);
    var loaded := LoadCustomers(sheet);
    if loaded.Err? {
      return Err(loaded.error);
    }
    var rev := loaded.value.0;
    var customers := loaded.value.1;
    if KONTRAKT !in customers.data {
      return Err(MissingColumn(KONTRAKT));
    }
    var top25 := NLargest(customers, 25, rev);
    var contractRows := DropNa(customers, [KONTRAKT]);
    KontraktIsNotRevenue();
    ContractsAreText(raw, rev, customers);
    DropNaText(customers, [KONTRAKT], KONTRAKT);
    var contracts := Distribution(contractRows, KONTRAKT, "\n");
    var grouped := Grouped(contracts);
    return Ok(Front(rev, customers, top25, contractRows, contracts, grouped));
  }

  /**
   * Steps 8 to 10 on the loaded customers. The failures, in the order the
   * script meets them: no "Start Dato", no subscription column, no fee column.
   */
  method SubscriptionSteps(customers: Frame, rev: string, yearOf: string -> Option<int>) returns (r: Result<Back, Failure>)
    requires Valid(customers) && NAME in customers.data && rev in customers.data && IsRevenueName(rev)
    ensures r == Err(MissingColumn(START_DATO)) <==> START_DATO !in customers.data
    ensures r == Err(MissingColumn(SUB)) <==> START_DATO in customers.data && SUB !in customers.data
    ensures r == Err(MissingColumn(FEE)) <==>
      START_DATO in customers.data && SUB in customers.data && FEE !in customers.data
    ensures r.Ok? <==> START_DATO in customers.data && SUB in customers.data && FEE in customers.data
    ensures r.Ok? ==> SubscriptionPart(customers, rev, r.value, yearOf)
  {
    NamesDiffer();
    AddedNamesAreNotRevenue();
    OtherNamesAreNotRevenue();
    if START_DATO !in customers.data {
      return Err(MissingColumn(START_DATO));
    }
    var dated := ParseStartDates(customers, yearOf);
    if SUB !in dated.data {
      return Err(MissingColumn(SUB));
    }
    var subscribed := CleanSubscription(dated);
    r := TailSteps(dated, subscribed, rev);
  }

  /** Steps 8 (the yearly sums) to 10; a missing fee column is the failure. */
  method TailSteps(dated: Frame, subscribed: Frame, rev: string) returns (r: Result<Back, Failure>)
    requires Valid(subscribed) && SUB in subscribed.data && START_AAR in subscribed.data
    requires NAME in subscribed.data && rev in subscribed.data && IsRevenueName(rev)
    requires forall i :: 0 <= i < |subscribed.index| ==> subscribed.data[SUB][i].Num?
    ensures r == Err(MissingColumn(FEE)) <==> FEE !in subscribed.data
    ensures r.Ok? <==> FEE in subscribed.data
    ensures r.Ok? ==> r.value.dated == dated && r.value.subscribed == subscribed && TailPart(r.value, rev)
  {
    NamesDiffer();
    var yearly := Growth(subscribed, SUB);
    var typed, types, grouped2 := PaidTypes(subscribed);
    if FEE !in typed.data {
      return Err(MissingColumn(FEE));
    }
    var billed, top10 := BillFrakturer(typed, rev);
    return Ok(Back(dated, subscribed, yearly, typed, types, grouped2, billed, top10));
  }

  /** Step 9: the paid/free column, its pie and each slice's names. */
  method PaidTypes(subscribed: Frame) returns (typed: Frame, types: Pie, grouped2: map<string, string>)
    requires Valid(subscribed) && SUB in subscribed.data && NAME in subscribed.data
    requires forall i :: 0 <= i < |subscribed.index| ==> subscribed.data[SUB][i].Num?
    ensures PaidFrom(subscribed, typed)
    ensures types == Distribution(typed, ABONNEMENTSTYPE, "\n") && grouped2 == Grouped(types)
  {
    typed := AddPaidType(subscribed, SUB, ABONNEMENTSTYPE);
    PaidFromAdded(subscribed, typed);
    types := Distribution(typed, ABONNEMENTSTYPE, "\n");
    grouped2 := Grouped(types);
  }

  /** The paid/free column added beside numeric subscriptions is the paid/free split of `PaidFrom`. */
  lemma PaidFromAdded(subscribed: Frame, typed: Frame)
    requires Valid(subscribed) && SUB in subscribed.data
    requires forall i :: 0 <= i < |subscribed.index| ==> subscribed.data[SUB][i].Num?
    requires Valid(typed) && typed.index == subscribed.index && ABONNEMENTSTYPE in typed.data
    requires forall c :: c in typed.columns <==> c in subscribed.columns || c == ABONNEMENTSTYPE
    requires forall c :: c in subscribed.data && c != ABONNEMENTSTYPE ==> typed.data[c] == subscribed.data[c]
    requires forall i :: 0 <= i < |typed.index| ==>
      (typed.data[ABONNEMENTSTYPE][i] == Str(BETALT) <==> ValueOr0(subscribed.data[SUB][i]) > 0.0)
      && (typed.data[ABONNEMENTSTYPE][i] == Str(GRATIS) <==> ValueOr0(subscribed.data[SUB][i]) <= 0.0)
    requires TextColumn(typed.data[ABONNEMENTSTYPE])
    ensures PaidFrom(subscribed, typed)
  {
    forall i | 0 <= i < |typed.index| ensures ValueOr0(subscribed.data[SUB][i]) == subscribed.data[SUB][i].x {
      assert subscribed.data[SUB][i].Num?;
    }
  }

  /**
   * The whole script up to its plots. It stops at the first column it cannot
   * find, in the order it reads them: a revenue column, "Name", "Kontrakttype",
   * "Start Dato", the subscription column, the fee column.
   */
  method Script(sheet: Sheet, yearOf: string -> Option<int>) returns (r: Result<Report, Failure>)
    requires WellFormed(sheet)
    ensures var raw := Kept(sheet);
      var choice := ChooseRevenueColumn(raw.columns);
      && (r == Err(NoRevenueColumn) <==> choice.None?)
      && (r == Err(MissingColumn(NAME)) <==> choice.Some? && NAME !in raw.columns)
      && (r == Err(MissingColumn(KONTRAKT)) <==> choice.Some? && NAME in raw.columns && KONTRAKT !in raw.columns)
      && (r == Err(MissingColumn(START_DATO)) <==>
          choice.Some? && NAME in raw.columns && KONTRAKT in raw.columns && START_DATO !in raw.columns)
      && (r == Err(MissingColumn(SUB)) <==>
          choice.Some? && NAME in raw.columns && KONTRAKT in raw.columns && START_DATO in raw.columns
          && SUB !in raw.columns)
      && (r == Err(MissingColumn(FEE)) <==>
          choice.Some? && NAME in raw.columns && KONTRAKT in raw.columns && START_DATO in raw.columns
          && SUB in raw.columns && FEE !in raw.columns)
      && (r.Ok? <==>
          choice.Some? && NAME in raw.columns && KONTRAKT in raw.columns && START_DATO in raw.columns
          && SUB in raw.columns && FEE in raw.columns)
      && (r.Ok? ==>
          CustomerPart(raw, r.value.front)
          && SubscriptionPart(r.value.front.customers, r.value.front.rev, r.value.back, yearOf))
  {
    NamesDiffer();
    var front := CustomerSteps(sheet);
    if front.Err? {
      return Err(front.error);
    }
    var f := front.value;
    var back := SubscriptionSteps(f.customers, f.rev, yearOf);
    if back.Err? {
      return Err(back.error);
    }
    return Ok(Report(f, back.value));
  }

  /** The contract types of the loaded customers are the sheet's text cells. */
  lemma ContractsAreText(raw: Frame, rev: string, df: Frame)
    requires Valid(raw) && CustomersLoaded(raw, rev, df) && KONTRAKT in raw.data && KONTRAKT != rev
    requires forall c :: c in raw.data ==> TextColumn(raw.data[c])
    ensures TextColumn(df.data[KONTRAKT])
  {
    forall i | 0 <= i < |df.data[KONTRAKT]| ensures df.data[KONTRAKT][i].Missing? || df.data[KONTRAKT][i].Str? {
      assert CustomerRow(raw, rev, df, i);
    }
  }

  lemma DropNaText(f: Frame, subset: seq<string>, c: string)
    requires Valid(f) && (forall x :: x in subset ==> x in f.data) && c in f.data && TextColumn(f.data[c])
    ensures TextColumn(DropNa(f, subset).data[c])
  {
  }

  /** The names shown for a slice: the first ten, then "…" when there are more. */
  function Preview(names: seq<string>): (r: seq<string>)
    ensures |r| == if |names| > 10 then 11 else |names|
    ensures r[..Ranking.Min(10, |names|)] == names[..Ranking.Min(10, |names|)]
    ensures |names| > 10 ==> r[10] == ELLIPSIS
  {
    names[..Ranking.Min(10, |names|)] + (if |names| > 10 then [ELLIPSIS] else [])
  }

  /**
   * The preview text of a click handler: the first ten names, one per line,
   * and a last line "…" when there are more. Read back line by line, it is
   * `Preview(names)`.
   */
  method ShowNames(names: seq<string>) returns (preview: string)
    requires |names| >= 1 && forall i :: 0 <= i < |names| ==> '\n' !in names[i]
    ensures Text.Split(preview, '\n') == Preview(names)
  {
    var first := names[..Ranking.Min(10, |names|)];
    preview := Text.Join(first, "\n");
    if |names| > 10 {
      Text.JoinAppend(first, ELLIPSIS, "\n");
      preview := preview + "\n" + ELLIPSIS;
      assert Preview(names) == first + [ELLIPSIS];
    } else {
      assert Preview(names) == first;
    }
    assert "\n" == ['\n'];
    Text.SplitJoin(Preview(names), '\n');
  }

  function Get(m: map<string, string>, k: string): string
  {
    if k in m then m[k] else ""
  }

  /**
   * `on_pick`: slice i's names are its joined text split at line breaks; the
   * header counts those pieces, and the preview follows it.
   */
  method OnPick(dist: seq<Count<string>>, grouped: map<string, string>, i: nat) returns (txt: string)
    requires i < |dist|
    ensures var kt := dist[i].key;
      var names := Text.Split(Get(grouped, kt), '\n');
      var head := kt + " (" + Text.ShowNat(|names|) + " kunder):\n";
      && |head| <= |txt| && txt[..|head|] == head
      && Text.Split(txt[|head|..], '\n') == Preview(names)
  {
    var kt := dist[i].key;
    var names := Text.Split(Get(grouped, kt), '\n');
    Text.SplitPieces(Get(grouped, kt), '\n');
    var preview := ShowNames(names);
    var head := kt + " (" + Text.ShowNat(|names|) + " kunder):\n";
    txt := head + preview;
    assert txt[|head|..] == preview;
  }

  /**
   * `on_pick2`: as `on_pick`, but the header shows the slice's count and a
   * blank line, and the slice's key must be among the grouped names.
   */
  method OnPick2(dist2: seq<Count<string>>, grouped2: map<string, string>, i: nat) returns (txt: string)
    requires i < |dist2| && dist2[i].key in grouped2
    ensures var kategori := dist2[i].key;
      var names := Text.Split(grouped2[kategori], '\n');
      var head := kategori + " (" + Text.ShowNat(dist2[i].n) + " kunder):\n\n";
      && |head| <= |txt| && txt[..|head|] == head
      && Text.Split(txt[|head|..], '\n') == Preview(names)
  {
    var kategori := dist2[i].key;
    var names := Text.Split(grouped2[kategori], '\n');
    Text.SplitPieces(grouped2[kategori], '\n');
    var preview := ShowNames(names);
    var head := kategori + " (" + Text.ShowNat(dist2[i].n) + " kunder):\n\n";
    txt := head + preview;
    assert txt[|head|..] == preview;
  }

  /** No customer name holds a line break. */
  ghost predicate NoLineBreaks(names: seq<Cell>)
  {
    forall i :: 0 <= i < |names| && names[i].Str? ==> '\n' !in names[i].s
  }

  lemma {:induction false} TextNamesFrom(keys: seq<Cell>, names: seq<Cell>)
    requires |keys| == |names| && NoLineBreaks(names)
    ensures forall j :: 0 <= j < |TextNames(keys, names)| ==> '\n' !in TextNames(keys, names)[j]
  {
    if |keys| > 0 {
      TextNamesFrom(keys[..|keys| - 1], names[..|names| - 1]);
    }
  }

  /**
   * When no name holds a line break, splitting a slice's joined names gives
   * back exactly its customers: the count `on_pick` shows is the slice's
   * count, and the two handlers' headers agree.
   */
  lemma ShownCountIsSliceCount(df: Frame, col: string, i: nat)
    requires Valid(df) && col in df.data && NAME in df.data && TextColumn(df.data[col])
    requires NoLineBreaks(df.data[NAME])
    requires i < |Distribution(df, col, "\n").counts|
    ensures var pie := Distribution(df, col, "\n");
      |Text.Split(Grouped(pie)[pie.counts[i].key], '\n')| == pie.counts[i].n
  {
    var pie := Distribution(df, col, "\n");
    var ks := TextKeys(df.data[col]);
    var ns := TextNames(df.data[col], df.data[NAME]);
    var names := NamesFor(ks, ns, pie.counts[i].key);
    TextNamesFrom(df.data[col], df.data[NAME]);
    NamesForAre(ks, ns, pie.counts[i].key);
    assert forall j :: 0 <= j < |names| ==> '\n' !in names[j] by {
      forall j | 0 <= j < |names| ensures '\n' !in names[j] {
        assert names[j] in names;
      }
    }
    Text.SplitJoin(names, '\n');
  }
}
