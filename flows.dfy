/** How the client pages and the server routes fit together: the query a
    page fetches its period with selects exactly that period's records, a
    row saved on the sheet is listed in the sheet's month, and an edit saved
    without changes leaves the record as it was. */
module Flows {
  import opened Common
  import opened Text
  import opened Calendar
  import opened Ledger
  import opened Dashboard
  import opened Sheet
  import opened Store

  /** The query of a page's fetch: year and month in month view (the sheet
      always fetches this way), the year alone in year view; each number is
      sent as its decimal text. */
  function FetchQuery(p: Period): (q: Query)
    ensures q.startDate.None? && q.endDate.None? && q.year == Some(IntToString(p.year))
    ensures q.month.Some? <==> p.mode == MonthView
  {
    if p.mode == MonthView then Query(None, None, Some(IntToString(p.year)), Some(IntToString(p.month)))
    else Query(None, None, Some(IntToString(p.year)), None)
  }

  /** A date in the period a page shows. */
  predicate InPeriod(p: Period, d: Date) {
    d.year == p.year && (p.mode == YearView || d.month == p.month)
  }

  /** The period fits the dates a JavaScript `Date` holds from the first
      to the last moment: months from May of year -271821 to August of year
      275760, years from -271820 to 275759. */
  predicate InJsRange(p: Period) {
    if p.mode == MonthView then MonthOrdinal(-271821, 5) <= MonthOrdinal(p.year, p.month) <= MonthOrdinal(275760, 8)
    else -271820 <= p.year <= 275759
  }

  /** For any year the `Date` constructor does not read as 19xx, the fetch
      of a period a `Date` can hold selects exactly the records of that
      period; for any other period the server answers with an error. */
  lemma FetchSelectsPeriod(p: Period, d: Date)
    requires ValidDate(d) && !(0 <= p.year <= 99)
    ensures QueryFilter(FetchQuery(p)).Window? <==> InJsRange(p)
    ensures QueryFilter(FetchQuery(p)).Window? ==> (Matches(QueryFilter(FetchQuery(p)), d) <==> InPeriod(p, d))
  {
    if p.mode == MonthView {
      MonthFetchFilter(p);
      MonthWindowSelects(p, d);
    } else {
      YearFetchFilter(p);
      YearWindowSelects(p, d);
    }
  }

  /** The window of the shown month exists exactly in the `Date` range, and
      then holds exactly that month's days. */
  lemma MonthWindowSelects(p: Period, d: Date)
    requires ValidDate(d) && !(0 <= p.year <= 99) && p.mode == MonthView
    ensures MonthWindow(p.year, p.month - 1).Window? <==> InJsRange(p)
    ensures MonthWindow(p.year, p.month - 1).Window? ==> (Matches(MonthWindow(p.year, p.month - 1), d) <==> InPeriod(p, d))
  {
    assert JsYear(p.year) == p.year;
    assert NormalizeMonth(p.year, p.month - 1) == (p.year, p.month);
    if MonthWindow(p.year, p.month - 1).Window? {
      MonthWindowExact(p.year, p.month - 1, d);
    }
  }

  /** The window of the shown year exists exactly in the `Date` range, and
      then holds exactly that year's days. */
  lemma YearWindowSelects(p: Period, d: Date)
    requires ValidDate(d) && !(0 <= p.year <= 99) && p.mode == YearView
    ensures YearWindow(p.year).Window? <==> InJsRange(p)
    ensures YearWindow(p.year).Window? ==> (Matches(YearWindow(p.year), d) <==> InPeriod(p, d))
  {
    if YearWindow(p.year).Window? {
      YearWindowExact(p.year, d);
    }
  }

  /** In month view the server reads back the year and the month it was sent. */
  lemma MonthFetchFilter(p: Period)
    requires p.mode == MonthView
    ensures QueryFilter(FetchQuery(p)) == MonthWindow(p.year, p.month - 1)
  {
    ParseIntNumeral(p.year);
    ParseIntNumeral(p.month);
    YearMonthWindow(FetchQuery(p), p.year, p.month);
  }

  /** In year view the server reads back the year it was sent. */
  lemma YearFetchFilter(p: Period)
    requires p.mode == YearView
    ensures QueryFilter(FetchQuery(p)) == YearWindow(p.year)
  {
    ParseIntNumeral(p.year);
    YearOnlyWindow(FetchQuery(p), p.year);
  }

  /** A row saved on the sheet becomes a record on the chosen day of the
      selected month, and the sheet's own fetch lists it. */
  lemma SavedRowListed(y: int, m: Month, row: RowForm, today: Date)
    requires 1000 <= y <= 9999 && row.day <= DaysInMonth(y, m)
    ensures PostDate(RowBody(y, m, row), today) == Some(Date(y, m, row.day))
    ensures QueryFilter(FetchQuery(Period(MonthView, y, m))).Window?
    ensures Matches(QueryFilter(FetchQuery(Period(MonthView, y, m))), Date(y, m, row.day))
  {
    var d := Date(y, m, row.day);
    assert ValidDate(d);
    RowDateRoundTrip(y, m, row.day);
    var s := DateString(y, m, row.day);
    assert ParseIsoDate(s).Some?;
    assert s != [];
    assert RowBody(y, m, row).date == Some(s);
    FetchSelectsPeriod(Period(MonthView, y, m), d);
  }

  /** A record with every missing amount written as 0. */
  function Normalized(t: Transaction): (r: Transaction)
    ensures forall f :: FieldValue(r, f) == FieldValue(t, f)
    ensures r.generalOffering.Num? && r.specialOffering.Num? && r.tithe.Num? && r.expenses.Num?
  {
    t.(generalOffering := Num(Value(t.generalOffering)), specialOffering := Num(Value(t.specialOffering)),
       tithe := Num(Value(t.tithe)), expenses := Num(Value(t.expenses)))
  }

  /** Opening a record's edit form on the sheet of its month and saving it
      unchanged keeps its date, its texts and its proof, and every amount's
      value (a missing amount is now stored as 0). */
  lemma EditSaveKeepsRecord(t: Transaction)
    requires ValidDate(t.date) && 1000 <= t.date.year <= 9999
    ensures PutDate(t, RowBody(t.date.year, t.date.month, EditForm(t))) == Some(t.date)
    ensures Patched(t, RowBody(t.date.year, t.date.month, EditForm(t)), t.date, t.proofUrl) == Normalized(t)
  {
    RowDateRoundTrip(t.date.year, t.date.month, t.date.day);
    EditSaveRoundTrip(t.generalOffering);
    EditSaveRoundTrip(t.specialOffering);
    EditSaveRoundTrip(t.tithe);
    EditSaveRoundTrip(t.expenses);
  }
}
