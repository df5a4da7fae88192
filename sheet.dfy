/** The monthly sheet page: the selected year and month and the controls
    that move them, the day selector, the default day of a new row, the
    totals line, and how a row form becomes the request body of a create
    or an update (the date string and the amounts). */
module Sheet {
  import opened Common
  import opened Text
  import opened Calendar
  import opened Ledger

  // ---------------------------------------------------------------------
  // Calendar helpers

  /** The options of the day selector: 1, 2, ..., n. */
  function DayOptions(n: nat): (r: seq<int>)
    ensures |r| == n
  {
    seq(n, i => i + 1)
  }

  /** The selector offers exactly the days of the selected month, and the
      month has its Gregorian length. */
  lemma DayOptionsExact(y: int, m: Month, d: int)
    ensures d in DayOptions(DaysInMonth(y, m)) <==> 1 <= d <= DaysInMonth(y, m)
    ensures 28 <= DaysInMonth(y, m) <= 31
  {
    var opts := DayOptions(DaysInMonth(y, m));
    if 1 <= d <= DaysInMonth(y, m) {
      assert opts[d - 1] == d;
    }
  }

  /** The day a new row starts on: today's day when the sheet shows the
      current month, otherwise the 1st. */
  function DefaultDay(today: Date, y: int, m: Month): (d: Day)
    ensures today.year == y && today.month == m ==> d == today.day
    ensures !(today.year == y && today.month == m) ==> d == 1
  {
    if today.year == y && today.month == m then today.day else 1
  }

  /** A date the clock can give: a real calendar date after year 99 (the
      years a two-digit `Date` constructor argument would misread). */
  predicate ClockDate(d: Date) {
    ValidDate(d) && d.year >= 100
  }

  /** The default day is always one the day selector offers. */
  lemma DefaultDayOffered(today: Date, y: int, m: Month)
    requires ClockDate(today)
    ensures DefaultDay(today, y, m) in DayOptions(DaysInMonth(y, m))
  {
    DayOptionsExact(y, m, DefaultDay(today, y, m));
    DaysInMonthCases(y, m);
  }

  // ---------------------------------------------------------------------
  // Totals

  /** The totals line: an accumulator of the four field sums filled record
      by record, then the offerings and the balance derived from it. */
  method SheetTotals(ts: seq<Transaction>) returns (r: Totals)
    ensures IsSummaryOf(r, ts)
  {
    var acc := Totals(0, 0, 0, 0, 0, 0);
    for i := 0 to |ts|
      invariant acc.general == Total(ts[..i], General) && acc.special == Total(ts[..i], Special)
      invariant acc.tithe == Total(ts[..i], Tithe) && acc.expenses == Total(ts[..i], Expenses)
    {
      PrefixStep(ts, i);
      var tx := ts[i];
      acc := acc.(general := acc.general + Value(tx.generalOffering));
      acc := acc.(special := acc.special + Value(tx.specialOffering));
      acc := acc.(tithe := acc.tithe + Value(tx.tithe));
      acc := acc.(expenses := acc.expenses + Value(tx.expenses));
    }
    assert ts[..|ts|] == ts;
    var offerings := acc.general + acc.special + acc.tithe;
    r := acc.(offerings := offerings, balance := offerings - acc.expenses);
  }

  // ---------------------------------------------------------------------
  // Row forms and what they send

  /** The value of an amount input: what the user typed, or the number an
      edit form was filled with. */
  datatype FormValue = Typed(s: string) | Number(n: int)

  /** `tx.<amount> || ''`: an edit form shows a non-zero amount and leaves a
      zero or missing one blank. */
  function EditAmount(a: Amount): (v: FormValue)
    ensures Value(a) != 0 ==> v == Number(Value(a))
    ensures Value(a) == 0 ==> v == Typed("")
  {
    if Value(a) != 0 then Number(Value(a)) else Typed("")
  }

  /** `v || 0` appended to a form: a blank input is sent as "0", anything
      else as its text. */
  function Submitted(v: FormValue): (s: string)
    ensures v == Typed("") ==> s == "0"
    ensures v.Typed? && v.s != "" ==> s == v.s
  {
    match v
    case Typed(t) => if t == "" then "0" else t
    case Number(n) => IntToString(n)
  }

  /** Editing a record and saving it without changes sends every amount
      back as the same number (a missing amount as 0). */
  lemma EditSaveRoundTrip(a: Amount)
    ensures NumberOrZero(Some(Submitted(EditAmount(a)))) == Value(a)
  {
    if Value(a) == 0 {
      assert Submitted(EditAmount(a)) == "0" == IntToString(0);
    }
    ParseIntToString(Value(a));
  }

  /** The fields of a new or edited row. */
  datatype RowForm = RowForm(
    day: Day,
    general: FormValue,
    special: FormValue,
    specialNames: string,
    tithe: FormValue,
    titheNames: string,
    expenses: FormValue,
    details: string,
    remarks: string)

  /** A blank new row on the default day, which for a clock date is always
      one the day selector offers. */
  function EmptyRow(today: Date, y: int, m: Month): (r: RowForm)
    ensures r.day == DefaultDay(today, y, m)
    ensures ClockDate(today) ==> r.day in DayOptions(DaysInMonth(y, m))
    ensures r.general == r.special == r.tithe == r.expenses == Typed("")
    ensures r.specialNames == r.titheNames == r.details == r.remarks == ""
  {
    var day := DefaultDay(today, y, m);
    assert ClockDate(today) ==> day in DayOptions(DaysInMonth(y, m)) by {
      if ClockDate(today) {
        DefaultDayOffered(today, y, m);
      }
    }
    RowForm(day, Typed(""), Typed(""), "", Typed(""), "", Typed(""), "", "")
  }

  /** The edit form of a record: its day of month, non-zero amounts, and its
      texts. */
  function EditForm(t: Transaction): (r: RowForm)
    ensures r.day == t.date.day
    ensures r.general == EditAmount(t.generalOffering) && r.special == EditAmount(t.specialOffering)
    ensures r.tithe == EditAmount(t.tithe) && r.expenses == EditAmount(t.expenses)
    ensures r.specialNames == t.specialOfferingNames && r.titheNames == t.titheNames
    ensures r.details == t.expenseDetails && r.remarks == t.remarks
  {
    RowForm(t.date.day, EditAmount(t.generalOffering), EditAmount(t.specialOffering), t.specialOfferingNames,
            EditAmount(t.tithe), t.titheNames, EditAmount(t.expenses), t.expenseDetails, t.remarks)
  }

  /** Each amount input of a record's edit form, submitted unchanged, is read
      back as the record's value of that amount. */
  lemma EditFormSavesAmounts(t: Transaction)
    ensures NumberOrZero(Some(Submitted(EditForm(t).general))) == Value(t.generalOffering)
    ensures NumberOrZero(Some(Submitted(EditForm(t).special))) == Value(t.specialOffering)
    ensures NumberOrZero(Some(Submitted(EditForm(t).tithe))) == Value(t.tithe)
    ensures NumberOrZero(Some(Submitted(EditForm(t).expenses))) == Value(t.expenses)
  {
    EditSaveRoundTrip(t.generalOffering);
    EditSaveRoundTrip(t.specialOffering);
    EditSaveRoundTrip(t.tithe);
    EditSaveRoundTrip(t.expenses);
  }

  /** The request body a row is saved with: the date of the selected year
      and month on the row's day, the amounts with blanks as "0", and the
      texts as they are. Every field is sent. */
  function RowBody(y: int, m: Month, row: RowForm): (b: Body)
    ensures b.date == Some(DateString(y, m, row.day))
    ensures 1000 <= y <= 9999 ==> ParseIsoDate(b.date.value) == Some(MakeDate(y, m, row.day))
    ensures 1000 <= y <= 9999 && row.day <= MonthLength(y, m) ==> ParseIsoDate(b.date.value) == Some(Date(y, m, row.day))
    ensures b.generalOffering == Some(Submitted(row.general)) && b.specialOffering == Some(Submitted(row.special))
    ensures b.tithe == Some(Submitted(row.tithe)) && b.expenses == Some(Submitted(row.expenses))
    ensures b.specialOfferingNames == Some(row.specialNames) && b.titheNames == Some(row.titheNames)
    ensures b.expenseDetails == Some(row.details) && b.remarks == Some(row.remarks)
  {
    assert 1000 <= y <= 9999 ==> ParseIsoDate(DateString(y, m, row.day)) == Some(MakeDate(y, m, row.day)) by {
      if 1000 <= y <= 9999 {
        DateStringRead(y, m, row.day);
      }
    }
    Body(Some(DateString(y, m, row.day)), Some(Submitted(row.general)), Some(Submitted(row.special)),
         Some(row.specialNames), Some(Submitted(row.tithe)), Some(row.titheNames),
         Some(Submitted(row.expenses)), Some(row.details), Some(row.remarks))
  }

  /** The date string of a saved row is an ISO 8601 calendar date of the
      selected month (for four-digit years), and the server reads it back as
      exactly that date when the day exists in the month. */
  lemma RowDateRoundTrip(y: int, m: Month, d: Day)
    requires 1000 <= y <= 9999 && d <= MonthLength(y, m)
    ensures ParseIsoDate(DateString(y, m, d)) == Some(Date(y, m, d))
  {
    DateStringRoundTrip(Date(y, m, d));
  }

  // ---------------------------------------------------------------------
  // Page state

  /** The sheet's selection and row-editing state. `newRow` is the add-row
      form; `editing` the id and form of the row being edited. */
  class SheetPage {
    var selectedYear: int
    var selectedMonth: Month
    var isAddingRow: bool
    var newRow: RowForm
    var editingId: Option<Id>
    var editRow: Option<RowForm>

    /** Every day the page may save is one of the selected month. */
    predicate Valid()
      reads this
    {
      1 <= newRow.day <= DaysInMonth(selectedYear, selectedMonth)
    }

    /** The page opens on the current month with a blank new row. */
    constructor (today: Date)
      requires ClockDate(today)
      ensures selectedYear == today.year && selectedMonth == today.month
      ensures !isAddingRow && editingId == None && editRow == None
      ensures newRow == EmptyRow(today, today.year, today.month)
      ensures Valid()
    {
      selectedYear := today.year;
      selectedMonth := today.month;
      isAddingRow := false;
      newRow := EmptyRow(today, today.year, today.month);
      editingId := None;
      editRow := None;
      new;
      DefaultDayOffered(today, today.year, today.month);
      DayOptionsExact(today.year, today.month, newRow.day);
    }

    /** What runs after the selected year or month has changed (and only
      then): the open add row and the open edit are closed, and the new row
      moves to the default day of the new month, so that it is again a day
      the month has. */
    method SelectionChanged(today: Date)
      requires ClockDate(today)
      modifies this
      ensures selectedYear == old(selectedYear) && selectedMonth == old(selectedMonth)
      ensures !isAddingRow && editingId == None && editRow == old(editRow)
      ensures newRow == old(newRow).(day := DefaultDay(today, selectedYear, selectedMonth))
      ensures Valid()
    {
      isAddingRow := false;
      editingId := None;
      newRow := newRow.(day := DefaultDay(today, selectedYear, selectedMonth));
      DefaultDayOffered(today, selectedYear, selectedMonth);
      DayOptionsExact(selectedYear, selectedMonth, newRow.day);
    }

    /** The same step as the page writes it: the rows are closed but the
      new row keeps the day it was given for the month shown before. */
    method SelectionChangedAsWritten()
      modifies this
      ensures selectedYear == old(selectedYear) && selectedMonth == old(selectedMonth)
      ensures !isAddingRow && editingId == None && editRow == old(editRow)
      ensures newRow == old(newRow)
    {
      isAddingRow := false;
      editingId := None;
    }

    /** The month arrows; the year follows across December and January. */
    method PrevMonth()
      modifies this
      ensures (selectedYear, selectedMonth) == Calendar.PrevMonth(old(selectedYear), old(selectedMonth))
      ensures isAddingRow == old(isAddingRow) && newRow == old(newRow)
      ensures editingId == old(editingId) && editRow == old(editRow)
    {
      if selectedMonth == 1 {
        selectedMonth := 12;
        selectedYear := selectedYear - 1;
      } else {
        selectedMonth := selectedMonth - 1;
      }
    }

    method NextMonth()
      modifies this
      ensures (selectedYear, selectedMonth) == Calendar.NextMonth(old(selectedYear), old(selectedMonth))
      ensures isAddingRow == old(isAddingRow) && newRow == old(newRow)
      ensures editingId == old(editingId) && editRow == old(editRow)
    {
      if selectedMonth == 12 {
        selectedMonth := 1;
        selectedYear := selectedYear + 1;
      } else {
        selectedMonth := selectedMonth + 1;
      }
    }

    /** The year arrows keep the month. */
    method PrevYear()
      modifies this
      ensures selectedYear == old(selectedYear) - 1 && selectedMonth == old(selectedMonth)
      ensures isAddingRow == old(isAddingRow) && newRow == old(newRow)
      ensures editingId == old(editingId) && editRow == old(editRow)
    {
      selectedYear := selectedYear - 1;
    }

    method NextYear()
      modifies this
      ensures selectedYear == old(selectedYear) + 1 && selectedMonth == old(selectedMonth)
      ensures isAddingRow == old(isAddingRow) && newRow == old(newRow)
      ensures editingId == old(editingId) && editRow == old(editRow)
    {
      selectedYear := selectedYear + 1;
    }

    /** A month tab. */
    method SelectMonth(m: Month)
      modifies this
      ensures selectedYear == old(selectedYear) && selectedMonth == m
      ensures isAddingRow == old(isAddingRow) && newRow == old(newRow)
      ensures editingId == old(editingId) && editRow == old(editRow)
    {
      selectedMonth := m;
    }

    /** "Add Row": opens the new row and closes any edit. */
    method OpenAddRow()
      modifies this
      ensures isAddingRow && editingId == None
      ensures selectedYear == old(selectedYear) && selectedMonth == old(selectedMonth)
      ensures newRow == old(newRow) && editRow == old(editRow)
    {
      isAddingRow := true;
      editingId := None;
    }

    /** The day selector of the new row. */
    method ChooseDay(d: Day)
      requires d in DayOptions(DaysInMonth(selectedYear, selectedMonth))
      modifies this
      ensures newRow == old(newRow).(day := d) && Valid()
      ensures selectedYear == old(selectedYear) && selectedMonth == old(selectedMonth)
      ensures isAddingRow == old(isAddingRow) && editingId == old(editingId) && editRow == old(editRow)
    {
      DayOptionsExact(selectedYear, selectedMonth, d);
      newRow := newRow.(day := d);
    }

    /** The body "Save" on the new row sends. */
    function NewRowBody(): Body
      reads this
    {
      RowBody(selectedYear, selectedMonth, newRow)
    }

    /** The outcome of saving the new row: on success the row closes and is
      reset to a blank one; on failure it stays as it is and the returned
      alert shows the server's message, or "Error". */
    method FinishSaveRow(today: Date, success: bool, msg: string) returns (alert: Option<string>)
      requires ClockDate(today)
      modifies this
      ensures success ==> alert == None && !isAddingRow
      ensures success ==> newRow == EmptyRow(today, selectedYear, selectedMonth) && Valid()
      ensures !success ==> alert == Some(if msg != "" then msg else "Error")
      ensures !success ==> isAddingRow == old(isAddingRow) && newRow == old(newRow)
      ensures selectedYear == old(selectedYear) && selectedMonth == old(selectedMonth)
      ensures editingId == old(editingId) && editRow == old(editRow)
    {
      if success {
        isAddingRow := false;
        newRow := EmptyRow(today, selectedYear, selectedMonth);
        DefaultDayOffered(today, selectedYear, selectedMonth);
        DayOptionsExact(selectedYear, selectedMonth, newRow.day);
        alert := None;
      } else {
        alert := Some(if msg != "" then msg else "Error");
      }
    }

    /** "Cancel" on the new row: it closes and is reset to a blank one. */
    method CancelRow(today: Date)
      requires ClockDate(today)
      modifies this
      ensures !isAddingRow && newRow == EmptyRow(today, selectedYear, selectedMonth) && Valid()
      ensures selectedYear == old(selectedYear) && selectedMonth == old(selectedMonth)
      ensures editingId == old(editingId) && editRow == old(editRow)
    {
      isAddingRow := false;
      newRow := EmptyRow(today, selectedYear, selectedMonth);
      DefaultDayOffered(today, selectedYear, selectedMonth);
      DayOptionsExact(selectedYear, selectedMonth, newRow.day);
    }

    /** The pencil on a row: that record's edit form is opened. */
    method StartEdit(t: Transaction)
      modifies this
      ensures editingId == Some(t.id) && editRow == Some(EditForm(t))
      ensures selectedYear == old(selectedYear) && selectedMonth == old(selectedMonth)
      ensures isAddingRow == old(isAddingRow) && newRow == old(newRow)
    {
      editingId := Some(t.id);
      editRow := Some(EditForm(t));
    }

    /** The body "Save" on an edited row sends. */
    function EditBody(): Option<Body>
      reads this
    {
      if editRow.Some? then Some(RowBody(selectedYear, selectedMonth, editRow.value)) else None
    }

    /** The outcome of saving an edit: on success the edit closes; on failure
      it stays open and the alert shows the server's message, or
      "Error updating". */
    method FinishSaveEdit(success: bool, msg: string) returns (alert: Option<string>)
      modifies this
      ensures success ==> alert == None && editingId == None && editRow == None
      ensures !success ==> alert == Some(if msg != "" then msg else "Error updating")
      ensures !success ==> editingId == old(editingId) && editRow == old(editRow)
      ensures selectedYear == old(selectedYear) && selectedMonth == old(selectedMonth)
      ensures isAddingRow == old(isAddingRow) && newRow == old(newRow)
    {
      if success {
        editingId := None;
        editRow := None;
        alert := None;
      } else {
        alert := Some(if msg != "" then msg else "Error updating");
      }
    }

    /** "Cancel" on an edited row. */
    method CancelEdit()
      modifies this
      ensures editingId == None && editRow == None
      ensures selectedYear == old(selectedYear) && selectedMonth == old(selectedMonth)
      ensures isAddingRow == old(isAddingRow) && newRow == old(newRow)
    {
      editingId := None;
      editRow := None;
    }
  }

  /** Opened on the 31st of January and moved to February as the page is
      written, the new row still carries day 31, which February does not
      have; saving it sends the string of 31 February 2024, which the
      server stores as 2 March. */
  method StaleDayExample() returns (day: int, offered: seq<int>, sent: Option<string>, stored: Option<Date>)
    ensures day == 31 && day !in offered
    ensures sent == Some(DateString(2024, 2, 31))
    ensures stored == Some(Date(2024, 3, 2))
  {
    var today := Date(2024, 1, 31);
    var page := new SheetPage(today);
    page.NextMonth();
    page.SelectionChangedAsWritten();
    day := page.newRow.day;
    offered := DayOptions(DaysInMonth(2024, 2));
    assert DaysInMonth(2024, 2) == 29;
    DayOptionsExact(2024, 2, 31);
    DateStringRead(2024, 2, 31);
    assert MakeDate(2024, 2, 31) == Date(2024, 3, 2) by {
      assert MonthLength(2024, 2) == 29;
    }
    sent := page.NewRowBody().date;
    stored := ParseIsoDate(sent.value);
  }
}
