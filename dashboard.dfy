/** The dashboard page: the period it shows and how the arrows move it, the
    totals of the fetched records, the month-by-month breakdown of a year,
    the period label and the export file name, and what the exported report
    holds (one table row per record, a total row, and one appendix page per
    record with a proof). */
module Dashboard {
  import opened Common
  import opened Text
  import opened Calendar
  import opened Ledger

  // ---------------------------------------------------------------------
  // Period selection

  datatype ViewMode = MonthView | YearView

  /** What the dashboard is scoped to: a month of a year, or a whole year
      (the selected month is kept, unused, while the year is shown). */
  datatype Period = Period(mode: ViewMode, year: int, month: Month)

  /** The left arrow. */
  function Back(p: Period): (r: Period)
    ensures r.mode == p.mode
    ensures p.mode == MonthView ==> MonthOrdinal(r.year, r.month) == MonthOrdinal(p.year, p.month) - 1
    ensures p.mode == YearView ==> r.year == p.year - 1 && r.month == p.month
  {
    if p.mode == MonthView then
      var (y, m) := PrevMonth(p.year, p.month);
      p.(year := y, month := m)
    else
      p.(year := p.year - 1)
  }

  /** The right arrow. */
  function Forward(p: Period): (r: Period)
    ensures r.mode == p.mode
    ensures p.mode == MonthView ==> MonthOrdinal(r.year, r.month) == MonthOrdinal(p.year, p.month) + 1
    ensures p.mode == YearView ==> r.year == p.year + 1 && r.month == p.month
  {
    if p.mode == MonthView then
      var (y, m) := NextMonth(p.year, p.month);
      p.(year := y, month := m)
    else
      p.(year := p.year + 1)
  }

  /** The two arrows undo each other in either mode. */
  lemma BackForwardInverse(p: Period)
    ensures Back(Forward(p)) == p
    ensures Forward(Back(p)) == p
  {
    if p.mode == MonthView {
      var f := Forward(p);
      var b := Back(p);
      MonthOrdinalInjective(Back(f).year, Back(f).month, p.year, p.month);
      MonthOrdinalInjective(Forward(b).year, Forward(b).month, p.year, p.month);
    }
  }

  /** The period state of the page and its three controls. */
  class DashboardView {
    var viewMode: ViewMode
    var selectedYear: int
    var selectedMonth: Month

    function Selected(): Period
      reads this
    {
      Period(viewMode, selectedYear, selectedMonth)
    }

    /** The page opens on the current month. */
    constructor (today: Date)
      ensures Selected() == Period(MonthView, today.year, today.month)
    {
      viewMode := MonthView;
      selectedYear := today.year;
      selectedMonth := today.month;
    }

    /** The Monthly / Yearly toggle: only the mode changes. */
    method SetViewMode(mode: ViewMode)
      modifies this
      ensures Selected() == Period(mode, old(selectedYear), old(selectedMonth))
    {
      viewMode := mode;
    }

    method Previous()
      modifies this
      ensures Selected() == Back(old(Selected()))
    {
      if viewMode == MonthView {
        if selectedMonth == 1 {
          selectedMonth := 12;
          selectedYear := selectedYear - 1;
        } else {
          selectedMonth := selectedMonth - 1;
        }
      } else {
        selectedYear := selectedYear - 1;
      }
    }

    method Next()
      modifies this
      ensures Selected() == Forward(old(Selected()))
    {
      if viewMode == MonthView {
        if selectedMonth == 12 {
          selectedMonth := 1;
          selectedYear := selectedYear + 1;
        } else {
          selectedMonth := selectedMonth + 1;
        }
      } else {
        selectedYear := selectedYear + 1;
      }
    }
  }

  // ---------------------------------------------------------------------
  // Totals

  /** The totals of a list of records: each field summed with missing amounts
      as zero, offerings the sum of the three incoming fields, balance the
      offerings less the expenses. */
  method ComputeTotals(ts: seq<Transaction>) returns (r: Totals)
    ensures IsSummaryOf(r, ts)
  {
    var gen, spec, tith, exp := 0, 0, 0, 0;
    for i := 0 to |ts|
      invariant gen == Total(ts[..i], General) && spec == Total(ts[..i], Special)
      invariant tith == Total(ts[..i], Tithe) && exp == Total(ts[..i], Expenses)
    {
      PrefixStep(ts, i);
      var t := ts[i];
      gen := gen + Value(t.generalOffering);
      spec := spec + Value(t.specialOffering);
      tith := tith + Value(t.tithe);
      exp := exp + Value(t.expenses);
    }
    assert ts[..|ts|] == ts;
    var offerings := gen + spec + tith;
    r := Totals(gen, spec, tith, offerings, exp, offerings - exp);
  }

  // ---------------------------------------------------------------------
  // Monthly breakdown of a year

  /** One bar pair of the year chart. */
  datatype Bucket = Bucket(offerings: int, expenses: int)

  /** One field summed over the records dated in month index `mi` (0 for
      January). */
  function MonthTotal(ts: seq<Transaction>, f: Field, mi: int): int {
    if ts == [] then 0
    else
      var t := ts[|ts| - 1];
      MonthTotal(ts[..|ts| - 1], f, mi) + (if t.date.month - 1 == mi then FieldValue(t, f) else 0)
  }

  /** The bar pair of month index `mi`. */
  function MonthBucket(ts: seq<Transaction>, mi: int): Bucket {
    Bucket(MonthTotal(ts, General, mi) + MonthTotal(ts, Special, mi) + MonthTotal(ts, Tithe, mi),
           MonthTotal(ts, Expenses, mi))
  }

  /** The twelve bar pairs of the year chart, January first. */
  function YearBreakdown(ts: seq<Transaction>): (r: seq<Bucket>)
    ensures |r| == 12
  {
    seq(12, mi => MonthBucket(ts, mi))
  }

  /** The year chart's data: none in month view; in year view twelve buckets
      filled in place, each record adding its offerings and its expenses to
      the bucket of its month. */
  method MonthlyBreakdown(mode: ViewMode, ts: seq<Transaction>) returns (r: Option<seq<Bucket>>)
    ensures mode == MonthView ==> r == None
    ensures mode == YearView ==> r == Some(YearBreakdown(ts))
  {
    if mode != YearView {
      return None;
    }
    var monthly := new Bucket[12](_ => Bucket(0, 0));
    for i := 0 to |ts|
      invariant forall mi :: 0 <= mi < 12 ==> monthly[mi] == MonthBucket(ts[..i], mi)
    {
      PrefixStep(ts, i);
      var t := ts[i];
      var m := t.date.month - 1;
      monthly[m] := Bucket(monthly[m].offerings + Offerings(t), monthly[m].expenses + Value(t.expenses));
    }
    assert ts[..|ts|] == ts;
    assert monthly[..] == YearBreakdown(ts);
    return Some(monthly[..]);
  }

  function SumOfferings(bs: seq<Bucket>): int {
    if bs == [] then 0 else SumOfferings(bs[..|bs| - 1]) + bs[|bs| - 1].offerings
  }

  function SumExpenses(bs: seq<Bucket>): int {
    if bs == [] then 0 else SumExpenses(bs[..|bs| - 1]) + bs[|bs| - 1].expenses
  }

  /** One field summed over the first `k` months. */
  function MonthsSum(ts: seq<Transaction>, f: Field, k: nat): int {
    if k == 0 then 0 else MonthsSum(ts, f, k - 1) + MonthTotal(ts, f, k - 1)
  }

  lemma {:induction false} MonthsSumLast(ts: seq<Transaction>, f: Field, k: nat)
    requires ts != []
    ensures MonthsSum(ts, f, k) == MonthsSum(ts[..|ts| - 1], f, k)
      + (if ts[|ts| - 1].date.month - 1 < k then FieldValue(ts[|ts| - 1], f) else 0)
  {
    if k > 0 {
      MonthsSumLast(ts, f, k - 1);
    }
  }

  /** Summed over all twelve months, a field's monthly totals give its total:
      every record falls in exactly one month. */
  lemma {:induction false} MonthsSumTotal(ts: seq<Transaction>, f: Field)
    ensures MonthsSum(ts, f, 12) == Total(ts, f)
    decreases |ts|
  {
    if ts == [] {
      assert MonthsSum(ts, f, 0) == 0;
      MonthsSumEmpty(f, 12);
    } else {
      MonthsSumLast(ts, f, 12);
      MonthsSumTotal(ts[..|ts| - 1], f);
    }
  }

  lemma {:induction false} MonthsSumEmpty(f: Field, k: nat)
    ensures MonthsSum([], f, k) == 0
  {
    if k > 0 {
      MonthsSumEmpty(f, k - 1);
    }
  }

  lemma {:induction false} BreakdownPrefixSums(ts: seq<Transaction>, k: nat)
    requires k <= 12
    ensures SumOfferings(YearBreakdown(ts)[..k])
      == MonthsSum(ts, General, k) + MonthsSum(ts, Special, k) + MonthsSum(ts, Tithe, k)
    ensures SumExpenses(YearBreakdown(ts)[..k]) == MonthsSum(ts, Expenses, k)
  {
    if k > 0 {
      var bs := YearBreakdown(ts);
      assert bs[..k][..k - 1] == bs[..k - 1];
      BreakdownPrefixSums(ts, k - 1);
    }
  }

  /** The year chart accounts for every record: its offering bars add up to
      the total offerings and its expense bars to the total expenses. */
  lemma BreakdownMatchesTotals(ts: seq<Transaction>)
    ensures SumOfferings(YearBreakdown(ts)) == Total(ts, General) + Total(ts, Special) + Total(ts, Tithe)
    ensures SumExpenses(YearBreakdown(ts)) == Total(ts, Expenses)
  {
    var bs := YearBreakdown(ts);
    BreakdownPrefixSums(ts, 12);
    assert bs[..12] == bs;
    MonthsSumTotal(ts, General);
    MonthsSumTotal(ts, Special);
    MonthsSumTotal(ts, Tithe);
    MonthsSumTotal(ts, Expenses);
  }

  /** A month in which no record falls has an empty bar pair. */
  lemma {:induction false} EmptyMonth(ts: seq<Transaction>, mi: int)
    requires forall t :: t in ts ==> t.date.month - 1 != mi
    ensures MonthBucket(ts, mi) == Bucket(0, 0)
    decreases |ts|
  {
    if ts != [] {
      var p := ts[..|ts| - 1];
      assert forall t :: t in p ==> t in ts;
      assert ts[|ts| - 1] in ts;
      EmptyMonth(p, mi);
    }
  }

  // ---------------------------------------------------------------------
  // Period label and export file name

  const MonthNames: seq<string> := ["January", "February", "March", "April", "May", "June", "July",
                                    "August", "September", "October", "November", "December"]

  predicate IsLetter(c: char) { 'A' <= c <= 'Z' || 'a' <= c <= 'z' }

  lemma MonthNameNoWhitespace(k: int)
    requires 0 <= k < 12
    ensures NoWhitespace(MonthNames[k])
  {
    var name := MonthNames[k];
    assert forall i :: 0 <= i < |name| ==> IsLetter(name[i]);
  }

  /** "March 2024" in month view, "Year 2024" in year view. */
  function PeriodLabel(p: Period): string {
    if p.mode == MonthView then MonthNames[p.month - 1] + " " + IntToString(p.year)
    else "Year " + IntToString(p.year)
  }

  /** `s.replace(/\s/g, '_')`: every white-space character becomes an
      underscore and nothing else changes. */
  function ReplaceWhitespace(s: string): (r: string)
    ensures |r| == |s|
    ensures forall i :: 0 <= i < |s| ==> r[i] == if IsWhitespace(s[i]) then '_' else s[i]
  {
    if s == [] then [] else [if IsWhitespace(s[0]) then '_' else s[0]] + ReplaceWhitespace(s[1..])
  }

  lemma ReplaceWhitespaceNone(s: string)
    requires NoWhitespace(s)
    ensures ReplaceWhitespace(s) == s
  {
  }

  /** The name the report is saved under. */
  function ExportFileName(p: Period): string {
    "FMS_Report_" + ReplaceWhitespace(PeriodLabel(p)) + ".pdf"
  }

  /** The file name holds no white space, whatever the period. */
  lemma ExportFileNameNoWhitespace(p: Period)
    ensures NoWhitespace(ExportFileName(p))
  {
    var s := ExportFileName(p);
    var caption := ReplaceWhitespace(PeriodLabel(p));
    forall i | 0 <= i < |s| ensures !IsWhitespace(s[i]) {
      if 11 <= i < 11 + |caption| {
        assert s[i] == caption[i - 11];
      }
    }
  }

  /** In month view the file name spells out the month and the year:
      "FMS_Report_March_2024.pdf". */
  lemma ExportFileNameMonth(p: Period)
    requires p.mode == MonthView
    ensures ExportFileName(p) == "FMS_Report_" + (MonthNames[p.month - 1] + ("_" + IntToString(p.year))) + ".pdf"
  {
    var n := IntToString(p.year);
    var name := MonthNames[p.month - 1];
    assert ReplaceWhitespace(n) == n by {
      NumeralHasNoWhitespace(p.year);
      ReplaceWhitespaceNone(n);
    }
    assert ReplaceWhitespace(name) == name by {
      MonthNameNoWhitespace(p.month - 1);
      ReplaceWhitespaceNone(name);
    }
    assert ReplaceWhitespace(" " + n) == "_" + n by {
      assert ReplaceWhitespace(" ") == "_";
      ReplaceWhitespaceAppend(" ", n);
    }
    assert ReplaceWhitespace(name + (" " + n)) == name + ("_" + n) by {
      ReplaceWhitespaceAppend(name, " " + n);
    }
    assert PeriodLabel(p) == name + (" " + n);
  }

  /** In year view the file name spells out the year: "FMS_Report_Year_2024.pdf". */
  lemma ExportFileNameYear(p: Period)
    requires p.mode == YearView
    ensures ExportFileName(p) == "FMS_Report_" + ("Year_" + IntToString(p.year)) + ".pdf"
  {
    var n := IntToString(p.year);
    assert ReplaceWhitespace(n) == n by {
      NumeralHasNoWhitespace(p.year);
      ReplaceWhitespaceNone(n);
    }
    assert ReplaceWhitespace("Year " + n) == "Year_" + n by {
      assert ReplaceWhitespace("Year ") == "Year_";
      ReplaceWhitespaceAppend("Year ", n);
    }
  }

  lemma ReplaceWhitespaceAppend(a: string, b: string)
    ensures ReplaceWhitespace(a + b) == ReplaceWhitespace(a) + ReplaceWhitespace(b)
  {
    var l := ReplaceWhitespace(a + b);
    var r := ReplaceWhitespace(a) + ReplaceWhitespace(b);
    assert |l| == |r|;
    forall i | 0 <= i < |l| ensures l[i] == r[i] {
      if i < |a| {
        assert (a + b)[i] == a[i];
      } else {
        assert (a + b)[i] == b[i - |a|];
      }
    }
  }

  // ---------------------------------------------------------------------
  // The exported report

  /** A line of the report table. */
  datatype Row =
    | RecordRow(date: Date, general: int, special: int, specialNames: string, tithe: int,
                titheNames: string, expenses: int, details: string, remarks: string, proof: string)
    | TotalRow(general: int, special: int, tithe: int, expenses: int, balance: int)

  /** `s || '-'`. */
  function OrDash(s: string): (r: string)
    ensures r != ""
    ensures s != "" ==> r == s
  {
    if s == "" then "-" else s
  }

  /** A proof link is present when `proofUrl` is a non-empty string. */
  predicate HasProof(t: Transaction) {
    t.proofUrl.Some? && t.proofUrl.value != ""
  }

  /** The table line of one record: missing amounts as 0, empty texts as a
      dash, and whether a proof is attached. */
  function RecordLine(t: Transaction): (r: Row)
    ensures r.RecordRow? && r.date == t.date
    ensures r.general == FieldValue(t, General) && r.special == FieldValue(t, Special)
    ensures r.tithe == FieldValue(t, Tithe) && r.expenses == FieldValue(t, Expenses)
    ensures r.specialNames == OrDash(t.specialOfferingNames) && r.titheNames == OrDash(t.titheNames)
    ensures r.details == OrDash(t.expenseDetails) && r.remarks == OrDash(t.remarks)
    ensures r.proof == if HasProof(t) then "Yes (see appendix)" else "None"
  {
    RecordRow(t.date, Value(t.generalOffering), Value(t.specialOffering), OrDash(t.specialOfferingNames),
              Value(t.tithe), OrDash(t.titheNames), Value(t.expenses), OrDash(t.expenseDetails),
              OrDash(t.remarks), if HasProof(t) then "Yes (see appendix)" else "None")
  }

  /** The records with a proof, in list order. */
  function WithProof(ts: seq<Transaction>): (r: seq<Transaction>)
    ensures |r| <= |ts|
    ensures forall i :: 0 <= i < |r| ==> HasProof(r[i])
  {
    if ts == [] then [] else WithProof(ts[..|ts| - 1]) + (if HasProof(ts[|ts| - 1]) then [ts[|ts| - 1]] else [])
  }

  /** Exactly the records with a proof are kept. */
  lemma {:induction false} WithProofMembers(ts: seq<Transaction>)
    ensures forall t :: t in WithProof(ts) <==> t in ts && HasProof(t)
    decreases |ts|
  {
    if ts != [] {
      LastSplit(ts);
      WithProofMembers(ts[..|ts| - 1]);
    }
  }

  lemma {:induction false} WithProofAppend(a: seq<Transaction>, b: seq<Transaction>)
    ensures WithProof(a + b) == WithProof(a) + WithProof(b)
    decreases |b|
  {
    if b == [] {
      assert a + b == a;
    } else {
      var b', t := b[..|b| - 1], b[|b| - 1];
      AppendFront(a, b);
      WithProofAppend(a, b');
      var keep := if HasProof(t) then [t] else [];
      assert WithProof(a + b) == (WithProof(a) + WithProof(b')) + keep;
    }
  }

  /** What the image loader and the PDF writer make of a proof file: no
      image at all (`null`), or an image the writer can or cannot embed. */
  datatype ImageLoad = NoImage | Image(embeddable: bool)

  /** What an appendix page shows below its heading. */
  datatype ProofView =
    | Embedded(url: string)
    | CouldNotEmbed(url: string)   // the image was loaded but the writer refused it
    | NonImage(url: string)        // the loader gave nothing: the link is printed

  /** An appendix page: "Proof <number> of <count>", the record's date and
      expenses, its note, and the proof. */
  datatype Page = Page(number: nat, count: nat, date: Date, expenses: int, note: string, proof: ProofView)

  /** Where the browser loads a proof from. */
  function ProofAddress(t: Transaction): string
    requires HasProof(t)
  {
    "http://localhost:5000" + t.proofUrl.value
  }

  /** The note line: the expense details, or else the remarks, or else nothing. */
  function Note(t: Transaction): (r: string)
    ensures t.expenseDetails != "" ==> r == t.expenseDetails
    ensures t.expenseDetails == "" ==> r == t.remarks
  {
    if t.expenseDetails != "" then t.expenseDetails else t.remarks
  }

  /** The page for the `i`-th (from 0) of `n` records with proofs. */
  function ProofPage(i: nat, n: nat, t: Transaction, load: string -> ImageLoad): (r: Page)
    requires HasProof(t)
    ensures r.number == i + 1 && r.count == n && r.date == t.date
    ensures r.expenses == FieldValue(t, Expenses) && r.note == Note(t)
    ensures r.proof.url == ProofAddress(t)
    ensures r.proof.Embedded? <==> load(ProofAddress(t)) == Image(true)
    ensures r.proof.NonImage? <==> load(ProofAddress(t)) == NoImage
  {
    var url := ProofAddress(t);
    Page(i + 1, n, t.date, Value(t.expenses), Note(t),
         match load(url)
         case NoImage => NonImage(url)
         case Image(ok) => if ok then Embedded(url) else CouldNotEmbed(url))
  }

  datatype Report = Report(title: string, summary: Totals, rows: seq<Row>, appendix: seq<Page>, fileName: string)

  /** The PDF export. The table has one line per record in list order and a
      closing total line; the appendix has one page per record with a proof,
      in list order, numbered from 1, and a proof that cannot be loaded or
      embedded still gets its page. `load` stands for fetching a proof file
      into an image. */
  method ExportReport(p: Period, ts: seq<Transaction>, load: string -> ImageLoad) returns (report: Report)
    ensures report.title == "FMS Financial Report — " + PeriodLabel(p)
    ensures report.fileName == ExportFileName(p)
    ensures report.summary.offerings == Total(ts, General) + Total(ts, Special) + Total(ts, Tithe)
    ensures report.summary.expenses == Total(ts, Expenses)
    ensures report.summary.balance == report.summary.offerings - report.summary.expenses
    ensures |report.rows| == |ts| + 1
    ensures forall i :: 0 <= i < |ts| ==> report.rows[i] == RecordLine(ts[i])
    ensures report.rows[|ts|] == TotalRow(Total(ts, General), Total(ts, Special), Total(ts, Tithe),
                                          Total(ts, Expenses), report.summary.balance)
    ensures |report.appendix| == |WithProof(ts)|
    ensures forall i :: 0 <= i < |report.appendix| ==>
      report.appendix[i] == ProofPage(i, |WithProof(ts)|, WithProof(ts)[i], load)
  {
    var caption := PeriodLabel(p);
    var totals := ComputeTotals(ts);
    var rows := seq(|ts|, i requires 0 <= i < |ts| => RecordLine(ts[i]));
    rows := rows + [TotalRow(totals.general, totals.special, totals.tithe, totals.expenses, totals.balance)];
    var proofs := WithProof(ts);
    var pages: seq<Page> := [];
    for i := 0 to |proofs|
      invariant |pages| == i
      invariant forall k :: 0 <= k < i ==> pages[k] == ProofPage(k, |proofs|, proofs[k], load)
    {
      var t := proofs[i];
      var url := "http://localhost:5000" + t.proofUrl.value;
      var image := load(url);
      var shown: ProofView;
      if image == NoImage {
        shown := NonImage(url);
      } else if image.embeddable {
        shown := Embedded(url);
      } else {
        shown := CouldNotEmbed(url);
      }
      pages := pages + [Page(i + 1, |proofs|, t.date, Value(t.expenses), Note(t), shown)];
    }
    report := Report("FMS Financial Report — " + caption, totals, rows, pages,
                     "FMS_Report_" + ReplaceWhitespace(caption) + ".pdf");
  }

  // ---------------------------------------------------------------------
  // Worked examples

  /** Two March 2024 records: 100 general, 50 tithe and 30 expenses on the
      5th; 20 special on the 20th. */
  function MarchRecords(): (ts: seq<Transaction>)
    ensures |ts| == 2
  {
    [NewTransaction("a", "treasurer", Date(2024, 3, 5)).(generalOffering := Num(100), tithe := Num(50), expenses := Num(30)),
     NewTransaction("b", "treasurer", Date(2024, 3, 20)).(specialOffering := Num(20))]
  }

  /** Their summary: offerings 170 and balance 140. */
  lemma MarchSummary()
    ensures IsSummaryOf(Totals(100, 20, 50, 170, 30, 140), MarchRecords())
  {
    var ts := MarchRecords();
    assert ts[..1] == [ts[0]] && [ts[0]][..0] == [];
    forall f ensures Total(ts, f) == FieldValue(ts[0], f) + FieldValue(ts[1], f) {
      assert Total([ts[0]], f) == FieldValue(ts[0], f);
    }
  }

  /** The same records and a December one with 10 expenses, in year view:
      only the March and December bars are non-zero. */
  lemma YearViewExample()
    ensures var b := YearBreakdown(MarchRecords() + [NewTransaction("c", "treasurer", Date(2024, 12, 1)).(expenses := Num(10))]);
      b[2] == Bucket(170, 30) && b[11] == Bucket(0, 10)
      && forall k :: 0 <= k < 12 && k != 2 && k != 11 ==> b[k] == Bucket(0, 0)
  {
    var m := MarchRecords();
    var d := NewTransaction("c", "treasurer", Date(2024, 12, 1)).(expenses := Num(10));
    var ts := m + [d];
    assert ts[..2] == m && m[..1] == [m[0]] && [m[0]][..0] == [];
    forall f ensures MonthTotal(ts, f, 2) == FieldValue(m[0], f) + FieldValue(m[1], f) {
      assert MonthTotal([m[0]], f, 2) == FieldValue(m[0], f);
    }
    forall f ensures MonthTotal(ts, f, 11) == FieldValue(d, f) {
      assert MonthTotal([m[0]], f, 11) == 0;
    }
    forall k | 0 <= k < 12 && k != 2 && k != 11 ensures MonthBucket(ts, k) == Bucket(0, 0) {
      forall t | t in ts ensures t.date.month - 1 != k {
        assert t == ts[0] || t == ts[1] || t == ts[2];
      }
      EmptyMonth(ts, k);
    }
  }
}
