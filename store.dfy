/** The server's transaction routes: the name an uploaded proof is stored
    under, the date condition a GET builds from its query, and the records
    and the upload directory that POST, GET, PUT and DELETE read and change.
    The database is a map from id to record; the upload directory is the
    set of proof paths (`/uploads/<name>`) it holds. */
module Store {
  import opened Common
  import opened Text
  import opened Calendar
  import opened Ledger

  // ---------------------------------------------------------------------
  // Stored proof names

  /** A proof file as the upload middleware receives it. */
  datatype Upload = Upload(originalName: string)

  /** The index of the last dot of `s`, or -1. */
  function LastDot(s: string): (k: int)
    ensures -1 <= k < |s|
    ensures k >= 0 ==> s[k] == '.'
    ensures forall j :: k < j < |s| ==> s[j] != '.'
  {
    if s == [] then -1 else if s[|s| - 1] == '.' then |s| - 1 else LastDot(s[..|s| - 1])
  }

  /** The last dot is the only dot with no dot after it. */
  lemma {:induction false} LastDotAt(s: string, k: int)
    requires -1 <= k < |s|
    requires k >= 0 ==> s[k] == '.'
    requires forall j :: k < j < |s| ==> s[j] != '.'
    ensures LastDot(s) == k
    decreases |s|
  {
    if s != [] && s[|s| - 1] != '.' {
      LastDotAt(s[..|s| - 1], k);
    }
  }

  /** No dot follows position `k` of `s`. */
  predicate NoDotAfter(s: string, k: int) {
    forall j :: 0 <= j < |s| && k < j ==> s[j] != '.'
  }

  /** A dot with no dot after it is the last dot. */
  lemma LastDotUnique(s: string)
    ensures forall k :: 0 <= k < |s| && s[k] == '.' && NoDotAfter(s, k) ==> LastDot(s) == k
  {
    forall k | 0 <= k < |s| && s[k] == '.' && NoDotAfter(s, k) {
      LastDotAt(s, k);
    }
  }

  /** `path.extname(name)` for a name without a directory part: from the last
      dot to the end; empty when there is no dot, when the only dot opens the
      name (".bashrc") and for the name "..". */
  function ExtName(name: string): (r: string)
    ensures r == [] || (r[0] == '.' && forall j :: 0 < j < |r| ==> r[j] != '.')
    ensures |r| <= |name| && r == name[|name| - |r|..]
    ensures forall k :: 0 < k < |name| && name[k] == '.' && name != ".." && NoDotAfter(name, k) ==> r == name[k..]
    ensures (forall k :: 0 < k < |name| ==> name[k] != '.') || name == ".." ==> r == ""
  {
    LastDotUnique(name);
    var k := LastDot(name);
    if k <= 0 || name == ".." then "" else name[k..]
  }

  /** The name a proof is stored under: `Date.now()` in milliseconds followed
      by the original extension. */
  function StoredName(now: nat, up: Upload): string {
    NatToString(now) + ExtName(up.originalName)
  }

  /** The `proofUrl` of a stored proof. */
  function UploadPath(now: nat, up: Upload): string {
    "/uploads/" + StoredName(now, up)
  }

  /** The stored name keeps the original's extension. */
  lemma StoredNameExtension(now: nat, up: Upload)
    ensures ExtName(StoredName(now, up)) == ExtName(up.originalName)
  {
    var a := NatToString(now);
    var e := ExtName(up.originalName);
    var s := a + e;
    assert forall j :: 0 <= j < |a| ==> s[j] == a[j] && IsDigit(a[j]);
    if e == [] {
      assert s == a;
      LastDotAt(s, -1);
    } else {
      LastDotAt(s, |a|);
      assert s[|a|..] == e;
      assert s != ".." by { assert IsDigit(s[0]); }
    }
  }

  /** The longest run of digits at the start of a string. */
  function DigitRun(s: string): (r: string)
    ensures AllDigits(r) && |r| <= |s| && r == s[..|r|]
    ensures |r| < |s| ==> !IsDigit(s[|r|])
  {
    if s == [] || !IsDigit(s[0]) then [] else [s[0]] + DigitRun(s[1..])
  }

  lemma {:induction false} DigitRunAppend(a: string, e: string)
    requires AllDigits(a)
    requires e == [] || !IsDigit(e[0])
    ensures DigitRun(a + e) == a
    decreases |a|
  {
    if a != [] {
      assert (a + e)[1..] == a[1..] + e;
      DigitRunAppend(a[1..], e);
      assert [a[0]] + a[1..] == a;
    } else {
      assert a + e == e;
    }
  }

  /** Uploads stored at different times get different paths, whatever their
      original names. */
  lemma UploadTimesDistinct(n1: nat, u1: Upload, n2: nat, u2: Upload)
    requires n1 != n2
    ensures UploadPath(n1, u1) != UploadPath(n2, u2)
  {
    if UploadPath(n1, u1) == UploadPath(n2, u2) {
      var s1, s2 := StoredName(n1, u1), StoredName(n2, u2);
      assert s1 == UploadPath(n1, u1)[9..] && s2 == UploadPath(n2, u2)[9..];
      var e1, e2 := ExtName(u1.originalName), ExtName(u2.originalName);
      DigitRunAppend(NatToString(n1), e1);
      DigitRunAppend(NatToString(n2), e2);
      NatToStringValue(n1);
      NatToStringValue(n2);
      assert false;
    }
  }

  // ---------------------------------------------------------------------
  // The date condition of a GET

  /** `parseInt(s)` in base 10: leading white space is skipped, a sign may
      follow, and the digits after it are read up to the first non-digit; no
      digit at all is NaN (`None`). */
  function ParseIntPrefix(s: string): Option<int> {
    var t := TrimStart(s);
    var signed := t != [] && (t[0] == '-' || t[0] == '+');
    var rest := if signed then t[1..] else t;
    var digits := DigitRun(rest);
    if digits == [] then None
    else
      var magnitude: int := DigitsValue(digits);
      Some(if signed && t[0] == '-' then -magnitude else magnitude)
  }

  /** `parseInt(String(i)) == i`: a number the client puts in the query
      string is read back unchanged. */
  lemma ParseIntNumeral(i: int)
    ensures ParseIntPrefix(IntToString(i)) == Some(i)
  {
    var s := IntToString(i);
    NumeralHasNoWhitespace(i);
    assert TrimStart(s) == s;
    var m := if i < 0 then -i else i;
    DigitRunAppend(NatToString(m), []);
    assert NatToString(m) + [] == NatToString(m);
    NatToStringValue(m);
    if i < 0 {
      assert s[1..] == NatToString(m);
    } else {
      assert IsDigit(s[0]);
    }
  }

  /** The query string of a GET; `None` is a parameter not given. */
  datatype Query = Query(startDate: Option<string>, endDate: Option<string>, year: Option<string>, month: Option<string>)

  /** A query parameter that is present and not empty. */
  predicate Truthy(s: Option<string>) {
    s.Some? && s.value != ""
  }

  /** The date condition of a find: inclusive bounds, each optional; or a
      condition holding an invalid date, which makes the find fail. */
  datatype DateFilter = Invalid | Window(from: Option<Date>, until: Option<Date>)

  predicate Matches(f: DateFilter, d: Date)
    requires f.Window?
  {
    (f.from.None? || DateLe(f.from.value, d)) && (f.until.None? || DateLe(d, f.until.value))
  }

  /** `new Date(y, m0, 1)` .. `new Date(y, m0 + 1, 0, 23, 59, 59, 999)`: the
      first through the last day of the month `m0` (zero-based, carried into
      the year when outside 0..11) of the year `new Date` reads `y` as. A
      bound a `Date` cannot hold is an Invalid Date, which the find rejects:
      only the months from May of year -271821 to August of year 275760
      have a window. */
  function MonthWindow(y: int, m0: int): (f: DateFilter)
    ensures f.Window? ==> f.from.Some? && f.until.Some?
    ensures var (yy, mm) := NormalizeMonth(JsYear(y), m0);
      f.Window? <==> MonthOrdinal(-271821, 5) <= MonthOrdinal(yy, mm) <= MonthOrdinal(275760, 8)
  {
    var (yy, mm) := NormalizeMonth(JsYear(y), m0);
    var first, last := Date(yy, mm, 1), Date(yy, mm, MonthLength(yy, mm));
    if JsDayStart(first) && JsDayEnd(last) then Window(Some(first), Some(last)) else Invalid
  }

  /** `new Date(y, 0, 1)` .. `new Date(y, 11, 31, 23, 59, 59, 999)`; only the
      years -271820 to 275759 fit a `Date` from end to end. */
  function YearWindow(y: int): (f: DateFilter)
    ensures f.Window? ==> f.from.Some? && f.until.Some?
    ensures f.Window? <==> -271820 <= JsYear(y) <= 275759
  {
    var first, last := Date(JsYear(y), 1, 1), Date(JsYear(y), 12, 31);
    if JsDayStart(first) && JsDayEnd(last) then Window(Some(first), Some(last)) else Invalid
  }

  /** The month window holds exactly the days of that month. */
  lemma MonthWindowExact(y: int, m0: int, d: Date)
    requires ValidDate(d) && MonthWindow(y, m0).Window?
    ensures Matches(MonthWindow(y, m0), d) <==> (d.year, d.month) == NormalizeMonth(JsYear(y), m0)
  {
  }

  /** The year window holds exactly the days of that year. */
  lemma YearWindowExact(y: int, d: Date)
    requires ValidDate(d) && YearWindow(y).Window?
    ensures Matches(YearWindow(y), d) <==> d.year == JsYear(y)
  {
  }

  /** A `startDate` or `endDate` parameter: absent or empty, a date, or a
      string that is not a date. */
  datatype Bound = NoBound | At(d: Date) | BadBound

  function ParseBound(s: Option<string>): (b: Bound)
    ensures !Truthy(s) ==> b == NoBound
    ensures Truthy(s) ==> (b.BadBound? <==> ParseIsoDate(s.value).None?)
    ensures Truthy(s) && b.At? ==> ParseIsoDate(s.value) == Some(b.d)
  {
    if !Truthy(s) then NoBound
    else match ParseIsoDate(s.value)
      case None => BadBound
      case Some(d) => At(d)
  }

  function BoundDate(b: Bound): Option<Date> {
    if b.At? then Some(b.d) else None
  }

  /** The date condition a query asks for. `year` with `month` selects that
      month and `year` alone that year, whatever `startDate` and `endDate`
      say; without `year`, `startDate` and `endDate` each bound the dates on
      their own side (and `month` alone is ignored); a parameter that cannot
      be read as a number or a date makes the condition invalid. */
  function QueryFilter(q: Query): DateFilter {
    if Truthy(q.year) && Truthy(q.month) then
      match (ParseIntPrefix(q.year.value), ParseIntPrefix(q.month.value))
      case (Some(y), Some(m)) => MonthWindow(y, m - 1)
      case _ => Invalid
    else if Truthy(q.year) then
      match ParseIntPrefix(q.year.value)
      case Some(y) => YearWindow(y)
      case None => Invalid
    else
      var lo, hi := ParseBound(q.startDate), ParseBound(q.endDate);
      if lo.BadBound? || hi.BadBound? then Invalid else Window(BoundDate(lo), BoundDate(hi))
  }

  /** With none of the four parameters, every record is selected. */
  lemma NoParametersNoFilter(q: Query, d: Date)
    requires !Truthy(q.year) && !Truthy(q.startDate) && !Truthy(q.endDate)
    ensures QueryFilter(q) == Window(None, None) && Matches(QueryFilter(q), d)
  {
  }

  /** A year and a month that both read as numbers select that month. */
  lemma YearMonthWindow(q: Query, y: int, m: int)
    requires Truthy(q.year) && Truthy(q.month)
    requires ParseIntPrefix(q.year.value) == Some(y) && ParseIntPrefix(q.month.value) == Some(m)
    ensures QueryFilter(q) == MonthWindow(y, m - 1)
  {
  }

  /** A year that reads as a number, without a month, selects that year. */
  lemma YearOnlyWindow(q: Query, y: int)
    requires Truthy(q.year) && !Truthy(q.month)
    requires ParseIntPrefix(q.year.value) == Some(y)
    ensures QueryFilter(q) == YearWindow(y)
  {
  }

  /** `year` and `month` take precedence over a date range. */
  lemma YearMonthPrecedence(q: Query, start: Option<string>, end: Option<string>)
    requires Truthy(q.year)
    ensures QueryFilter(q.(startDate := start, endDate := end)) == QueryFilter(q)
  {
  }

  /** The condition is built the way the route builds `query.date`: the
      month or year window, or else an empty condition that each of
      `startDate` and `endDate` adds its own bound to. */
  method BuildFilter(q: Query) returns (f: DateFilter)
    ensures f == QueryFilter(q)
  {
    if Truthy(q.year) && Truthy(q.month) {
      var y := ParseIntPrefix(q.year.value);
      var m := ParseIntPrefix(q.month.value);
      if y.None? || m.None? {
        return Invalid;
      }
      var m0 := m.value - 1;
      var (sy, sm) := NormalizeMonth(JsYear(y.value), m0);
      // day 0 of the following month is the last day of this one
      var (ny, nm) := NormalizeMonth(JsYear(y.value), m0 + 1);
      var (ey, em) := PrevMonth(ny, nm);
      MonthOrdinalInjective(ey, em, sy, sm);
      var start, end := Date(sy, sm, 1), Date(ey, em, MonthLength(ey, em));
      if !JsDayStart(start) || !JsDayEnd(end) {
        return Invalid;
      }
      return Window(Some(start), Some(end));
    } else if Truthy(q.year) {
      var y := ParseIntPrefix(q.year.value);
      if y.None? {
        return Invalid;
      }
      var start, end := Date(JsYear(y.value), 1, 1), Date(JsYear(y.value), 12, 31);
      if !JsDayStart(start) || !JsDayEnd(end) {
        return Invalid;
      }
      return Window(Some(start), Some(end));
    }
    var from: Option<Date> := None;
    var until: Option<Date> := None;
    if Truthy(q.startDate) || Truthy(q.endDate) {
      if Truthy(q.startDate) {
        var d := ParseIsoDate(q.startDate.value);
        if d.None? {
          return Invalid;
        }
        from := d;
      }
      if Truthy(q.endDate) {
        var d := ParseIsoDate(q.endDate.value);
        if d.None? {
          return Invalid;
        }
        until := d;
      }
    }
    f := Window(from, until);
  }

  // ---------------------------------------------------------------------
  // Records and proof files

  /** What a route sends back: a record, a list of records, a status with a
      `msg`, or the 500 "Server Error" of a failed operation. */
  datatype Response =
    | Saved(t: Transaction)
    | Found(ts: seq<Transaction>)
    | Status(code: int, msg: string)
    | ServerError

  /** A body carrying no field at all. */
  const EmptyBody := Body(None, None, None, None, None, None, None, None, None)

  /** `Number(x) || 0`. */
  function Coerce(x: Option<string>): Amount {
    Num(NumberOrZero(x))
  }

  /** `x || ''`. */
  function TextOrEmpty(x: Option<string>): string {
    if x.Some? then x.value else ""
  }

  /** The date a POST stores: the body's date read by `new Date`, or the
      current date when the body has none; `None` when it is not a date. */
  function PostDate(b: Body, today: Date): Option<Date> {
    if Truthy(b.date) then ParseIsoDate(b.date.value) else Some(today)
  }

  /** The record a POST saves. */
  function Created(id: Id, b: Body, date: Date, user: Id, proof: Option<string>): Transaction {
    Transaction(id, date,
      Coerce(b.generalOffering), Coerce(b.specialOffering), TextOrEmpty(b.specialOfferingNames),
      Coerce(b.tithe), TextOrEmpty(b.titheNames), Coerce(b.expenses), TextOrEmpty(b.expenseDetails),
      TextOrEmpty(b.remarks), proof, user)
  }

  /** A POST without fields and without a proof saves the schema's fresh
      record. */
  lemma CreatedFromEmptyBody(id: Id, date: Date, user: Id)
    ensures Created(id, EmptyBody, date, user, None) == NewTransaction(id, user, date)
  {
  }

  /** The date a PUT leaves: the body's date read by `new Date` when it has
      one, the stored date otherwise; `None` when it is not a date. */
  function PutDate(t: Transaction, b: Body): Option<Date> {
    if Truthy(b.date) then ParseIsoDate(b.date.value) else Some(t.date)
  }

  /** A field a PUT gives is assigned, amounts through `Number(x) || 0` and
      texts as they come; a field it leaves out keeps its value. */
  function AmendAmount(a: Amount, x: Option<string>): Amount {
    if x.Some? then Coerce(x) else a
  }

  function AmendText(s: string, x: Option<string>): string {
    if x.Some? then x.value else s
  }

  /** The record after a PUT's assignments, with the date and proof the PUT
      leaves. */
  function Patched(t: Transaction, b: Body, date: Date, proof: Option<string>): Transaction {
    t.(date := date,
      generalOffering := AmendAmount(t.generalOffering, b.generalOffering),
      specialOffering := AmendAmount(t.specialOffering, b.specialOffering),
      specialOfferingNames := AmendText(t.specialOfferingNames, b.specialOfferingNames),
      tithe := AmendAmount(t.tithe, b.tithe),
      titheNames := AmendText(t.titheNames, b.titheNames),
      expenses := AmendAmount(t.expenses, b.expenses),
      expenseDetails := AmendText(t.expenseDetails, b.expenseDetails),
      remarks := AmendText(t.remarks, b.remarks),
      proofUrl := proof)
  }

  /** A PUT with no field, no date and no proof leaves the record as it is. */
  lemma PatchedEmpty(t: Transaction)
    ensures PutDate(t, EmptyBody) == Some(t.date)
    ensures Patched(t, EmptyBody, t.date, t.proofUrl) == t
  {
  }

  /** Sending the same PUT twice has the effect of sending it once. */
  lemma PatchedTwice(t: Transaction, b: Body, date: Date, proof: Option<string>)
    ensures Patched(Patched(t, b, date, proof), b, date, proof) == Patched(t, b, date, proof)
  {
  }

  /** A PUT that gives every field makes the same record a POST with that
      body would, keeping the id and the author. */
  lemma PatchedFullBody(t: Transaction, b: Body, date: Date, proof: Option<string>)
    requires b.generalOffering.Some? && b.specialOffering.Some? && b.tithe.Some? && b.expenses.Some?
    requires b.specialOfferingNames.Some? && b.titheNames.Some? && b.expenseDetails.Some? && b.remarks.Some?
    ensures Patched(t, b, date, proof) == Created(t.id, b, date, t.createdBy, proof)
  {
  }

  /** The proof file a record names, when `proofUrl` is set (the route
      deletes it on a replace or a delete). */
  function ProofFiles(t: Transaction): (r: set<string>)
    ensures r == {} <==> t.proofUrl.None? || t.proofUrl.value == ""
    ensures r != {} ==> r == {t.proofUrl.value}
  {
    if t.proofUrl.Some? && t.proofUrl.value != "" then {t.proofUrl.value} else {}
  }

  /** The file the upload middleware stored for a request, if any. */
  function Uploaded(upload: Option<Upload>, now: nat): set<string> {
    if upload.Some? then {UploadPath(now, upload.value)} else {}
  }

  function UploadUrl(upload: Option<Upload>, now: nat): Option<string> {
    if upload.Some? then Some(UploadPath(now, upload.value)) else None
  }

  /** Every record is stored under its own id and holds a calendar date. */
  predicate WellFormed(rs: map<Id, Transaction>) {
    forall id :: id in rs ==> rs[id].id == id && ValidDate(rs[id].date)
  }

  /** A file no record names breaks the agreement. */
  lemma Orphaned(rs: map<Id, Transaction>, fs: set<string>, p: string)
    requires p in fs && forall k :: k in rs ==> rs[k].proofUrl != Some(p)
    ensures !Consistent(rs, fs)
  {
  }

  /** A record naming a file that is gone breaks the agreement. */
  lemma Dangling(rs: map<Id, Transaction>, fs: set<string>, id: Id)
    requires id in rs && ProofFiles(rs[id]) != {} && rs[id].proofUrl.value !in fs
    ensures !Consistent(rs, fs)
  {
  }

  /** The records and the upload directory agree: every `proofUrl` names a
      file that exists, every file is the proof of some record, no two
      records share a proof, and no file has an empty name. */
  predicate Consistent(rs: map<Id, Transaction>, fs: set<string>) {
    && "" !in fs
    && (forall id :: id in rs && rs[id].proofUrl.Some? ==> rs[id].proofUrl.value in fs)
    && (forall f :: f in fs ==> exists id :: id in rs && rs[id].proofUrl == Some(f))
    && (forall i, j :: i in rs && j in rs && i != j && rs[i].proofUrl.Some? ==> rs[i].proofUrl != rs[j].proofUrl)
  }

  /** Adding a record whose proof, if any, is a new file keeps the records
      and the files in agreement. */
  lemma AddConsistent(rs: map<Id, Transaction>, fs: set<string>, id: Id, t: Transaction, up: set<string>)
    requires Consistent(rs, fs) && id !in rs
    requires t.proofUrl.None? ==> up == {}
    requires t.proofUrl.Some? ==> up == {t.proofUrl.value} && t.proofUrl.value !in fs && t.proofUrl.value != ""
    ensures Consistent(rs[id := t], fs + up)
  {
    var rs' := rs[id := t];
    forall f | f in fs + up ensures exists k :: k in rs' && rs'[k].proofUrl == Some(f) {
      if f in up {
        assert rs'[id].proofUrl == Some(f);
      } else {
        var k :| k in rs && rs[k].proofUrl == Some(f);
        assert rs'[k].proofUrl == Some(f);
      }
    }
  }

  /** Changing a record's fields but not its proof keeps the agreement. */
  lemma KeepProofConsistent(rs: map<Id, Transaction>, fs: set<string>, id: Id, t: Transaction)
    requires Consistent(rs, fs) && id in rs && t.proofUrl == rs[id].proofUrl
    ensures Consistent(rs[id := t], fs)
  {
    var rs' := rs[id := t];
    forall f | f in fs ensures exists k :: k in rs' && rs'[k].proofUrl == Some(f) {
      var k :| k in rs && rs[k].proofUrl == Some(f);
      assert rs'[k].proofUrl == Some(f);
    }
  }

  /** Giving a record a new proof file and deleting its old one keeps the
      agreement. */
  lemma NewProofConsistent(rs: map<Id, Transaction>, fs: set<string>, id: Id, t: Transaction, p: string)
    requires Consistent(rs, fs) && id in rs
    requires t.proofUrl == Some(p) && p !in fs && p != ""
    ensures Consistent(rs[id := t], fs - ProofFiles(rs[id]) + {p})
  {
    var rs', fs' := rs[id := t], fs - ProofFiles(rs[id]) + {p};
    forall f | f in fs' ensures exists k :: k in rs' && rs'[k].proofUrl == Some(f) {
      if f == p {
        assert rs'[id].proofUrl == Some(f);
      } else {
        var k :| k in rs && rs[k].proofUrl == Some(f);
        assert k != id;
        assert rs'[k].proofUrl == Some(f);
      }
    }
    forall k | k in rs' && rs'[k].proofUrl.Some? ensures rs'[k].proofUrl.value in fs' {
      if k != id {
        assert rs[k].proofUrl != rs[id].proofUrl;
      }
    }
  }

  /** Removing a record and deleting its proof keeps the agreement. */
  lemma RemoveConsistent(rs: map<Id, Transaction>, fs: set<string>, id: Id)
    requires Consistent(rs, fs) && id in rs
    ensures Consistent(rs - {id}, fs - ProofFiles(rs[id]))
  {
    var rs', fs' := rs - {id}, fs - ProofFiles(rs[id]);
    forall f | f in fs' ensures exists k :: k in rs' && rs'[k].proofUrl == Some(f) {
      var k :| k in rs && rs[k].proofUrl == Some(f);
      assert k != id;
      assert rs'[k].proofUrl == Some(f);
    }
    forall k | k in rs' && rs'[k].proofUrl.Some? ensures rs'[k].proofUrl.value in fs' {
      assert rs[k].proofUrl != rs[id].proofUrl;
    }
  }

  /** The database's transactions and the upload directory, as the routes
      change them. The `…AsWritten` methods follow the routes line by line;
      `Create` and `Update` are the same routes with the upload discarded
      whenever the request fails. */
  class TransactionStore {
    var records: map<Id, Transaction>
    var files: set<string>

    predicate Valid()
      reads this
    {
      WellFormed(records)
    }

    predicate FilesConsistent()
      reads this
    {
      Consistent(records, files)
    }

    constructor ()
      ensures Valid() && FilesConsistent()
      ensures records == map[] && files == {}
    {
      records := map[];
      files := {};
    }

    /** POST: the upload middleware stores the proof first; then the record
      is built from the body and saved, or the save fails on a date that is
      not a date. */
    method CreateAsWritten(body: Body, upload: Option<Upload>, now: nat, today: Date, user: Id, newId: Id)
      returns (resp: Response)
      requires Valid() && ValidDate(today) && newId !in records
      modifies this
      ensures Valid()
      ensures files == old(files) + Uploaded(upload, now)
      ensures PostDate(body, today).None? ==> resp == ServerError && records == old(records)
      ensures PostDate(body, today).Some? ==>
        var t := Created(newId, body, PostDate(body, today).value, user, UploadUrl(upload, now));
        resp == Saved(t) && records == old(records)[newId := t]
      // a failed save leaves the new upload in the directory with no record naming it
      ensures (upload.Some? && PostDate(body, today).None?
               && forall k :: k in old(records) ==> old(records)[k].proofUrl != UploadUrl(upload, now))
              ==> !FilesConsistent()
    {
      files := files + Uploaded(upload, now);
      var date := if Truthy(body.date) then ParseIsoDate(body.date.value) else Some(today);
      if date.None? {
        if upload.Some? && forall k :: k in records ==> records[k].proofUrl != UploadUrl(upload, now) {
          Orphaned(records, files, UploadPath(now, upload.value));
        }
        return ServerError;
      }
      var t := Created(newId, body, date.value, user, None);
      if upload.Some? {
        t := t.(proofUrl := Some(UploadPath(now, upload.value)));
      }
      records := records[newId := t];
      resp := Saved(t);
    }

    /** POST with the upload discarded when the save fails. */
    method Create(body: Body, upload: Option<Upload>, now: nat, today: Date, user: Id, newId: Id)
      returns (resp: Response)
      requires Valid() && ValidDate(today) && newId !in records
      modifies this
      ensures Valid()
      ensures PostDate(body, today).None? ==> resp == ServerError && records == old(records) && files == old(files)
      ensures PostDate(body, today).Some? ==>
        var t := Created(newId, body, PostDate(body, today).value, user, UploadUrl(upload, now));
        resp == Saved(t) && records == old(records)[newId := t] && files == old(files) + Uploaded(upload, now)
      ensures old(FilesConsistent()) && Uploaded(upload, now) !! old(files) ==> FilesConsistent()
    {
      var date := if Truthy(body.date) then ParseIsoDate(body.date.value) else Some(today);
      if date.None? {
        return ServerError;
      }
      var t := Created(newId, body, date.value, user, UploadUrl(upload, now));
      if Consistent(records, files) && Uploaded(upload, now) !! files {
        AddConsistent(records, files, newId, t, Uploaded(upload, now));
      }
      files := files + Uploaded(upload, now);
      records := records[newId := t];
      resp := Saved(t);
    }

    /** GET: the records the query's date condition selects, ascending by
      date, each once; a condition holding an invalid date fails. */
    method List(q: Query) returns (resp: Response)
      requires Valid()
      ensures QueryFilter(q).Invalid? ==> resp == ServerError
      ensures QueryFilter(q).Window? ==> resp.Found? && SortedByDate(resp.ts)
      ensures QueryFilter(q).Window? ==> forall t :: t in resp.ts <==> t in records.Values && Matches(QueryFilter(q), t.date)
      ensures QueryFilter(q).Window? ==> forall t :: t in resp.ts ==> multiset(resp.ts)[t] == 1
    {
      var f := BuildFilter(q);
      if f.Invalid? {
        return ServerError;
      }
      var pending := records.Keys;
      var found: seq<Transaction> := [];
      while pending != {}
        invariant pending <= records.Keys
        invariant forall t :: t in found <==> t.id in records.Keys - pending && records[t.id] == t && Matches(f, t.date)
        invariant forall t :: t in found ==> multiset(found)[t] == 1
        decreases |pending|
      {
        var id :| id in pending;
        var t := records[id];
        if Matches(f, t.date) {
          found := found + [t];
        }
        pending := pending - {id};
      }
      var sorted := SortByDate(found);
      SortByDateCorrect(found);
      SameMembers(sorted, found);
      resp := Found(sorted);
    }

    /** PUT: the upload middleware stores the proof first; a missing record
      is a 404; otherwise the given fields are assigned, a new proof deletes
      the old one and takes its place, and the save fails on a date that is
      not a date. */
    method UpdateAsWritten(id: Id, body: Body, upload: Option<Upload>, now: nat) returns (resp: Response)
      requires Valid()
      modifies this
      ensures Valid()
      ensures id !in old(records) ==>
        resp == Status(404, "Transaction not found") && records == old(records)
        && files == old(files) + Uploaded(upload, now)
      ensures id in old(records) ==>
        files == old(files) + Uploaded(upload, now) - (if upload.Some? then ProofFiles(old(records)[id]) else {})
      ensures id in old(records) && PutDate(old(records)[id], body).None? ==>
        resp == ServerError && records == old(records)
      ensures id in old(records) && PutDate(old(records)[id], body).Some? ==>
        var t := old(records)[id];
        var t' := Patched(t, body, PutDate(t, body).value, if upload.Some? then UploadUrl(upload, now) else t.proofUrl);
        resp == Saved(t') && records == old(records)[id := t']
      // a failed request leaves a new upload in the directory with no record naming it
      ensures (upload.Some? && (id !in old(records) || PutDate(old(records)[id], body).None?)
               && forall k :: k in old(records) ==> old(records)[k].proofUrl != UploadUrl(upload, now))
              ==> !FilesConsistent()
      // a failed save with a new proof has deleted the old proof the record still names
      ensures (upload.Some? && id in old(records) && ProofFiles(old(records)[id]) != {}
               && PutDate(old(records)[id], body).None?) ==> !FilesConsistent()
    {
      files := files + Uploaded(upload, now);
      if id !in records {
        if upload.Some? && forall k :: k in records ==> records[k].proofUrl != UploadUrl(upload, now) {
          Orphaned(records, files, UploadPath(now, upload.value));
        }
        return Status(404, "Transaction not found");
      }
      var t := records[id];
      // `new Date(date)` is assigned at once; a date that is not a date only
      // fails the save below
      var date := PutDate(t, body);
      if upload.Some? {
        files := files - ProofFiles(t);
      }
      if date.None? {
        if upload.Some? {
          if ProofFiles(t) != {} {
            Dangling(records, files, id);
          } else if forall k :: k in records ==> records[k].proofUrl != UploadUrl(upload, now) {
            Orphaned(records, files, UploadPath(now, upload.value));
          }
        }
        return ServerError;
      }
      var proof := if upload.Some? then UploadUrl(upload, now) else t.proofUrl;
      var t' := Patched(t, body, date.value, proof);
      records := records[id := t'];
      resp := Saved(t');
    }

    /** PUT with the upload discarded when the request fails, and the old
      proof deleted only once the new record is saved. */
    method Update(id: Id, body: Body, upload: Option<Upload>, now: nat) returns (resp: Response)
      requires Valid()
      modifies this
      ensures Valid()
      ensures id !in old(records) ==>
        resp == Status(404, "Transaction not found") && records == old(records) && files == old(files)
      ensures id in old(records) && PutDate(old(records)[id], body).None? ==>
        resp == ServerError && records == old(records) && files == old(files)
      ensures id in old(records) && PutDate(old(records)[id], body).Some? ==>
        var t := old(records)[id];
        var t' := Patched(t, body, PutDate(t, body).value, if upload.Some? then UploadUrl(upload, now) else t.proofUrl);
        && resp == Saved(t') && records == old(records)[id := t']
        && files == if upload.Some? then old(files) - ProofFiles(t) + Uploaded(upload, now) else old(files)
      ensures old(FilesConsistent()) && Uploaded(upload, now) !! old(files) ==> FilesConsistent()
    {
      if id !in records {
        return Status(404, "Transaction not found");
      }
      var t := records[id];
      var date := PutDate(t, body);
      if date.None? {
        return ServerError;
      }
      var proof := if upload.Some? then UploadUrl(upload, now) else t.proofUrl;
      var t' := Patched(t, body, date.value, proof);
      if Consistent(records, files) && Uploaded(upload, now) !! files {
        if upload.Some? {
          NewProofConsistent(records, files, id, t', UploadPath(now, upload.value));
        } else {
          KeepProofConsistent(records, files, id, t');
        }
      }
      if upload.Some? {
        files := files - ProofFiles(t) + Uploaded(upload, now);
      }
      records := records[id := t'];
      resp := Saved(t');
    }

    /** DELETE: a missing record is a 404; otherwise its proof file is
      deleted and then the record. */
    method Delete(id: Id) returns (resp: Response)
      requires Valid()
      modifies this
      ensures Valid()
      ensures id !in old(records) ==>
        resp == Status(404, "Transaction not found") && records == old(records) && files == old(files)
      ensures id in old(records) ==>
        && resp == Status(200, "Transaction removed") && records == old(records) - {id}
        && files == old(files) - ProofFiles(old(records)[id])
      ensures old(FilesConsistent()) ==> FilesConsistent()
    {
      if id !in records {
        return Status(404, "Transaction not found");
      }
      if Consistent(records, files) {
        RemoveConsistent(records, files, id);
      }
      files := files - ProofFiles(records[id]);
      records := records - {id};
      resp := Status(200, "Transaction removed");
    }
  }

  /** A proof attached to a PUT for an id no record has: the 404 leaves the
      stored upload behind with no record naming it. */
  method OrphanedUploadExample() returns (resp: Response, before: bool, after: bool)
    ensures resp == Status(404, "Transaction not found")
    ensures before && !after
  {
    var store := new TransactionStore();
    before := store.FilesConsistent();
    resp := store.UpdateAsWritten("missing", EmptyBody, Some(Upload("receipt.jpg")), 1700000000000);
    after := store.FilesConsistent();
  }

  /** A PUT with a new proof and a date that is not a date: the save fails
      after the record's proof file has been deleted, and the record still
      names it. */
  method DeletedProofExample() returns (resp: Response, before: bool, after: bool)
    ensures resp == ServerError
    ensures before && !after
  {
    var store := new TransactionStore();
    var proof := "/uploads/1700000000000.jpg";
    var t := NewTransaction("r1", "treasurer", Date(2024, 3, 5)).(proofUrl := Some(proof));
    store.records := map["r1" := t];
    store.files := {proof};
    before := store.FilesConsistent();
    var body := EmptyBody.(date := Some("yesterday"));
    assert |body.date.value| == 9;
    assert PutDate(t, body) == None;
    assert ProofFiles(t) == {proof};
    resp := store.UpdateAsWritten("r1", body, Some(Upload("new.jpg")), 1700000000001);
    after := store.FilesConsistent();
  }
}
