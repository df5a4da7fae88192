/** The transaction record of the ledger (the `Transaction` schema of the
    store), what a missing amount counts as, the per-field sums every page
    shows, and the stable ascending-by-date order both the client and the
    server sort records into. */
module Ledger {
  import opened Common
  import opened Calendar

  /** Document ids and user ids. */
  type Id = string

  /** A monetary amount as a record carries it, as an integer. `Missing`
      is a field the JSON record does not carry. */
  datatype Amount = Missing | Num(n: int)

  /** `amount || 0`: a missing amount counts as zero. */
  function Value(a: Amount): int {
    if a.Num? then a.n else 0
  }

  datatype Transaction = Transaction(
    id: Id,
    date: Date,
    generalOffering: Amount,
    specialOffering: Amount,
    specialOfferingNames: string,
    tithe: Amount,
    titheNames: string,
    expenses: Amount,
    expenseDetails: string,
    remarks: string,
    proofUrl: Option<string>,
    createdBy: Id)

  /** A fresh document of the schema: `date` defaults to now, the four
      amounts to 0, the four text fields to '' and `proofUrl` to null;
      `createdBy` has no default and must be given. */
  function NewTransaction(id: Id, createdBy: Id, now: Date): (t: Transaction)
    ensures t.id == id && t.createdBy == createdBy && t.date == now
    ensures Value(t.generalOffering) == Value(t.specialOffering) == Value(t.tithe) == Value(t.expenses) == 0
    ensures t.specialOfferingNames == t.titheNames == t.expenseDetails == t.remarks == ""
    ensures t.proofUrl == None
  {
    Transaction(id, now, Num(0), Num(0), "", Num(0), "", Num(0), "", "", None, createdBy)
  }

  /** The four summed amounts of a record. */
  datatype Field = General | Special | Tithe | Expenses

  /** `t.<field> || 0`. */
  function FieldValue(t: Transaction, f: Field): int {
    match f
    case General => Value(t.generalOffering)
    case Special => Value(t.specialOffering)
    case Tithe => Value(t.tithe)
    case Expenses => Value(t.expenses)
  }

  /** The offerings a record brings in: general + special + tithe. */
  function Offerings(t: Transaction): int {
    FieldValue(t, General) + FieldValue(t, Special) + FieldValue(t, Tithe)
  }

  /** The sum of one field over a list of records, missing values counting
      as zero. */
  function Total(ts: seq<Transaction>, f: Field): int {
    if ts == [] then 0 else Total(ts[..|ts| - 1], f) + FieldValue(ts[|ts| - 1], f)
  }

  /** Totals add up over a split of the list. */
  lemma {:induction false} TotalAppend(a: seq<Transaction>, b: seq<Transaction>, f: Field)
    ensures Total(a + b, f) == Total(a, f) + Total(b, f)
    decreases |b|
  {
    if b != [] {
      assert (a + b)[..|a + b| - 1] == a + b[..|b| - 1];
      TotalAppend(a, b[..|b| - 1], f);
    } else {
      assert a + b == a;
    }
  }

  /** Taking one record out of the list takes its amount out of the total. */
  lemma TotalRemove(s: seq<Transaction>, i: nat, f: Field)
    requires i < |s|
    ensures Total(s, f) == Total(s[..i] + s[i + 1..], f) + FieldValue(s[i], f)
  {
    assert s == s[..i] + [s[i]] + s[i + 1..];
    TotalAppend(s[..i] + [s[i]], s[i + 1..], f);
    TotalAppend(s[..i], [s[i]], f);
    TotalAppend(s[..i], s[i + 1..], f);
    assert Total([s[i]], f) == Total([], f) + FieldValue(s[i], f);
  }

  /** Summation does not depend on the order of the records: any two lists
      holding the same records have the same totals. */
  lemma {:induction false} TotalPermutation(a: seq<Transaction>, b: seq<Transaction>, f: Field)
    requires multiset(a) == multiset(b)
    ensures Total(a, f) == Total(b, f)
    decreases |a|
  {
    if a == [] {
      assert |b| == |multiset(b)| == 0;
    } else {
      var x := a[|a| - 1];
      var a' := a[..|a| - 1];
      MultisetLast(a);
      assert x in multiset(b);
      var i :| 0 <= i < |b| && b[i] == x;
      var b' := b[..i] + b[i + 1..];
      MultisetRemoveAt(b, i);
      assert multiset(a') == multiset(b');
      TotalPermutation(a', b', f);
      TotalRemove(b, i, f);
      assert Total(a, f) == Total(a', f) + FieldValue(x, f);
    }
  }

  /** A record with every amount at its default adds nothing to any total. */
  lemma DefaultAddsNothing(ts: seq<Transaction>, id: Id, createdBy: Id, now: Date, f: Field)
    ensures Total(ts + [NewTransaction(id, createdBy, now)], f) == Total(ts, f)
  {
    var t := NewTransaction(id, createdBy, now);
    assert (ts + [t])[..|ts|] == ts;
  }

  /** The summary both pages show: the four field totals, the offerings
      (general + special + tithe) and the balance (offerings less expenses). */
  datatype Totals = Totals(general: int, special: int, tithe: int, offerings: int, expenses: int, balance: int)

  predicate IsSummaryOf(r: Totals, ts: seq<Transaction>) {
    && r.general == Total(ts, General) && r.special == Total(ts, Special)
    && r.tithe == Total(ts, Tithe) && r.expenses == Total(ts, Expenses)
    && r.offerings == r.general + r.special + r.tithe
    && r.balance == r.offerings - r.expenses
  }

  /** The text fields of a create or update request as the server receives
      them (multipart form fields or JSON members); `None` is a field the
      request does not carry. */
  datatype Body = Body(
    date: Option<string>,
    generalOffering: Option<string>,
    specialOffering: Option<string>,
    specialOfferingNames: Option<string>,
    tithe: Option<string>,
    titheNames: Option<string>,
    expenses: Option<string>,
    expenseDetails: Option<string>,
    remarks: Option<string>)

  /** Ascending by date: the comparator `new Date(a.date) - new Date(b.date)`
      and the store's `sort({ date: 1 })`. */
  predicate SortedByDate(s: seq<Transaction>) {
    forall i, j :: 0 <= i < j < |s| ==> DateLe(s[i].date, s[j].date)
  }

  /** Places `x` after every record not later than it: the step of a stable
      insertion sort that has already placed the records before `x`. */
  function InsertByDate(s: seq<Transaction>, x: Transaction): (r: seq<Transaction>)
    ensures |r| == |s| + 1 && multiset(r) == multiset(s) + multiset{x}
    ensures forall y :: y in r ==> y == x || y in s
  {
    if s == [] then [x]
    else if DateLe(s[|s| - 1].date, x.date) then s + [x]
    else
      var p := s[..|s| - 1];
      assert s == p + [s[|s| - 1]];
      InsertByDate(p, x) + [s[|s| - 1]]
  }

  lemma {:induction false} InsertByDateSorted(s: seq<Transaction>, x: Transaction)
    requires SortedByDate(s)
    ensures SortedByDate(InsertByDate(s, x))
    decreases |s|
  {
    if s != [] && !DateLe(s[|s| - 1].date, x.date) {
      var e := s[|s| - 1];
      var p := s[..|s| - 1];
      var q := InsertByDate(p, x);
      InsertByDateSorted(p, x);
      forall i | 0 <= i < |q| ensures DateLe(q[i].date, e.date) {
        if q[i] == x {
          DateLeTotal(x.date, e.date);
        } else {
          assert q[i] in q;
          var k :| 0 <= k < |p| && p[k] == q[i];
          assert s[k] == p[k];
        }
      }
    } else if s != [] {
      forall i, j | 0 <= i < j < |s| + 1 ensures DateLe((s + [x])[i].date, (s + [x])[j].date) {
        if j == |s| && i < |s| - 1 {
          DateLeTransitive(s[i].date, s[|s| - 1].date, x.date);
        }
      }
    }
  }

  /** The stable sort by date that `Array.prototype.sort` performs with the
      date comparator: an insertion sort, records with equal dates keeping
      their order (`SortByDateStable`). */
  function SortByDate(s: seq<Transaction>): seq<Transaction> {
    if s == [] then [] else InsertByDate(SortByDate(s[..|s| - 1]), s[|s| - 1])
  }

  /** The sorted list is ascending by date and holds exactly the records of
      the input, each as often as before. */
  lemma {:induction false} SortByDateCorrect(s: seq<Transaction>)
    ensures SortedByDate(SortByDate(s))
    ensures multiset(SortByDate(s)) == multiset(s) && |SortByDate(s)| == |s|
    decreases |s|
  {
    if s != [] {
      var p := s[..|s| - 1];
      var x := s[|s| - 1];
      var q := SortByDate(p);
      SortByDateCorrect(p);
      InsertByDateSorted(q, x);
      MultisetLast(s);
    }
  }

  /** The records of `s` dated `d`, in their order in `s`. */
  function OnDate(s: seq<Transaction>, d: Date): (r: seq<Transaction>)
    ensures |r| <= |s|
    ensures forall i :: 0 <= i < |r| ==> r[i].date == d
  {
    if s == [] then [] else OnDate(s[..|s| - 1], d) + (if s[|s| - 1].date == d then [s[|s| - 1]] else [])
  }

  lemma {:induction false} OnDateAppend(a: seq<Transaction>, b: seq<Transaction>, d: Date)
    ensures OnDate(a + b, d) == OnDate(a, d) + OnDate(b, d)
    decreases |b|
  {
    if b != [] {
      var q := b[..|b| - 1];
      assert (a + b)[..|a + b| - 1] == a + q;
      assert (a + b)[|a + b| - 1] == b[|b| - 1];
      OnDateAppend(a, q, d);
    } else {
      assert a + b == a;
    }
  }

  /** Inserting `x` leaves the records of every date in their order, with
      `x` after those of its own date. */
  lemma {:induction false} InsertByDateOnDate(s: seq<Transaction>, x: Transaction, d: Date)
    ensures OnDate(InsertByDate(s, x), d) == OnDate(s, d) + OnDate([x], d)
    decreases |s|
  {
    if s == [] {
      assert [x][..0] == [];
    } else if DateLe(s[|s| - 1].date, x.date) {
      OnDateAppend(s, [x], d);
    } else {
      var e := s[|s| - 1];
      var p := s[..|s| - 1];
      assert e.date != x.date;
      InsertByDateOnDate(p, x, d);
      OnDateAppend(InsertByDate(p, x), [e], d);
      OnDateAppend(p, [e], d);
      assert s == p + [e];
    }
  }

  /** The sort is stable: the records of any one date come out in the
      order they went in. */
  lemma {:induction false} SortByDateStable(s: seq<Transaction>, d: Date)
    ensures OnDate(SortByDate(s), d) == OnDate(s, d)
    decreases |s|
  {
    if s != [] {
      var p, x := s[..|s| - 1], s[|s| - 1];
      assert s == p + [x];
      calc {
        OnDate(SortByDate(s), d);
        OnDate(InsertByDate(SortByDate(p), x), d);
        { InsertByDateOnDate(SortByDate(p), x, d); }
        OnDate(SortByDate(p), d) + OnDate([x], d);
        { SortByDateStable(p, d); }
        OnDate(p, d) + OnDate([x], d);
        { OnDateAppend(p, [x], d); }
        OnDate(s, d);
      }
    }
  }

  /** Sorting a list that is already in date order leaves it as it is. */
  lemma {:induction false} SortByDateSortedUnchanged(s: seq<Transaction>)
    requires SortedByDate(s)
    ensures SortByDate(s) == s
    decreases |s|
  {
    if s != [] {
      var p := s[..|s| - 1];
      assert SortedByDate(p) by {
        forall i, j | 0 <= i < j < |p| ensures DateLe(p[i].date, p[j].date) {
          assert p[i] == s[i] && p[j] == s[j];
        }
      }
      SortByDateSortedUnchanged(p);
      if |p| > 0 {
        assert DateLe(p[|p| - 1].date, s[|s| - 1].date);
      }
      LastSplit(s);
    }
  }
}
