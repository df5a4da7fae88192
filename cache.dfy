/** The client's cache of fetched records, shared by the pages: the list,
    the loading flag and the last fetch error, and how a fetch, a create,
    an update and a delete change them once the server has answered. */
module Cache {
  import opened Common
  import opened Ledger

  /** What the server answered a request with: the response data, or an
      error whose body may carry a `msg` (`""` when it carries none or the
      request never reached the server). */
  datatype Reply<T> = Ok(value: T) | Failed(msg: string)

  /** What `addTransaction`, `updateTransaction` and `deleteTransaction`
      return to the page. */
  datatype Outcome = Outcome(success: bool, msg: Option<string>)

  /** `err.response?.data?.msg || fallback`. */
  function ErrorMessage(msg: string, fallback: string): (r: string)
    ensures msg != "" ==> r == msg
    ensures msg == "" ==> r == fallback
  {
    if msg != "" then msg else fallback
  }

  /** `ts.map(t => t._id === id ? t' : t)`. */
  function ReplaceById(ts: seq<Transaction>, id: Id, t': Transaction): (r: seq<Transaction>)
    ensures |r| == |ts|
    ensures forall i :: 0 <= i < |ts| ==> r[i] == if ts[i].id == id then t' else ts[i]
  {
    if ts == [] then []
    else
      var p := ReplaceById(ts[..|ts| - 1], id, t');
      p + [if ts[|ts| - 1].id == id then t' else ts[|ts| - 1]]
  }

  /** Replacing a record no one has leaves the list as it is. */
  lemma ReplaceAbsent(ts: seq<Transaction>, id: Id, t': Transaction)
    requires forall t :: t in ts ==> t.id != id
    ensures ReplaceById(ts, id, t') == ts
  {
    var r := ReplaceById(ts, id, t');
    forall i | 0 <= i < |ts| ensures r[i] == ts[i] {
      assert ts[i] in ts;
    }
  }

  /** `ts.filter(t => t._id !== id)`. */
  function RemoveById(ts: seq<Transaction>, id: Id): (r: seq<Transaction>)
    ensures |r| <= |ts|
  {
    if ts == [] then [] else RemoveById(ts[..|ts| - 1], id) + (if ts[|ts| - 1].id != id then [ts[|ts| - 1]] else [])
  }

  /** Exactly the records without the id survive. */
  lemma {:induction false} RemoveByIdMembers(ts: seq<Transaction>, id: Id)
    ensures forall t :: t in RemoveById(ts, id) <==> t in ts && t.id != id
    decreases |ts|
  {
    if ts != [] {
      LastSplit(ts);
      RemoveByIdMembers(ts[..|ts| - 1], id);
    }
  }

  /** Removal keeps the survivors in their order: it works piece by piece. */
  lemma {:induction false} RemoveByIdAppend(a: seq<Transaction>, b: seq<Transaction>, id: Id)
    ensures RemoveById(a + b, id) == RemoveById(a, id) + RemoveById(b, id)
    decreases |b|
  {
    if b == [] {
      assert a + b == a;
    } else {
      var b', t := b[..|b| - 1], b[|b| - 1];
      AppendFront(a, b);
      RemoveByIdAppend(a, b', id);
      var keep := if t.id != id then [t] else [];
      assert RemoveById(a + b, id) == (RemoveById(a, id) + RemoveById(b', id)) + keep;
    }
  }

  /** Removing an id no record has changes nothing. */
  lemma {:induction false} RemoveAbsent(ts: seq<Transaction>, id: Id)
    requires forall t :: t in ts ==> t.id != id
    ensures RemoveById(ts, id) == ts
    decreases |ts|
  {
    if ts != [] {
      LastSplit(ts);
      RemoveAbsent(ts[..|ts| - 1], id);
    }
  }

  /** The list after a successful create: the old list with the new record,
      sorted by date, one longer. */
  lemma AddedList(ts: seq<Transaction>, t: Transaction)
    ensures SortedByDate(SortByDate(ts + [t]))
    ensures multiset(SortByDate(ts + [t])) == multiset(ts) + multiset{t}
    ensures |SortByDate(ts + [t])| == |ts| + 1
  {
    SortByDateCorrect(ts + [t]);
  }

  /** After replacing by id, the list holds the new record if some record
      had the id, and every record without the id, and nothing else. */
  lemma ReplaceByIdMembers(ts: seq<Transaction>, id: Id, t': Transaction)
    ensures forall x :: x in ReplaceById(ts, id, t') <==>
      (x == t' && exists i :: 0 <= i < |ts| && ts[i].id == id) || (x in ts && x.id != id)
  {
    var r := ReplaceById(ts, id, t');
    forall x ensures x in r <==>
      (x == t' && exists i :: 0 <= i < |ts| && ts[i].id == id) || (x in ts && x.id != id)
    {
      if x in ts && x.id != id {
        var i :| 0 <= i < |ts| && ts[i] == x;
        assert r[i] == x;
      }
      if x == t' && exists i :: 0 <= i < |ts| && ts[i].id == id {
        var i :| 0 <= i < |ts| && ts[i].id == id;
        assert r[i] == t';
      }
    }
  }

  /** The list after a successful update: sorted by date, as long as
      before, and holding the server's record in place of each record with
      the id and every other record as before. */
  lemma UpdatedList(ts: seq<Transaction>, id: Id, t': Transaction)
    ensures SortedByDate(SortByDate(ReplaceById(ts, id, t')))
    ensures |SortByDate(ReplaceById(ts, id, t'))| == |ts|
    ensures forall x :: x in SortByDate(ReplaceById(ts, id, t')) <==>
      (x == t' && exists i :: 0 <= i < |ts| && ts[i].id == id) || (x in ts && x.id != id)
  {
    var r := ReplaceById(ts, id, t');
    SortByDateCorrect(r);
    SameMembers(SortByDate(r), r);
    ReplaceByIdMembers(ts, id, t');
  }

  /** The records the pages share. */
  class TransactionProvider {
    var isAuthenticated: bool
    var transactions: seq<Transaction>
    var loading: bool
    var error: Option<string>

    constructor (authenticated: bool)
      ensures isAuthenticated == authenticated
      ensures transactions == [] && !loading && error == None
    {
      isAuthenticated := authenticated;
      transactions := [];
      loading := false;
      error := None;
    }

    /** The start of `fetchTransactions`: nothing happens without a signed-in
      user; otherwise the list is marked as loading and the request goes
      out (`started`). */
    method BeginFetch() returns (started: bool)
      modifies this
      ensures started == isAuthenticated
      ensures started ==> loading
      ensures !started ==> loading == old(loading)
      ensures isAuthenticated == old(isAuthenticated) && transactions == old(transactions) && error == old(error)
    {
      if !isAuthenticated {
        return false;
      }
      loading := true;
      started := true;
    }

    /** The end of `fetchTransactions`: the answer replaces the list and
      clears the error, or a failure keeps the list and records the server's
      message or "Error fetching transactions"; loading stops either way. */
    method FinishFetch(reply: Reply<seq<Transaction>>)
      modifies this
      ensures !loading && isAuthenticated == old(isAuthenticated)
      ensures reply.Ok? ==> transactions == reply.value && error == None
      ensures reply.Failed? ==> transactions == old(transactions)
      ensures reply.Failed? ==> error == Some(ErrorMessage(reply.msg, "Error fetching transactions"))
    {
      match reply {
        case Ok(data) =>
          transactions := data;
          error := None;
        case Failed(msg) =>
          error := Some(if msg != "" then msg else "Error fetching transactions");
      }
      loading := false;
    }

    /** `addTransaction` once the server has answered the POST. */
    method AddTransaction(reply: Reply<Transaction>) returns (out: Outcome)
      modifies this
      ensures reply.Ok? ==> transactions == SortByDate(old(transactions) + [reply.value])
      ensures reply.Ok? ==> out == Outcome(true, None)
      ensures reply.Failed? ==> transactions == old(transactions)
      ensures reply.Failed? ==> out == Outcome(false, Some(ErrorMessage(reply.msg, "Error adding transaction")))
      ensures isAuthenticated == old(isAuthenticated) && loading == old(loading) && error == old(error)
    {
      match reply
      case Ok(created) =>
        transactions := SortByDate(transactions + [created]);
        out := Outcome(true, None);
      case Failed(msg) =>
        out := Outcome(false, Some(if msg != "" then msg else "Error adding transaction"));
    }

    /** `updateTransaction(id, …)` once the server has answered the PUT. */
    method UpdateTransaction(id: Id, reply: Reply<Transaction>) returns (out: Outcome)
      modifies this
      ensures reply.Ok? ==> transactions == SortByDate(ReplaceById(old(transactions), id, reply.value))
      ensures reply.Ok? ==> out == Outcome(true, None)
      ensures reply.Failed? ==> transactions == old(transactions)
      ensures reply.Failed? ==> out == Outcome(false, Some(ErrorMessage(reply.msg, "Error updating transaction")))
      ensures isAuthenticated == old(isAuthenticated) && loading == old(loading) && error == old(error)
    {
      match reply
      case Ok(updated) =>
        transactions := SortByDate(ReplaceById(transactions, id, updated));
        out := Outcome(true, None);
      case Failed(msg) =>
        out := Outcome(false, Some(if msg != "" then msg else "Error updating transaction"));
    }

    /** `deleteTransaction(id)` once the server has answered the DELETE. */
    method DeleteTransaction(id: Id, reply: Reply<()>) returns (out: Outcome)
      modifies this
      ensures reply.Ok? ==> transactions == RemoveById(old(transactions), id)
      ensures reply.Ok? ==> out == Outcome(true, None)
      ensures reply.Failed? ==> transactions == old(transactions)
      ensures reply.Failed? ==> out == Outcome(false, Some(ErrorMessage(reply.msg, "Error deleting transaction")))
      ensures isAuthenticated == old(isAuthenticated) && loading == old(loading) && error == old(error)
    {
      match reply
      case Ok(_) =>
        transactions := RemoveById(transactions, id);
        out := Outcome(true, None);
      case Failed(msg) =>
        out := Outcome(false, Some(if msg != "" then msg else "Error deleting transaction"));
    }

    /** The sign-in state changed: signed in, a fetch with no parameters is
      due (`fetch`); signed out, the list is emptied. */
    method AuthChanged(authenticated: bool) returns (fetch: bool)
      modifies this
      ensures isAuthenticated == authenticated && fetch == authenticated
      ensures !authenticated ==> transactions == []
      ensures authenticated ==> transactions == old(transactions)
      ensures loading == old(loading) && error == old(error)
    {
      isAuthenticated := authenticated;
      if !authenticated {
        transactions := [];
      }
      fetch := authenticated;
    }
  }
}
