/** The "add transaction" page: a form with a title, an amount, a type, a
    date and a category, a list of custom key/value fields the user adds,
    edits and removes, and an optional proof file. Submitting flattens the
    custom fields into one key-to-value object and posts everything as a
    multipart form. */
module AddTransaction {
  import opened Common
  import opened Text
  import opened Calendar
  import opened Ledger
  import opened Store

  datatype CustomField = CustomField(key: string, value: string)

  /** The two inputs of a custom-field row (`event.target.name`). */
  datatype Part = KeyPart | ValuePart

  /** The standard inputs of the form. */
  datatype FormInput = TitleInput | AmountInput | TypeInput | DateInput | CategoryInput

  /** A pair the submit keeps: both its key and its value are filled in. */
  predicate Kept(f: CustomField) {
    f.key != "" && f.value != ""
  }

  /** The one key a plain object does not store as its own: assigning it
      reaches the prototype setter. */
  const ProtoKey := "__proto__"

  /** `obj[k] = v` on a plain object with a string `v`: the prototype
      setter ignores a string, so `"__proto__"` leaves the object as it was;
      any other key is set to `v`. */
  function Assign(obj: map<string, string>, k: string, v: string): (r: map<string, string>)
    ensures k != ProtoKey ==> r == obj[k := v]
    ensures k == ProtoKey ==> r == obj
  {
    if k == ProtoKey then obj else obj[k := v]
  }

  /** The object the submit builds from the rows, folding left to right. */
  function Flattened(fields: seq<CustomField>): map<string, string> {
    if fields == [] then map[]
    else
      var f := fields[|fields| - 1];
      var m := Flattened(fields[..|fields| - 1]);
      if Kept(f) then Assign(m, f.key, f.value) else m
  }

  /** The object's keys are exactly the keys of the kept pairs, except
      `"__proto__"`. */
  lemma {:induction false} FlattenedKeys(fields: seq<CustomField>)
    ensures forall k :: k in Flattened(fields) <==>
      k != ProtoKey && exists i :: 0 <= i < |fields| && Kept(fields[i]) && fields[i].key == k
    decreases |fields|
  {
    if fields != [] {
      var p := fields[..|fields| - 1];
      FlattenedKeys(p);
      forall k ensures k in Flattened(fields) <==>
        k != ProtoKey && exists i :: 0 <= i < |fields| && Kept(fields[i]) && fields[i].key == k
      {
        if k in Flattened(p) {
          var i :| 0 <= i < |p| && Kept(p[i]) && p[i].key == k;
          assert fields[i] == p[i];
        }
        if exists i :: 0 <= i < |fields| && Kept(fields[i]) && fields[i].key == k {
          var i :| 0 <= i < |fields| && Kept(fields[i]) && fields[i].key == k;
          if i < |p| {
            assert p[i] == fields[i];
          }
        }
      }
    }
  }

  /** A key takes the value of the last kept pair with that key: a later
      pair overwrites an earlier one. The key `"__proto__"` is never held. */
  lemma {:induction false} FlattenedLastWins(fields: seq<CustomField>, i: nat)
    requires i < |fields| && Kept(fields[i])
    requires forall j :: i < j < |fields| && Kept(fields[j]) ==> fields[j].key != fields[i].key
    ensures fields[i].key != ProtoKey ==>
      fields[i].key in Flattened(fields) && Flattened(fields)[fields[i].key] == fields[i].value
    ensures fields[i].key == ProtoKey ==> fields[i].key !in Flattened(fields)
    decreases |fields|
  {
    var p := fields[..|fields| - 1];
    if fields[i].key == ProtoKey {
      FlattenedKeys(fields);
    } else if i < |p| {
      assert p[i] == fields[i];
      FlattenedLastWins(p, i);
    }
  }

  /** A row left empty, such as the one "add field" appends, sends nothing. */
  lemma FlattenedIgnoresBlank(fields: seq<CustomField>, f: CustomField)
    requires !Kept(f)
    ensures Flattened(fields + [f]) == Flattened(fields)
  {
    assert (fields + [f])[..|fields|] == fields;
  }

  /** The `forEach` that fills `customFieldsObj`. */
  method Flatten(fields: seq<CustomField>) returns (obj: map<string, string>)
    ensures obj == Flattened(fields)
  {
    obj := map[];
    for i := 0 to |fields|
      invariant obj == Flattened(fields[..i])
    {
      assert fields[..i + 1][..i] == fields[..i];
      if fields[i].key != "" && fields[i].value != "" {
        obj := Assign(obj, fields[i].key, fields[i].value);
      }
    }
    assert fields[..|fields|] == fields;
  }

  /** The multipart form the submit posts. */
  datatype Payload = Payload(
    title: string, amount: string, kind: string, date: string, category: string,
    customFields: map<string, string>, proof: Option<Upload>)

  class AddTransactionForm {
    var title: string
    var amount: string
    var kind: string
    var date: string
    var category: string
    var customFields: seq<CustomField>
    var file: Option<Upload>
    var error: string
    var isSubmitting: bool

    /** The form as the page opens: an expense dated with the clock's
      reading `todayIso` (`new Date().toISOString().split('T')[0]`, which is
      `IsoDateString` of today), everything else empty. */
    constructor (todayIso: string)
      ensures title == "" && amount == "" && kind == "Expense" && category == ""
      ensures date == todayIso
      ensures customFields == [] && file.None? && error == "" && !isSubmitting
    {
      title, amount, kind, date, category := "", "", "Expense", todayIso, "";
      customFields, file, error, isSubmitting := [], None, "", false;
    }

    /** `handleInputChange`. */
    method Input(input: FormInput, value: string)
      modifies this
      ensures title == (if input == TitleInput then value else old(title))
      ensures amount == (if input == AmountInput then value else old(amount))
      ensures kind == (if input == TypeInput then value else old(kind))
      ensures date == (if input == DateInput then value else old(date))
      ensures category == (if input == CategoryInput then value else old(category))
      ensures customFields == old(customFields) && file == old(file)
      ensures error == old(error) && isSubmitting == old(isSubmitting)
    {
      match input {
        case TitleInput => title := value;
        case AmountInput => amount := value;
        case TypeInput => kind := value;
        case DateInput => date := value;
        case CategoryInput => category := value;
      }
    }

    /** `handleAddCustomField`: one more row, empty, at the end. */
    method AddCustomField()
      modifies this
      ensures customFields == old(customFields) + [CustomField("", "")]
      ensures title == old(title) && amount == old(amount) && kind == old(kind)
      ensures date == old(date) && category == old(category) && file == old(file)
      ensures error == old(error) && isSubmitting == old(isSubmitting)
    {
      customFields := customFields + [CustomField("", "")];
    }

    /** `handleCustomFieldChange` on the row at `index`, which the page
      renders: only the named part of that row changes. */
    method ChangeCustomField(index: nat, part: Part, value: string)
      requires index < |customFields|
      modifies this
      ensures |customFields| == |old(customFields)|
      ensures forall j :: 0 <= j < |customFields| && j != index ==> customFields[j] == old(customFields)[j]
      ensures customFields[index].key == (if part == KeyPart then value else old(customFields)[index].key)
      ensures customFields[index].value == (if part == ValuePart then value else old(customFields)[index].value)
      ensures title == old(title) && amount == old(amount) && kind == old(kind)
      ensures date == old(date) && category == old(category) && file == old(file)
      ensures error == old(error) && isSubmitting == old(isSubmitting)
    {
      var row := customFields[index];
      row := if part == KeyPart then row.(key := value) else row.(value := value);
      customFields := customFields[index := row];
    }

    /** `removeCustomField`: `splice(index, 1)` takes out the row at
      `index` and closes the gap; an index past the end removes nothing. */
    method RemoveCustomField(index: nat)
      modifies this
      ensures index < |old(customFields)| ==>
        customFields == old(customFields)[..index] + old(customFields)[index + 1..]
        && |customFields| == |old(customFields)| - 1
      ensures index >= |old(customFields)| ==> customFields == old(customFields)
      ensures title == old(title) && amount == old(amount) && kind == old(kind)
      ensures date == old(date) && category == old(category) && file == old(file)
      ensures error == old(error) && isSubmitting == old(isSubmitting)
    {
      if index < |customFields| {
        customFields := customFields[..index] + customFields[index + 1..];
      }
    }

    /** The file input. */
    method ChooseFile(f: Option<Upload>)
      modifies this
      ensures file == f
      ensures customFields == old(customFields) && title == old(title) && amount == old(amount)
      ensures kind == old(kind) && date == old(date) && category == old(category)
      ensures error == old(error) && isSubmitting == old(isSubmitting)
    {
      file := f;
    }

    /** `onSubmit` up to the request: the button is disabled, the error
      cleared, and the form posted with the flattened custom fields. */
    method Submit() returns (payload: Payload)
      modifies this
      ensures isSubmitting && error == ""
      ensures payload == Payload(title, amount, kind, date, category, Flattened(customFields), file)
      ensures customFields == old(customFields) && title == old(title) && amount == old(amount)
      ensures kind == old(kind) && date == old(date) && category == old(category) && file == old(file)
    {
      isSubmitting := true;
      error := "";
      var obj := Flatten(customFields);
      payload := Payload(title, amount, kind, date, category, obj, file);
    }

    /** The rest of `onSubmit` once `addTransaction` has answered. */
    method Finish(success: bool, msg: string) returns (navigate: bool)
      modifies this
      ensures navigate == success
      ensures success ==> error == old(error) && isSubmitting == old(isSubmitting)
      ensures !success ==> error == (if msg != "" then msg else "An error occurred adding the transaction.")
      ensures !success ==> !isSubmitting
      ensures customFields == old(customFields) && title == old(title) && amount == old(amount)
      ensures kind == old(kind) && date == old(date) && category == old(category) && file == old(file)
    {
      if success {
        return true;
      }
      error := if msg != "" then msg else "An error occurred adding the transaction.";
      isSubmitting := false;
      navigate := false;
    }
  }

  /** The fields of this form the create route reads: the date alone (the
      route reads none of title, amount, type, category or customFields). */
  function ServerBody(p: Payload): (b: Body)
    ensures b.date == Some(p.date)
  {
    EmptyBody.(date := Some(p.date))
  }

  /** Whatever the user typed, the record the route saves from this form has
      every amount at 0 and every text empty; only the date and the proof
      get through. */
  lemma FormRecordCarriesNoAmounts(p: Payload, id: Id, user: Id, date: Date, proof: Option<string>)
    ensures var t := Created(id, ServerBody(p), date, user, proof);
      && t.generalOffering == t.specialOffering == t.tithe == t.expenses == Num(0)
      && t.specialOfferingNames == t.titheNames == t.expenseDetails == t.remarks == ""
  {
    assert NumberOrZero(None) == 0;
  }

  /** The date the form opens with is saved as that day. */
  lemma InitialDateStored(today: Date, p: Payload, now: Date)
    requires ValidDate(today) && 0 <= today.year <= 9999
    requires p.date == IsoDateString(today)
    ensures PostDate(ServerBody(p), now) == Some(today)
  {
    IsoDateRoundTrip(today);
    assert |IsoDateString(today)| == 10;
  }
}
