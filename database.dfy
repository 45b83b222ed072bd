// The transaction store: record validation, the persons / transactions /
// budgets tables held in memory, single and bulk insertion with their
// budget and person-balance bookkeeping, and the transaction listing.

module Database {
  import opened Wrappers
  import Sorting

  // ---------------------------------------------------------------------
  // Records and tables

  /** An amount as supplied: a number, or a value of some other type. */
  datatype Amount = Number(value: real) | NotNumber

  /** A transaction as handed to the store: every key may be absent (or
      None). `date` is a day number. */
  datatype TxInput = TxInput(
    date: Option<int>, description: Option<string>, amount: Option<Amount>,
    mainCategory: Option<string>, subCategory: Option<string>, txType: Option<string>,
    currency: Option<string>, person: Option<string>, group: Option<string>, splitRatio: Option<real>)

  /** A transaction that passed validation, with defaults filled in. */
  datatype Record = Record(
    date: int, description: string, amount: real, currency: string,
    mainCategory: string, subCategory: string, txType: string,
    person: Option<string>, group: Option<string>, splitRatio: real)

  datatype Person = Person(id: nat, name: string, totalOwed: real)

  datatype Row = Row(
    id: nat, date: int, description: string, amount: real, currency: string,
    mainCategory: string, subCategory: string, txType: string,
    personId: Option<nat>, group: Option<string>, splitRatio: real)

  datatype Budget = Budget(monthlyLimit: real, currentSpending: real)

  datatype Tables = Tables(persons: seq<Person>, transactions: seq<Row>, budgets: map<string, Budget>)

  const RequiredFields: seq<string> := ["date", "description", "amount", "main_category", "sub_category", "type"]
  const AmountMessage := "Amount must be a positive number"
  const TypeMessage := "Type must be 'income' or 'expense'"
  const DefaultCurrency := "INR"

  // ---------------------------------------------------------------------
  // Validation

  predicate Has(t: TxInput, field: string) {
    match field
    case "date" => t.date.Some?
    case "description" => t.description.Some?
    case "amount" => t.amount.Some?
    case "main_category" => t.mainCategory.Some?
    case "sub_category" => t.subCategory.Some?
    case "type" => t.txType.Some?
    case _ => true
  }

  /** The first required field, in the source's order, that is missing. */
  function MissingFrom(t: TxInput, i: nat): Option<string>
    requires i <= |RequiredFields|
    decreases |RequiredFields| - i
  {
    if i == |RequiredFields| then None
    else if !Has(t, RequiredFields[i]) then Some(RequiredFields[i])
    else MissingFrom(t, i + 1)
  }

  predicate Complete(t: TxInput) {
    t.date.Some? && t.description.Some? && t.amount.Some? &&
    t.mainCategory.Some? && t.subCategory.Some? && t.txType.Some?
  }

  function ToRecord(t: TxInput): Record
    requires Complete(t) && t.amount.value.Number?
  {
    Record(t.date.value, t.description.value, t.amount.value.value,
           if t.currency.Some? then t.currency.value else DefaultCurrency,
           t.mainCategory.value, t.subCategory.value, t.txType.value,
           t.person, t.group, if t.splitRatio.Some? then t.splitRatio.value else 1.0)
  }

  function Validate(t: TxInput): Result<Record> {
    match MissingFrom(t, 0)
    case Some(field) => Err("Missing required field: " + field)
    case None =>
      MissingMeansIncomplete(t, 0);
      if t.amount.value.NotNumber? || t.amount.value.value <= 0.0 then Err(AmountMessage)
      else if t.txType.value != "income" && t.txType.value != "expense" then Err(TypeMessage)
      else Ok(ToRecord(t))
  }

  lemma {:induction false} MissingMeansIncomplete(t: TxInput, i: nat)
    requires i <= |RequiredFields|
    requires forall j :: 0 <= j < i ==> Has(t, RequiredFields[j])
    ensures MissingFrom(t, i).None? <==> Complete(t)
    ensures MissingFrom(t, i).Some? ==> !Has(t, MissingFrom(t, i).value)
    decreases |RequiredFields| - i
  {
    CompleteMeansAllFields(t);
    if i < |RequiredFields| && Has(t, RequiredFields[i]) {
      MissingMeansIncomplete(t, i + 1);
    }
  }

  lemma CompleteMeansAllFields(t: TxInput)
    ensures Complete(t) <==> forall j :: 0 <= j < |RequiredFields| ==> Has(t, RequiredFields[j])
  {
    assert RequiredFields[0] == "date" && RequiredFields[1] == "description" && RequiredFields[2] == "amount";
    assert RequiredFields[3] == "main_category" && RequiredFields[4] == "sub_category" && RequiredFields[5] == "type";
  }

  /** A record is accepted exactly when all six fields are present, the
      amount is a positive number and the type is income or expense; the
      accepted record keeps the input's fields, with currency INR and split
      ratio 1 when absent. */
  lemma ValidateMeaning(t: TxInput)
    ensures Validate(t).Ok? <==>
      Complete(t) && t.amount.value.Number? && t.amount.value.value > 0.0 &&
      (t.txType.value == "income" || t.txType.value == "expense")
    ensures !Complete(t) ==> Validate(t) == Err("Missing required field: " + MissingFrom(t, 0).value)
    ensures Validate(t).Ok? ==>
      var r := Validate(t).value;
      r.date == t.date.value && r.description == t.description.value &&
      r.amount == t.amount.value.value && r.amount > 0.0 &&
      r.mainCategory == t.mainCategory.value && r.subCategory == t.subCategory.value &&
      r.txType == t.txType.value && r.person == t.person && r.group == t.group &&
      (t.currency.None? ==> r.currency == DefaultCurrency) &&
      (t.splitRatio.None? ==> r.splitRatio == 1.0)
  {
    MissingMeansIncomplete(t, 0);
  }

  /** The missing-field loop of `_validate_transaction`. */
  method ValidateTransaction(t: TxInput) returns (r: Result<Record>)
    ensures r == Validate(t)
  {
    var i := 0;
    while i < |RequiredFields|
      invariant 0 <= i <= |RequiredFields|
      invariant forall j :: 0 <= j < i ==> Has(t, RequiredFields[j])
      invariant MissingFrom(t, 0) == MissingFrom(t, i)
    {
      if !Has(t, RequiredFields[i]) {
        return Err("Missing required field: " + RequiredFields[i]);
      }
      i := i + 1;
    }
    MissingMeansIncomplete(t, 0);
    if t.amount.value.NotNumber? || t.amount.value.value <= 0.0 {
      return Err(AmountMessage);
    }
    if t.txType.value != "income" && t.txType.value != "expense" {
      return Err(TypeMessage);
    }
    return Ok(ToRecord(t));
  }

  // ---------------------------------------------------------------------
  // The SQL statements, as functions of the tables

  /** A person name links a person only when it is present and non-empty. */
  predicate Named(name: Option<string>) {
    name.Some? && name.value != ""
  }

  function IndexOfName(persons: seq<Person>, name: string): (r: Option<nat>)
    ensures r.Some? ==> r.value < |persons| && persons[r.value].name == name
    ensures r.None? ==> forall i :: 0 <= i < |persons| ==> persons[i].name != name
  {
    if |persons| == 0 then None
    else
      match IndexOfName(persons[..|persons| - 1], name)
      case Some(i) => Some(i)
      case None => if persons[|persons| - 1].name == name then Some(|persons| - 1) else None
  }

  /** INSERT OR IGNORE INTO persons (name): a new name gets the next id and
      a zero balance. */
  function LinkPerson(persons: seq<Person>, name: Option<string>): seq<Person> {
    if !Named(name) || IndexOfName(persons, name.value).Some? then persons
    else persons + [Person(|persons| + 1, name.value, 0.0)]
  }

  /** SELECT person_id FROM persons WHERE name = ?. */
  function PersonIdOf(persons: seq<Person>, name: Option<string>): Option<nat> {
    if !Named(name) then None
    else
      match IndexOfName(persons, name.value)
      case Some(i) => Some(persons[i].id)
      case None => None
  }

  /** An expense adds to what the person owes, income subtracts. */
  function Signed(amount: real, txType: string): real {
    if txType == "expense" then amount else -amount
  }

  /** UPDATE persons SET total_owed = total_owed + delta WHERE name = ?. */
  function Settle(persons: seq<Person>, name: string, delta: real): (r: seq<Person>)
    ensures |r| == |persons|
  {
    seq(|persons|, i requires 0 <= i < |persons| =>
      if persons[i].name == name then persons[i].(totalOwed := persons[i].totalOwed + delta) else persons[i])
  }

  /** INSERT OR IGNORE INTO budgets with limit 0, then add to the spending. */
  function Charge(budgets: map<string, Budget>, category: string, amount: real): map<string, Budget> {
    var b := if category in budgets then budgets[category] else Budget(0.0, 0.0);
    budgets[category := b.(currentSpending := b.currentSpending + amount)]
  }

  function RowOf(id: nat, r: Record, personId: Option<nat>): Row {
    Row(id, r.date, r.description, r.amount, r.currency, r.mainCategory, r.subCategory,
        r.txType, personId, r.group, r.splitRatio)
  }

  /** The bookkeeping after a record is inserted: the budget of an expense,
      then the balance of a named person. */
  function Apply(db: Tables, r: Record): Tables {
    Tables(
      if Named(r.person) then Settle(db.persons, r.person.value, Signed(r.amount, r.txType)) else db.persons,
      db.transactions,
      if r.txType == "expense" then Charge(db.budgets, r.mainCategory, r.amount) else db.budgets)
  }

  /** add_transaction after validation. */
  function Store(db: Tables, r: Record): Tables {
    var persons := LinkPerson(db.persons, r.person);
    var row := RowOf(|db.transactions| + 1, r, PersonIdOf(persons, r.person));
    Apply(Tables(persons, db.transactions + [row], db.budgets), r)
  }

  function AddSpec(db: Tables, t: TxInput): Result<Tables> {
    match Validate(t)
    case Err(m) => Err(m)
    case Ok(r) => Ok(Store(db, r))
  }

  // ---------------------------------------------------------------------
  // Bulk insertion

  /** Every item is validated before anything is written; the first
      failure is the error. */
  function ValidateAll(ts: seq<TxInput>): Result<seq<Record>> {
    if |ts| == 0 then Ok([])
    else
      match ValidateAll(ts[..|ts| - 1])
      case Err(m) => Err(m)
      case Ok(rs) =>
        match Validate(ts[|ts| - 1])
        case Err(m) => Err(m)
        case Ok(r) => Ok(rs + [r])
  }

  function LinkAll(persons: seq<Person>, rs: seq<Record>): seq<Person> {
    if |rs| == 0 then persons else LinkPerson(LinkAll(persons, rs[..|rs| - 1]), rs[|rs| - 1].person)
  }

  /** The duplicate key of a stored row or an incoming record. */
  datatype Key = Key(date: int, description: string, amount: real)

  function RowKey(row: Row): Key { Key(row.date, row.description, row.amount) }
  function RecordKey(r: Record): Key { Key(r.date, r.description, r.amount) }

  function Keys(rows: seq<Row>): set<Key> {
    set i | 0 <= i < |rows| :: RowKey(rows[i])
  }

  /** The records whose key is not already stored, in order; duplicates
      inside the batch are kept. */
  function Fresh(rs: seq<Record>, existing: set<Key>): seq<Record> {
    if |rs| == 0 then []
    else Fresh(rs[..|rs| - 1], existing) + (if RecordKey(rs[|rs| - 1]) in existing then [] else [rs[|rs| - 1]])
  }

  function RowsFor(rs: seq<Record>, firstId: nat, persons: seq<Person>): (rows: seq<Row>)
    ensures |rows| == |rs|
  {
    seq(|rs|, i requires 0 <= i < |rs| => RowOf(firstId + i, rs[i], PersonIdOf(persons, rs[i].person)))
  }

  function ApplyAll(db: Tables, rs: seq<Record>): Tables {
    if |rs| == 0 then db else Apply(ApplyAll(db, rs[..|rs| - 1]), rs[|rs| - 1])
  }

  /** The tables after the bulk insert, and how many rows it stored. */
  function BulkSpec(db: Tables, ts: seq<TxInput>): Result<(Tables, nat)> {
    match ValidateAll(ts)
    case Err(m) => Err(m)
    case Ok(rs) =>
      var persons := LinkAll(db.persons, rs);
      var added := Fresh(rs, Keys(db.transactions));
      if |added| == 0 then Ok((db.(persons := persons), 0))
      else
        var rows := RowsFor(added, |db.transactions| + 1, persons);
        Ok((ApplyAll(Tables(persons, db.transactions + rows, db.budgets), added), |added|))
  }

  // ---------------------------------------------------------------------
  // Listing

  /** A listed transaction with the name of its person (LEFT JOIN). */
  datatype Listed = Listed(row: Row, name: Option<string>)

  function NameOf(persons: seq<Person>, id: Option<nat>): Option<string> {
    if id.None? || |persons| == 0 then None
    else if persons[0].id == id.value then Some(persons[0].name)
    else NameOf(persons[1..], id)
  }

  /** WHERE type = ? when a non-empty type is given. */
  function OfType(rows: seq<Row>, txType: Option<string>): seq<Row> {
    if |rows| == 0 then []
    else
      OfType(rows[..|rows| - 1], txType) +
      (if txType.Some? && txType.value != "" && rows[|rows| - 1].txType != txType.value then [] else [rows[|rows| - 1]])
  }

  /** ORDER BY date DESC as an ascending sort on the negated date. */
  const ByDateDescending: Row -> real := (r: Row) => -(r.date as real)

  function Query(db: Tables, txType: Option<string>): seq<Listed> {
    var rows := Sorting.Sort(ByDateDescending, OfType(db.transactions, txType));
    seq(|rows|, i requires 0 <= i < |rows| => Listed(rows[i], NameOf(db.persons, rows[i].personId)))
  }

  // ---------------------------------------------------------------------
  // The invariant of the tables

  /** What the expenses stored under a category add up to. */
  function SpentOn(rows: seq<Row>, category: string): real {
    if |rows| == 0 then 0.0
    else
      var last := rows[|rows| - 1];
      SpentOn(rows[..|rows| - 1], category) +
      (if last.txType == "expense" && last.mainCategory == category then last.amount else 0.0)
  }

  /** What the rows linked to person `id` add up to, expenses positive and
      income negative. */
  function OwedBy(rows: seq<Row>, id: nat): real {
    if |rows| == 0 then 0.0
    else
      var last := rows[|rows| - 1];
      OwedBy(rows[..|rows| - 1], id) + (if last.personId == Some(id) then Signed(last.amount, last.txType) else 0.0)
  }

  predicate PersonsWellFormed(persons: seq<Person>) {
    (forall i :: 0 <= i < |persons| ==> persons[i].id == i + 1 && persons[i].name != "") &&
    (forall i, j :: 0 <= i < j < |persons| ==> persons[i].name != persons[j].name)
  }

  predicate RowsWellFormed(rows: seq<Row>, people: nat) {
    forall i :: 0 <= i < |rows| ==>
      rows[i].id == i + 1 && rows[i].amount > 0.0 &&
      (rows[i].txType == "income" || rows[i].txType == "expense") &&
      (rows[i].personId.Some? ==> 1 <= rows[i].personId.value <= people)
  }

  /** Budgets record exactly the stored expenses of their category, and
      every person's balance is the signed sum of their rows. */
  predicate Ledger(db: Tables) {
    (forall c :: c in db.budgets ==> db.budgets[c] == Budget(0.0, SpentOn(db.transactions, c))) &&
    (forall i :: 0 <= i < |db.transactions| && db.transactions[i].txType == "expense" ==>
       db.transactions[i].mainCategory in db.budgets) &&
    (forall i :: 0 <= i < |db.persons| ==> db.persons[i].totalOwed == OwedBy(db.transactions, i + 1))
  }

  predicate WellFormed(db: Tables) {
    PersonsWellFormed(db.persons) && RowsWellFormed(db.transactions, |db.persons|) && Ledger(db)
  }

  // ---------------------------------------------------------------------
  // The store

  class TransactionStore {
    var persons: seq<Person>
    var transactions: seq<Row>
    var budgets: map<string, Budget>

    function Contents(): Tables
      reads this
    {
      Tables(persons, transactions, budgets)
    }

    ghost predicate Valid()
      reads this
    {
      WellFormed(Contents())
    }

    constructor()
      ensures Contents() == Tables([], [], map[])
      ensures Valid()
    {
      persons := [];
      transactions := [];
      budgets := map[];
    }

    /** _get_person_id. */
    method GetPersonId(name: Option<string>) returns (id: Option<nat>)
      modifies this
      ensures persons == LinkPerson(old(persons), name)
      ensures transactions == old(transactions) && budgets == old(budgets)
      ensures id == PersonIdOf(persons, name)
    {
      if name.None? || name.value == "" {
        return None;
      }
      if IndexOfName(persons, name.value).None? {
        persons := persons + [Person(|persons| + 1, name.value, 0.0)];
      }
      id := PersonIdOf(persons, name);
    }

    /** _update_budget, without the date-driven reset. */
    method UpdateBudget(category: string, amount: real)
      modifies this
      ensures budgets == Charge(old(budgets), category, amount)
      ensures persons == old(persons) && transactions == old(transactions)
    {
      if category !in budgets {
        budgets := budgets[category := Budget(0.0, 0.0)];
      }
      budgets := budgets[category := budgets[category].(currentSpending := budgets[category].currentSpending + amount)];
    }

    /** _update_person_balance. */
    method UpdatePersonBalance(name: string, amount: real, txType: string)
      modifies this
      ensures persons == Settle(old(persons), name, Signed(amount, txType))
      ensures transactions == old(transactions) && budgets == old(budgets)
    {
      var modifier := if txType == "expense" then 1.0 else -1.0;
      persons := Settle(persons, name, amount * modifier);
    }

    /** add_transaction: nothing is written unless the record validates. */
    method AddTransaction(t: TxInput) returns (r: Result<nat>)
      requires Valid()
      modifies this
      ensures Valid()
      ensures AddSpec(old(Contents()), t).Err? ==>
        r == Err(AddSpec(old(Contents()), t).message) && Contents() == old(Contents())
      ensures AddSpec(old(Contents()), t).Ok? ==>
        r == Ok(1) && Contents() == AddSpec(old(Contents()), t).value
    {
      var v := ValidateTransaction(t);
      if v.Err? {
        return Err(v.message);
      }
      var rec := v.value;
      var personId := GetPersonId(rec.person);
      transactions := transactions + [RowOf(|transactions| + 1, rec, personId)];
      if rec.txType == "expense" {
        UpdateBudget(rec.mainCategory, rec.amount);
      }
      if rec.person.Some? && rec.person.value != "" {
        UpdatePersonBalance(rec.person.value, rec.amount, rec.txType);
      }
      AddKeepsWellFormed(old(Contents()), t);
      return Ok(1);
    }

    /** bulk_add_transactions: validate every item, pre-insert the persons,
        drop the items already stored, insert the rest, then update budgets
        and balances. */
    method BulkAddTransactions(ts: seq<TxInput>) returns (r: Result<nat>)
      requires Valid()
      modifies this
      ensures Valid()
      ensures BulkSpec(old(Contents()), ts).Err? ==>
        r == Err(BulkSpec(old(Contents()), ts).message) && Contents() == old(Contents())
      ensures BulkSpec(old(Contents()), ts).Ok? ==>
        r == Ok(BulkSpec(old(Contents()), ts).value.1) && Contents() == BulkSpec(old(Contents()), ts).value.0
    {
      var v := ValidateBatch(ts);
      if v.Err? {
        return Err(v.message);
      }
      var rs := v.value;
      LinkBatch(rs);
      var existing := ExistingKeys();
      var added := FreshRecords(rs, existing);
      if |added| == 0 {
        BulkKeepsWellFormed(old(Contents()), ts);
        return Ok(0);
      }
      InsertRows(added);
      ApplyBatch(added);
      BulkKeepsWellFormed(old(Contents()), ts);
      return Ok(|added|);
    }

    /** The validation loop of bulk_add_transactions: nothing is written. */
    method ValidateBatch(ts: seq<TxInput>) returns (r: Result<seq<Record>>)
      ensures r == ValidateAll(ts)
    {
      var rs: seq<Record> := [];
      var i := 0;
      while i < |ts|
        invariant 0 <= i <= |ts|
        invariant ValidateAll(ts[..i]) == Ok(rs)
      {
        var v := ValidateTransaction(ts[i]);
        assert ts[..i + 1][..i] == ts[..i];
        if v.Err? {
          ValidateAllStops(ts, i + 1);
          return Err(v.message);
        }
        rs := rs + [v.value];
        i := i + 1;
      }
      assert ts[..i] == ts;
      return Ok(rs);
    }

    /** The person pre-insertion loop. */
    method LinkBatch(rs: seq<Record>)
      modifies this
      ensures persons == LinkAll(old(persons), rs)
      ensures transactions == old(transactions) && budgets == old(budgets)
    {
      var i := 0;
      while i < |rs|
        invariant 0 <= i <= |rs|
        invariant persons == LinkAll(old(persons), rs[..i])
        invariant transactions == old(transactions) && budgets == old(budgets)
      {
        assert rs[..i + 1][..i] == rs[..i];
        if rs[i].person.Some? && rs[i].person.value != "" {
          var _ := GetPersonId(rs[i].person);
        }
        i := i + 1;
      }
      assert rs[..i] == rs;
    }

    /** SELECT date, description, amount FROM transactions, as a set. */
    method ExistingKeys() returns (existing: set<Key>)
      ensures existing == Keys(transactions)
    {
      existing := {};
      var i := 0;
      while i < |transactions|
        invariant 0 <= i <= |transactions|
        invariant existing == Keys(transactions[..i])
      {
        existing := existing + {RowKey(transactions[i])};
        i := i + 1;
        KeysGrow(transactions, i);
      }
      assert transactions[..i] == transactions;
    }

    /** The duplicate filter over the batch. */
    static method FreshRecords(rs: seq<Record>, existing: set<Key>) returns (added: seq<Record>)
      ensures added == Fresh(rs, existing)
    {
      added := [];
      var i := 0;
      while i < |rs|
        invariant 0 <= i <= |rs|
        invariant added == Fresh(rs[..i], existing)
      {
        assert rs[..i + 1][..i] == rs[..i];
        if RecordKey(rs[i]) !in existing {
          added := added + [rs[i]];
        }
        i := i + 1;
      }
      assert rs[..i] == rs;
    }

    /** The executemany insert of the new items. */
    method InsertRows(added: seq<Record>)
      modifies this
      ensures transactions == old(transactions) + RowsFor(added, |old(transactions)| + 1, persons)
      ensures persons == old(persons) && budgets == old(budgets)
    {
      var firstId := |transactions| + 1;
      var i := 0;
      while i < |added|
        invariant 0 <= i <= |added|
        invariant transactions == old(transactions) + RowsFor(added[..i], firstId, persons)
        invariant persons == old(persons) && budgets == old(budgets)
      {
        var row := RowOf(firstId + i, added[i], PersonIdOf(persons, added[i].person));
        assert RowsFor(added[..i + 1], firstId, persons) == RowsFor(added[..i], firstId, persons) + [row];
        transactions := transactions + [row];
        i := i + 1;
      }
      assert added[..i] == added;
    }

    /** The budget and balance updates for the new items. */
    method ApplyBatch(added: seq<Record>)
      modifies this
      ensures Contents() == ApplyAll(old(Contents()), added)
    {
      var i := 0;
      while i < |added|
        invariant 0 <= i <= |added|
        invariant Contents() == ApplyAll(old(Contents()), added[..i])
      {
        assert added[..i + 1][..i] == added[..i];
        if added[i].txType == "expense" {
          UpdateBudget(added[i].mainCategory, added[i].amount);
        }
        if added[i].person.Some? && added[i].person.value != "" {
          UpdatePersonBalance(added[i].person.value, added[i].amount, added[i].txType);
        }
        i := i + 1;
      }
      assert added[..i] == added;
    }

    /** get_transactions, without the days_back window. */
    method GetTransactions(txType: Option<string>) returns (listed: seq<Listed>)
      requires Valid()
      ensures listed == Query(Contents(), txType)
      ensures forall i, j :: 0 <= i < j < |listed| ==> listed[i].row.date >= listed[j].row.date
      ensures multiset(seq(|listed|, i requires 0 <= i < |listed| => listed[i].row)) ==
              multiset(OfType(transactions, txType))
      ensures forall i :: 0 <= i < |listed| ==>
        (txType.None? || txType.value == "" || listed[i].row.txType == txType.value) &&
        if listed[i].row.personId.Some? then
          1 <= listed[i].row.personId.value <= |persons| &&
          listed[i].name == Some(persons[listed[i].row.personId.value - 1].name)
        else listed[i].name.None?
    {
      listed := Query(Contents(), txType);
      QueryMeaning(Contents(), txType);
    }
  }

  /** The first invalid item decides the error of the whole batch. */
  lemma {:induction false} ValidateAllStops(ts: seq<TxInput>, n: nat)
    requires 0 < n <= |ts|
    requires ValidateAll(ts[..n - 1]).Ok? && Validate(ts[n - 1]).Err?
    ensures ValidateAll(ts) == Err(Validate(ts[n - 1]).message)
    decreases |ts|
  {
    var init := ts[..|ts| - 1];
    if n < |ts| {
      assert init[..n - 1] == ts[..n - 1];
      assert init[n - 1] == ts[n - 1];
      ValidateAllStops(init, n);
    } else {
      assert ts[..n - 1] == init;
    }
  }

  lemma KeysGrow(rows: seq<Row>, i: nat)
    requires 0 < i <= |rows|
    ensures Keys(rows[..i]) == Keys(rows[..i - 1]) + {RowKey(rows[i - 1])}
  {
    var a := rows[..i];
    var b := rows[..i - 1];
    forall k | k in Keys(a) ensures k in Keys(b) + {RowKey(rows[i - 1])} {
      var j :| 0 <= j < |a| && RowKey(a[j]) == k;
      if j < i - 1 {
        assert a[j] == b[j];
      }
    }
    forall k | k in Keys(b) ensures k in Keys(a) {
      var j :| 0 <= j < |b| && RowKey(b[j]) == k;
      assert a[j] == b[j];
    }
    assert RowKey(a[i - 1]) in Keys(a);
  }

  // ---------------------------------------------------------------------
  // Validation of a batch

  /** A stored record has a positive amount and one of the two types. */
  predicate Accepted(r: Record) {
    r.amount > 0.0 && (r.txType == "income" || r.txType == "expense")
  }

  /** A batch validates exactly when every item does, and then yields the
      items' records in order; otherwise the error is that of the first
      item that fails. */
  lemma {:induction false} ValidateAllMeaning(ts: seq<TxInput>)
    ensures ValidateAll(ts).Ok? <==> forall i :: 0 <= i < |ts| ==> Validate(ts[i]).Ok?
    ensures ValidateAll(ts).Ok? ==>
      |ValidateAll(ts).value| == |ts| &&
      forall i :: 0 <= i < |ts| ==> ValidateAll(ts).value[i] == Validate(ts[i]).value
    ensures ValidateAll(ts).Err? ==>
      (exists i :: 0 <= i < |ts| && Validate(ts[i]).Err? &&
         ValidateAll(ts) == Err(Validate(ts[i]).message) && forall j :: 0 <= j < i ==> Validate(ts[j]).Ok?)
  {
    if |ts| > 0 {
      var n := |ts| - 1;
      var init := ts[..n];
      ValidateAllMeaning(init);
      assert forall i :: 0 <= i < n ==> init[i] == ts[i];
      if ValidateAll(init).Err? {
        var i :| 0 <= i < n && Validate(init[i]).Err? && ValidateAll(init) == Err(Validate(init[i]).message) &&
          forall j :: 0 <= j < i ==> Validate(init[j]).Ok?;
        assert ValidateAll(ts) == Err(Validate(ts[i]).message);
      } else if Validate(ts[n]).Err? {
        assert ValidateAll(ts) == Err(Validate(ts[n]).message);
      }
    }
  }

  lemma ValidatedAccepted(ts: seq<TxInput>)
    requires ValidateAll(ts).Ok?
    ensures forall r :: r in ValidateAll(ts).value ==> Accepted(r)
  {
    ValidateAllMeaning(ts);
    forall r | r in ValidateAll(ts).value ensures Accepted(r) {
      var i :| 0 <= i < |ValidateAll(ts).value| && ValidateAll(ts).value[i] == r;
      ValidateMeaning(ts[i]);
    }
  }

  // ---------------------------------------------------------------------
  // Persons

  /** Some person already carries the name. */
  predicate Known(persons: seq<Person>, name: string) {
    exists i :: 0 <= i < |persons| && persons[i].name == name
  }

  /** Linking only ever appends a fresh person with a zero balance, and the
      name is known afterwards; an empty or absent name links no one, a known
      name reuses its row, and only an unknown name adds one, with the next id. */
  lemma LinkPersonFacts(persons: seq<Person>, name: Option<string>)
    requires PersonsWellFormed(persons)
    ensures var p := LinkPerson(persons, name);
      PersonsWellFormed(p) && |persons| <= |p| <= |persons| + 1 && p[..|persons|] == persons &&
      (forall i :: |persons| <= i < |p| ==> p[i].totalOwed == 0.0) &&
      (Named(name) ==> Known(p, name.value)) &&
      (forall n :: Known(persons, n) ==> Known(p, n)) &&
      (!Named(name) || Known(persons, name.value) ==> p == persons) &&
      (Named(name) && !Known(persons, name.value) ==> p == persons + [Person(|persons| + 1, name.value, 0.0)])
  {
    var p := LinkPerson(persons, name);
    if Named(name) {
      var r := IndexOfName(persons, name.value);
      if r.Some? {
        assert p[r.value].name == name.value;
      } else {
        assert p[|persons|].name == name.value;
      }
    }
    forall n | Known(persons, n) ensures Known(p, n) {
      var i :| 0 <= i < |persons| && persons[i].name == n;
      assert p[i] == persons[i];
    }
  }

  lemma LinkAllFacts(persons: seq<Person>, rs: seq<Record>)
    requires PersonsWellFormed(persons)
    ensures var p := LinkAll(persons, rs);
      PersonsWellFormed(p) && |persons| <= |p| && p[..|persons|] == persons &&
      (forall i :: |persons| <= i < |p| ==> p[i].totalOwed == 0.0) &&
      (forall r :: r in rs && Named(r.person) ==> Known(p, r.person.value)) &&
      (forall n :: Known(persons, n) ==> Known(p, n))
  {
    LinkAllExtends(persons, rs);
    LinkAllKnowsBatch(persons, rs);
  }

  /** Pre-creating persons only appends fresh zero-balance rows. */
  lemma {:induction false} LinkAllExtends(persons: seq<Person>, rs: seq<Record>)
    requires PersonsWellFormed(persons)
    ensures var p := LinkAll(persons, rs);
      PersonsWellFormed(p) && |persons| <= |p| && p[..|persons|] == persons &&
      (forall i :: |persons| <= i < |p| ==> p[i].totalOwed == 0.0) &&
      (forall n :: Known(persons, n) ==> Known(p, n))
  {
    if |rs| > 0 {
      var n := |rs| - 1;
      var q := LinkAll(persons, rs[..n]);
      LinkAllExtends(persons, rs[..n]);
      LinkPersonFacts(q, rs[n].person);
      var p := LinkAll(persons, rs);
      assert p[..|persons|] == persons by {
        assert p[..|q|] == q;
        assert p[..|persons|] == q[..|persons|];
      }
    }
  }

  /** Every named person of the batch is known afterwards. */
  lemma {:induction false} LinkAllKnowsBatch(persons: seq<Person>, rs: seq<Record>)
    requires PersonsWellFormed(persons)
    ensures forall i :: 0 <= i < |rs| && Named(rs[i].person) ==> Known(LinkAll(persons, rs), rs[i].person.value)
  {
    if |rs| > 0 {
      var n := |rs| - 1;
      var q := LinkAll(persons, rs[..n]);
      LinkAllKnowsBatch(persons, rs[..n]);
      LinkAllExtends(persons, rs[..n]);
      LinkPersonFacts(q, rs[n].person);
      assert forall i :: 0 <= i < n ==> rs[..n][i] == rs[i];
    }
  }

  /** Re-linking names that are all known changes nothing. */
  lemma {:induction false} LinkAllKnown(persons: seq<Person>, rs: seq<Record>)
    requires forall r :: r in rs && Named(r.person) ==> Known(persons, r.person.value)
    ensures LinkAll(persons, rs) == persons
  {
    if |rs| > 0 {
      var n := |rs| - 1;
      assert forall r :: r in rs[..n] ==> r in rs;
      LinkAllKnown(persons, rs[..n]);
      if Named(rs[n].person) {
        var i :| 0 <= i < |persons| && persons[i].name == rs[n].person.value;
        assert IndexOfName(persons, rs[n].person.value).Some?;
      }
    }
  }

  /** In well-formed persons, a name's id is its position plus one. */
  lemma PersonIdOfWellFormed(persons: seq<Person>, name: Option<string>)
    requires PersonsWellFormed(persons)
    ensures PersonIdOf(persons, name).Some? ==> 1 <= PersonIdOf(persons, name).value <= |persons|
    ensures forall k :: 0 <= k < |persons| ==>
      (PersonIdOf(persons, name) == Some(k + 1) <==> Named(name) && name.value == persons[k].name)
  {
  }

  // ---------------------------------------------------------------------
  // Ledger sums

  lemma {:induction false} SpentOnAppend(a: seq<Row>, b: seq<Row>, c: string)
    ensures SpentOn(a + b, c) == SpentOn(a, c) + SpentOn(b, c)
  {
    if |b| == 0 {
      assert a + b == a;
    } else {
      SpentOnAppend(a, b[..|b| - 1], c);
      assert (a + b)[..|a + b| - 1] == a + b[..|b| - 1];
    }
  }

  lemma {:induction false} OwedByAppend(a: seq<Row>, b: seq<Row>, id: nat)
    ensures OwedBy(a + b, id) == OwedBy(a, id) + OwedBy(b, id)
  {
    if |b| == 0 {
      assert a + b == a;
    } else {
      OwedByAppend(a, b[..|b| - 1], id);
      assert (a + b)[..|a + b| - 1] == a + b[..|b| - 1];
    }
  }

  /** A person id beyond the linked ones owes nothing. */
  lemma {:induction false} OwedByUnlinked(rows: seq<Row>, people: nat, id: nat)
    requires RowsWellFormed(rows, people) && id > people
    ensures OwedBy(rows, id) == 0.0
  {
    if |rows| > 0 {
      var n := |rows| - 1;
      assert forall i :: 0 <= i < n ==> rows[..n][i] == rows[i];
      OwedByUnlinked(rows[..n], people, id);
    }
  }

  /** What the expenses among the records add up to per category. */
  function RecordsSpentOn(rs: seq<Record>, category: string): real {
    if |rs| == 0 then 0.0
    else
      var last := rs[|rs| - 1];
      RecordsSpentOn(rs[..|rs| - 1], category) +
      (if last.txType == "expense" && last.mainCategory == category then last.amount else 0.0)
  }

  /** What the records naming a person add up to, signed. */
  function RecordsOwedBy(rs: seq<Record>, name: string): real {
    if |rs| == 0 then 0.0
    else
      var last := rs[|rs| - 1];
      RecordsOwedBy(rs[..|rs| - 1], name) +
      (if Named(last.person) && last.person.value == name then Signed(last.amount, last.txType) else 0.0)
  }

  lemma {:induction false} RecordsSpentOnNonNegative(rs: seq<Record>, c: string)
    requires forall r :: r in rs ==> Accepted(r)
    ensures RecordsSpentOn(rs, c) >= 0.0
  {
    if |rs| > 0 {
      assert forall r :: r in rs[..|rs| - 1] ==> r in rs;
      assert rs[|rs| - 1] in rs;
      RecordsSpentOnNonNegative(rs[..|rs| - 1], c);
    }
  }

  lemma {:induction false} SpentOnRows(rs: seq<Record>, first: nat, persons: seq<Person>, c: string)
    ensures SpentOn(RowsFor(rs, first, persons), c) == RecordsSpentOn(rs, c)
  {
    if |rs| > 0 {
      var n := |rs| - 1;
      SpentOnRows(rs[..n], first, persons, c);
      assert RowsFor(rs, first, persons)[..n] == RowsFor(rs[..n], first, persons);
    }
  }

  lemma {:induction false} OwedByRows(rs: seq<Record>, first: nat, persons: seq<Person>, k: nat)
    requires PersonsWellFormed(persons) && k < |persons|
    ensures OwedBy(RowsFor(rs, first, persons), k + 1) == RecordsOwedBy(rs, persons[k].name)
  {
    if |rs| > 0 {
      var n := |rs| - 1;
      OwedByRows(rs[..n], first, persons, k);
      assert RowsFor(rs, first, persons)[..n] == RowsFor(rs[..n], first, persons);
      PersonIdOfWellFormed(persons, rs[n].person);
    }
  }

  /** A category without a stored expense has spent nothing. */
  lemma {:induction false} SpentOnNone(rows: seq<Row>, c: string)
    requires forall i :: 0 <= i < |rows| ==> rows[i].txType != "expense" || rows[i].mainCategory != c
    ensures SpentOn(rows, c) == 0.0
  {
    if |rows| > 0 {
      var n := |rows| - 1;
      assert forall i :: 0 <= i < n ==> rows[..n][i] == rows[i];
      SpentOnNone(rows[..n], c);
    }
  }

  // ---------------------------------------------------------------------
  // The bookkeeping of a run of records

  /** Some record is an expense of the category. */
  predicate ExpenseIn(rs: seq<Record>, c: string) {
    exists j :: 0 <= j < |rs| && rs[j].txType == "expense" && rs[j].mainCategory == c
  }

  lemma {:induction false} ApplyAllPersons(db: Tables, rs: seq<Record>)
    ensures ApplyAll(db, rs).transactions == db.transactions
    ensures |ApplyAll(db, rs).persons| == |db.persons|
    ensures forall i :: 0 <= i < |db.persons| ==>
      ApplyAll(db, rs).persons[i] ==
        db.persons[i].(totalOwed := db.persons[i].totalOwed + RecordsOwedBy(rs, db.persons[i].name))
  {
    if |rs| > 0 {
      ApplyAllPersons(db, rs[..|rs| - 1]);
    }
  }

  lemma {:induction false} ApplyAllBudgets(db: Tables, rs: seq<Record>)
    ensures forall c :: c in ApplyAll(db, rs).budgets <==> c in db.budgets || ExpenseIn(rs, c)
    ensures forall c :: c in ApplyAll(db, rs).budgets ==>
      ApplyAll(db, rs).budgets[c] ==
        if c in db.budgets then db.budgets[c].(currentSpending := db.budgets[c].currentSpending + RecordsSpentOn(rs, c))
        else Budget(0.0, RecordsSpentOn(rs, c))
  {
    if |rs| > 0 {
      var n := |rs| - 1;
      var init := rs[..n];
      ApplyAllBudgets(db, init);
      var before := ApplyAll(db, init).budgets;
      var after := ApplyAll(db, rs).budgets;
      forall c ensures c in after <==> c in db.budgets || ExpenseIn(rs, c) {
        if ExpenseIn(init, c) {
          var j :| 0 <= j < n && init[j].txType == "expense" && init[j].mainCategory == c;
          assert rs[j] == init[j];
        }
        if ExpenseIn(rs, c) && !(rs[n].txType == "expense" && rs[n].mainCategory == c) {
          var j :| 0 <= j < |rs| && rs[j].txType == "expense" && rs[j].mainCategory == c;
          assert init[j] == rs[j];
        }
      }
      forall c | c in after && c !in db.budgets ensures !ExpenseIn(init, c) ==> RecordsSpentOn(init, c) == 0.0 {
        if !ExpenseIn(init, c) {
          RecordsSpentOnAbsent(init, c);
        }
      }
    }
  }

  lemma {:induction false} RecordsSpentOnAbsent(rs: seq<Record>, c: string)
    requires !ExpenseIn(rs, c)
    ensures RecordsSpentOn(rs, c) == 0.0
  {
    if |rs| > 0 {
      var n := |rs| - 1;
      forall j | 0 <= j < n ensures rs[..n][j].txType != "expense" || rs[..n][j].mainCategory != c {
        assert rs[..n][j] == rs[j];
      }
      RecordsSpentOnAbsent(rs[..n], c);
    }
  }

  // ---------------------------------------------------------------------
  // The tables stay well formed

  /** Appending the rows of accepted records and then applying their
      bookkeeping keeps the tables well formed, whatever persons were
      linked beforehand. */
  lemma InsertKeepsWellFormed(db: Tables, persons: seq<Person>, rs: seq<Record>)
    requires WellFormed(db)
    requires PersonsWellFormed(persons) && |db.persons| <= |persons| && persons[..|db.persons|] == db.persons
    requires forall i :: |db.persons| <= i < |persons| ==> persons[i].totalOwed == 0.0
    requires forall r :: r in rs ==> Accepted(r)
    ensures WellFormed(ApplyAll(Tables(persons, db.transactions + RowsFor(rs, |db.transactions| + 1, persons), db.budgets), rs))
  {
    var base := Tables(persons, db.transactions + RowsFor(rs, |db.transactions| + 1, persons), db.budgets);
    ApplyAllPersons(base, rs);
    InsertRowsWellFormed(db, persons, rs);
    InsertBudgetsLedger(db, persons, rs);
    InsertBalancesLedger(db, persons, rs);
  }

  /** The appended rows continue the numbering and link known persons. */
  lemma InsertRowsWellFormed(db: Tables, persons: seq<Person>, rs: seq<Record>)
    requires WellFormed(db)
    requires PersonsWellFormed(persons) && |db.persons| <= |persons|
    requires forall r :: r in rs ==> Accepted(r)
    ensures RowsWellFormed(db.transactions + RowsFor(rs, |db.transactions| + 1, persons), |persons|)
  {
    var added := RowsFor(rs, |db.transactions| + 1, persons);
    var rows := db.transactions + added;
    forall i | 0 <= i < |rows|
      ensures rows[i].id == i + 1 && rows[i].amount > 0.0
      ensures rows[i].txType == "income" || rows[i].txType == "expense"
      ensures rows[i].personId.Some? ==> 1 <= rows[i].personId.value <= |persons|
    {
      if i >= |db.transactions| {
        var j := i - |db.transactions|;
        assert rows[i] == added[j];
        assert rs[j] in rs;
        PersonIdOfWellFormed(persons, rs[j].person);
      }
    }
  }

  /** After the batch every budget holds the expenses stored under it, and
      every stored expense has a budget. */
  lemma InsertBudgetsLedger(db: Tables, persons: seq<Person>, rs: seq<Record>)
    requires WellFormed(db)
    ensures var rows := db.transactions + RowsFor(rs, |db.transactions| + 1, persons);
      var out := ApplyAll(Tables(persons, rows, db.budgets), rs);
      (forall c :: c in out.budgets ==> out.budgets[c] == Budget(0.0, SpentOn(rows, c))) &&
      (forall i :: 0 <= i < |rows| && rows[i].txType == "expense" ==> rows[i].mainCategory in out.budgets)
  {
    var added := RowsFor(rs, |db.transactions| + 1, persons);
    var rows := db.transactions + added;
    var base := Tables(persons, rows, db.budgets);
    var out := ApplyAll(base, rs);
    ApplyAllBudgets(base, rs);
    forall c | c in out.budgets ensures out.budgets[c] == Budget(0.0, SpentOn(rows, c)) {
      SpentOnAppend(db.transactions, added, c);
      SpentOnRows(rs, |db.transactions| + 1, persons, c);
      if c !in db.budgets {
        SpentOnNone(db.transactions, c);
      }
    }
    forall i | 0 <= i < |rows| && rows[i].txType == "expense" ensures rows[i].mainCategory in out.budgets {
      if i >= |db.transactions| {
        var j := i - |db.transactions|;
        assert rows[i] == added[j];
      }
    }
  }

  /** After the batch every person's balance is the signed sum of their rows. */
  lemma InsertBalancesLedger(db: Tables, persons: seq<Person>, rs: seq<Record>)
    requires WellFormed(db)
    requires PersonsWellFormed(persons) && |db.persons| <= |persons| && persons[..|db.persons|] == db.persons
    requires forall i :: |db.persons| <= i < |persons| ==> persons[i].totalOwed == 0.0
    ensures var rows := db.transactions + RowsFor(rs, |db.transactions| + 1, persons);
      var out := ApplyAll(Tables(persons, rows, db.budgets), rs);
      forall k :: 0 <= k < |out.persons| ==> out.persons[k].totalOwed == OwedBy(rows, k + 1)
  {
    var added := RowsFor(rs, |db.transactions| + 1, persons);
    var rows := db.transactions + added;
    var base := Tables(persons, rows, db.budgets);
    var out := ApplyAll(base, rs);
    ApplyAllPersons(base, rs);
    forall k | 0 <= k < |out.persons| ensures out.persons[k].totalOwed == OwedBy(rows, k + 1) {
      OwedByAppend(db.transactions, added, k + 1);
      OwedByRows(rs, |db.transactions| + 1, persons, k);
      if k >= |db.persons| {
        OwedByUnlinked(db.transactions, |db.persons|, k + 1);
      } else {
        assert persons[k] == db.persons[k];
      }
    }
  }

  lemma StoreIsInsert(db: Tables, r: Record)
    ensures Store(db, r) ==
      ApplyAll(Tables(LinkPerson(db.persons, r.person),
                      db.transactions + RowsFor([r], |db.transactions| + 1, LinkPerson(db.persons, r.person)),
                      db.budgets), [r])
  {
    assert [r][..0] == [];
  }

  /** A single insertion keeps the tables well formed and stores exactly one
      row, carrying the record's fields, after the existing ones. */
  lemma AddKeepsWellFormed(db: Tables, t: TxInput)
    requires WellFormed(db)
    requires AddSpec(db, t).Ok?
    ensures WellFormed(AddSpec(db, t).value)
    ensures var rows := AddSpec(db, t).value.transactions;
      |rows| == |db.transactions| + 1 && rows[..|db.transactions|] == db.transactions &&
      RecordKey(Validate(t).value) == RowKey(rows[|db.transactions|])
  {
    var r := Validate(t).value;
    ValidateMeaning(t);
    LinkPersonFacts(db.persons, r.person);
    StoreIsInsert(db, r);
    InsertKeepsWellFormed(db, LinkPerson(db.persons, r.person), [r]);
  }

  /** A rejected record changes nothing. */
  lemma AddRejectsWholly(db: Tables, t: TxInput)
    ensures AddSpec(db, t).Err? <==> Validate(t).Err?
    ensures AddSpec(db, t).Err? ==> AddSpec(db, t).message == Validate(t).message
  {
  }

  lemma FreshMeaning(rs: seq<Record>, existing: set<Key>)
    ensures forall x :: x in Fresh(rs, existing) <==> x in rs && RecordKey(x) !in existing
    ensures |Fresh(rs, existing)| <= |rs|
    ensures existing == {} ==> Fresh(rs, existing) == rs
    ensures (forall x :: x in rs ==> RecordKey(x) in existing) ==> Fresh(rs, existing) == []
  {
    FreshMembers(rs, existing);
    if existing == {} {
      FreshKeepsNew(rs, existing);
    }
    if forall x :: x in rs ==> RecordKey(x) in existing {
      FreshDropsOld(rs, existing);
    }
  }

  lemma {:induction false} FreshMembers(rs: seq<Record>, existing: set<Key>)
    ensures forall x :: x in Fresh(rs, existing) <==> x in rs && RecordKey(x) !in existing
    ensures |Fresh(rs, existing)| <= |rs|
  {
    if |rs| > 0 {
      var n := |rs| - 1;
      FreshMembers(rs[..n], existing);
      assert rs == rs[..n] + [rs[n]];
    }
  }

  lemma {:induction false} FreshKeepsNew(rs: seq<Record>, existing: set<Key>)
    requires forall i :: 0 <= i < |rs| ==> RecordKey(rs[i]) !in existing
    ensures Fresh(rs, existing) == rs
  {
    if |rs| > 0 {
      var n := |rs| - 1;
      FreshKeepsNew(rs[..n], existing);
      assert rs[..n] + [rs[n]] == rs;
    }
  }

  lemma {:induction false} FreshDropsOld(rs: seq<Record>, existing: set<Key>)
    requires forall x :: x in rs ==> RecordKey(x) in existing
    ensures Fresh(rs, existing) == []
  {
    if |rs| > 0 {
      var n := |rs| - 1;
      assert forall x :: x in rs[..n] ==> x in rs;
      FreshDropsOld(rs[..n], existing);
      assert rs[n] in rs;
    }
  }

  /** A batch keeps the tables well formed and stores as many rows as it
      reports, after the existing ones. */
  lemma BulkKeepsWellFormed(db: Tables, ts: seq<TxInput>)
    requires WellFormed(db)
    requires BulkSpec(db, ts).Ok?
    ensures WellFormed(BulkSpec(db, ts).value.0)
    ensures var rows := BulkSpec(db, ts).value.0.transactions;
      |rows| == |db.transactions| + BulkSpec(db, ts).value.1 && rows[..|db.transactions|] == db.transactions
  {
    var rs := ValidateAll(ts).value;
    var persons := LinkAll(db.persons, rs);
    var added := Fresh(rs, Keys(db.transactions));
    ValidatedAccepted(ts);
    LinkAllFacts(db.persons, rs);
    FreshMeaning(rs, Keys(db.transactions));
    InsertKeepsWellFormed(db, persons, added);
    if |added| == 0 {
      assert ApplyAll(Tables(persons, db.transactions + RowsFor(added, |db.transactions| + 1, persons), db.budgets), added)
        == db.(persons := persons);
    } else {
      ApplyAllPersons(Tables(persons, db.transactions + RowsFor(added, |db.transactions| + 1, persons), db.budgets), added);
    }
  }

  /** Nothing is stored unless every item of the batch validates. */
  lemma BulkAllOrNothing(db: Tables, ts: seq<TxInput>)
    ensures BulkSpec(db, ts).Err? <==> exists i :: 0 <= i < |ts| && Validate(ts[i]).Err?
  {
    ValidateAllMeaning(ts);
  }

  /** Items of a batch whose keys are new are all stored, repeats inside
      the batch included: on empty tables every item is stored. */
  lemma BulkIntoEmpty(ts: seq<TxInput>)
    requires BulkSpec(Tables([], [], map[]), ts).Ok?
    ensures BulkSpec(Tables([], [], map[]), ts).value.1 == |ts|
  {
    ValidateAllMeaning(ts);
    assert Keys([]) == {};
    FreshMeaning(ValidateAll(ts).value, {});
  }

  /** The tables after a batch: the linked persons with their balances
      moved, and the rows of the new items after the stored ones. */
  lemma BulkShape(db: Tables, ts: seq<TxInput>)
    requires BulkSpec(db, ts).Ok?
    ensures var rs := ValidateAll(ts).value;
      var persons := LinkAll(db.persons, rs);
      var added := Fresh(rs, Keys(db.transactions));
      var once := BulkSpec(db, ts).value.0;
      |once.persons| == |persons| &&
      (forall i :: 0 <= i < |persons| ==> once.persons[i].name == persons[i].name) &&
      once.transactions == db.transactions + RowsFor(added, |db.transactions| + 1, persons) &&
      BulkSpec(db, ts).value.1 == |added|
  {
    var rs := ValidateAll(ts).value;
    var persons := LinkAll(db.persons, rs);
    var added := Fresh(rs, Keys(db.transactions));
    if |added| > 0 {
      ApplyAllPersons(Tables(persons, db.transactions + RowsFor(added, |db.transactions| + 1, persons), db.budgets), added);
    } else {
      assert db.transactions + RowsFor(added, |db.transactions| + 1, persons) == db.transactions;
    }
  }

  lemma KeyKept(rows: seq<Row>, more: seq<Row>, i: nat)
    requires i < |rows|
    ensures RowKey(rows[i]) in Keys(rows + more)
  {
    assert (rows + more)[i] == rows[i];
  }

  lemma KeyAdded(rows: seq<Row>, added: seq<Record>, persons: seq<Person>, j: nat)
    requires j < |added|
    ensures RecordKey(added[j]) in Keys(rows + RowsFor(added, |rows| + 1, persons))
  {
    var all := rows + RowsFor(added, |rows| + 1, persons);
    assert all[|rows| + j] == RowsFor(added, |rows| + 1, persons)[j];
    assert RowKey(all[|rows| + j]) in Keys(all);
  }

  /** Every record of a run has its key among the stored rows once its
      fresh records have been appended. */
  lemma KeyStored(rows: seq<Row>, rs: seq<Record>, persons: seq<Person>, r: Record)
    requires r in rs
    ensures RecordKey(r) in Keys(rows + RowsFor(Fresh(rs, Keys(rows)), |rows| + 1, persons))
  {
    var added := Fresh(rs, Keys(rows));
    var more := RowsFor(added, |rows| + 1, persons);
    FreshMeaning(rs, Keys(rows));
    if RecordKey(r) in Keys(rows) {
      var i :| 0 <= i < |rows| && RowKey(rows[i]) == RecordKey(r);
      KeyKept(rows, more, i);
    } else {
      var j :| 0 <= j < |added| && added[j] == r;
      KeyAdded(rows, added, persons, j);
    }
  }

  /** After a batch every one of its items has its key stored. */
  lemma BulkStoresKeys(db: Tables, ts: seq<TxInput>)
    requires BulkSpec(db, ts).Ok?
    ensures forall r :: r in ValidateAll(ts).value ==> RecordKey(r) in Keys(BulkSpec(db, ts).value.0.transactions)
  {
    BulkShape(db, ts);
    var rs := ValidateAll(ts).value;
    forall r | r in rs ensures RecordKey(r) in Keys(BulkSpec(db, ts).value.0.transactions) {
      KeyStored(db.transactions, rs, LinkAll(db.persons, rs), r);
    }
  }

  /** Importing the same batch a second time stores nothing and changes
      nothing. */
  lemma BulkTwiceStoresNothing(db: Tables, ts: seq<TxInput>)
    requires WellFormed(db)
    requires BulkSpec(db, ts).Ok?
    ensures var once := BulkSpec(db, ts).value.0;
      BulkSpec(once, ts) == Ok((once, 0))
  {
    var rs := ValidateAll(ts).value;
    var persons := LinkAll(db.persons, rs);
    var once := BulkSpec(db, ts).value.0;
    LinkAllFacts(db.persons, rs);
    BulkShape(db, ts);
    forall r | r in rs && Named(r.person) ensures Known(once.persons, r.person.value) {
      var i :| 0 <= i < |persons| && persons[i].name == r.person.value;
      assert once.persons[i].name == r.person.value;
    }
    LinkAllKnown(once.persons, rs);
    BulkStoresKeys(db, ts);
    FreshMeaning(rs, Keys(once.transactions));
  }

  // ---------------------------------------------------------------------
  // Listing

  lemma {:induction false} OfTypeMeaning(rows: seq<Row>, txType: Option<string>)
    ensures forall x :: x in OfType(rows, txType) <==>
      x in rows && (txType.None? || txType.value == "" || x.txType == txType.value)
    ensures txType.None? ==> OfType(rows, txType) == rows
  {
    if |rows| > 0 {
      var n := |rows| - 1;
      OfTypeMeaning(rows[..n], txType);
      assert rows == rows[..n] + [rows[n]];
    }
  }

  lemma {:induction false} NameOfIds(persons: seq<Person>, id: nat, offset: nat)
    requires forall i :: 0 <= i < |persons| ==> persons[i].id == i + offset
    requires offset <= id < offset + |persons|
    ensures NameOf(persons, Some(id)) == Some(persons[id - offset].name)
  {
    if persons[0].id != id {
      NameOfIds(persons[1..], id, offset + 1);
    }
  }

  /** The listing holds exactly the stored rows of the requested type, most
      recent first, each with the name of its linked person. */
  lemma QueryMeaning(db: Tables, txType: Option<string>)
    requires WellFormed(db)
    ensures var q := Query(db, txType);
      (forall i, j :: 0 <= i < j < |q| ==> q[i].row.date >= q[j].row.date) &&
      multiset(seq(|q|, i requires 0 <= i < |q| => q[i].row)) == multiset(OfType(db.transactions, txType)) &&
      (forall i :: 0 <= i < |q| ==>
        (txType.None? || txType.value == "" || q[i].row.txType == txType.value) &&
        if q[i].row.personId.Some? then
          1 <= q[i].row.personId.value <= |db.persons| &&
          q[i].name == Some(db.persons[q[i].row.personId.value - 1].name)
        else q[i].name.None?)
  {
    QueryOrdered(db, txType);
    QueryNamed(db, txType);
  }

  /** The listing is a most-recent-first rearrangement of the rows of the type. */
  lemma QueryOrdered(db: Tables, txType: Option<string>)
    ensures var q := Query(db, txType);
      (forall i, j :: 0 <= i < j < |q| ==> q[i].row.date >= q[j].row.date) &&
      multiset(seq(|q|, i requires 0 <= i < |q| => q[i].row)) == multiset(OfType(db.transactions, txType))
  {
    var filtered := OfType(db.transactions, txType);
    var rows := Sorting.Sort(ByDateDescending, filtered);
    Sorting.SortCorrect(ByDateDescending, filtered);
    var q := Query(db, txType);
    assert seq(|q|, i requires 0 <= i < |q| => q[i].row) == rows;
  }

  /** Each listed row has the requested type and carries its person's name. */
  lemma QueryNamed(db: Tables, txType: Option<string>)
    requires WellFormed(db)
    ensures var q := Query(db, txType);
      forall i :: 0 <= i < |q| ==>
        (txType.None? || txType.value == "" || q[i].row.txType == txType.value) &&
        if q[i].row.personId.Some? then
          1 <= q[i].row.personId.value <= |db.persons| &&
          q[i].name == Some(db.persons[q[i].row.personId.value - 1].name)
        else q[i].name.None?
  {
    var filtered := OfType(db.transactions, txType);
    var rows := Sorting.Sort(ByDateDescending, filtered);
    Sorting.SortCorrect(ByDateDescending, filtered);
    OfTypeMeaning(db.transactions, txType);
    var q := Query(db, txType);
    forall i | 0 <= i < |q|
      ensures (txType.None? || txType.value == "" || q[i].row.txType == txType.value)
      ensures q[i].row.personId.Some? ==>
        1 <= q[i].row.personId.value <= |db.persons| &&
        q[i].name == Some(db.persons[q[i].row.personId.value - 1].name)
    {
      assert q[i].row == rows[i];
      assert rows[i] in multiset(filtered);
      if rows[i].personId.Some? {
        NameOfIds(db.persons, rows[i].personId.value, 1);
      }
    }
  }
}
