/** `NLPParser`: splits an utterance into clauses, threads the current verb
    from clause to clause, extracts one transaction record per clause, and
    folds the results into the response of `process`. The parser object
    holds nothing but three constant keyword tables (module constants here)
    and a database handle, to which `process` only hands the records. */
module NlpParser {
  import opened Wrappers
  import opened Text
  import opened Patterns
  import opened Scans
  import Categories

  /** Verbs and the transaction type they signal, in dictionary order. */
  const TransactionKeywords: seq<(string, string)> := [
    ("paid", "expense"), ("bought", "expense"), ("spent", "expense"),
    ("received", "income"), ("earned", "income"), ("got", "income")
  ]

  /** Date words and their shift in days from today. */
  const TimeKeywords: seq<(string, int)> := [
    ("today", 0), ("yesterday", -1), ("tomorrow", 1), ("last week", -7), ("next week", 7)
  ]

  /** Group words and the default number of people sharing. */
  const GroupKeywords: seq<(string, nat)> := [("common", 2), ("family", 3), ("friends", 4)]

  /** The record built for one clause; `date` is a day number (today is a parameter). */
  datatype Transaction = Transaction(
    date: int,
    description: string,
    amount: real,
    currency: string,
    mainCategory: string,
    subCategory: string,
    txType: string,
    person: Option<string>,
    group: Option<string>,
    splitRatio: real)

  /** One element of what `parse` returns: `{'type': 'transaction', 'data': ...}`
      or `{'type': 'error', 'message': ...}`. */
  datatype Entry = TxEntry(data: Transaction) | ErrorEntry(message: string)

  lemma VerbTableShape()
    ensures forall j :: 0 <= j < |TransactionKeywords| ==>
      |TransactionKeywords[j].0| > 0
      && (TransactionKeywords[j].1 == "expense" || TransactionKeywords[j].1 == "income")
  {
  }

  // ---------------------------------------------------------------------
  // One clause: `_parse_single_transaction`

  /** The verb and its type. A given non-empty verb is looked up (a verb
      outside the table raises `KeyError`); an absent or empty one is
      searched for in the text, and none found raises. */
  function ResolveAction(text: string, action: Option<string>): (r: Result<(string, string)>)
    ensures r.Ok? ==> |r.value.0| > 0
  {
    VerbTableShape();
    if action.Some? && action.value != "" then
      match Lookup(TransactionKeywords, action.value)
      case Some(ty) => Ok((action.value, ty))
      case None => Err("'" + action.value + "'")
    else
      match FirstKey(text, TransactionKeywords)
      case Some(i) => Ok(TransactionKeywords[i])
      case None => Err("No valid action found")
  }

  /** The verb found is a table entry, so its type is 'expense' or 'income';
      a given verb is kept exactly when it is a key of the table; without
      one, a verb is found exactly when some key occurs in the text. */
  lemma ResolveActionFacts(text: string, action: Option<string>)
    ensures var r := ResolveAction(text, action);
      && (r.Ok? ==> r.value in TransactionKeywords && (r.value.1 == "expense" || r.value.1 == "income"))
      && (action.Some? && action.value != "" ==>
            && (r.Ok? <==> exists j :: 0 <= j < |TransactionKeywords| && TransactionKeywords[j].0 == action.value)
            && (r.Ok? ==> r.value.0 == action.value))
      && ((action.None? || action.value == "") ==>
            (r.Ok? <==> exists j :: 0 <= j < |TransactionKeywords| && Contains(text, TransactionKeywords[j].0)))
  {
    VerbTableShape();
  }

  /** Description, main category and subcategory. When the item pattern
      matches, the stripped item and its suggested category; otherwise the
      stripped text after the last occurrence of the verb, with the record's
      default category whatever the type. */
  function Describe(text: string, verb: string, txType: string, tax: Categories.Taxonomy, extract: Categories.Scorer): (string, string, string)
    requires |verb| > 0
  {
    match ItemSearch(text)
    case Some((st, e)) =>
      var item := Strip(text[st..e]);
      var c := Categories.SuggestCategory(tax, item, txType, extract);
      (item, c.0, c.1)
    case None =>
      (Strip(LastPiece(text, verb)), "Miscellaneous", "unexpected")
  }

  /** A captured item gets a category that validates for the type; without
      one the description is the tail after the verb and the category stays
      ("Miscellaneous", "unexpected"), which is no income category. */
  lemma DescribeFacts(text: string, verb: string, txType: string, tax: Categories.Taxonomy, extract: Categories.Scorer)
    requires |verb| > 0
    ensures var r := Describe(text, verb, txType, tax, extract);
      && (ItemSearch(text).None? ==> r == (Strip(LastPiece(text, verb)), "Miscellaneous", "unexpected"))
      && (ItemSearch(text).Some? && (txType == "expense" || txType == "income") && Categories.Sound(tax) ==>
            Categories.ValidateCategory(tax, txType, r.1, r.2))
  {
  }

  /** The person. A lower-case name after "by"/"from" is capitalised;
      otherwise, when the lower-cased text has no "i " and the first word
      does not contain the verb, the first word is taken if it is alphabetic
      and not itself a verb. Indexing the words of a blank text raises. */
  function PersonOf(text: string, verb: string): Result<Option<string>> {
    match PersonSearch(text)
    case Some(name) => Ok(Some(Capitalize(name)))
    case None =>
      if Contains(Lower(text), "i ") then Ok(None)
      else
        var words := Words(text);
        if words == [] then Err("list index out of range")
        else if Contains(words[0], verb) then Ok(None)
        else if AllAlpha(words[0]) && Lookup(TransactionKeywords, words[0]).None? then
          Ok(Some(Capitalize(words[0])))
        else Ok(None)
  }

  /** A name after "by"/"from" wins; a first-word person is alphabetic,
      free of "i ", of the verb, and is no verb itself. */
  lemma PersonOfFacts(text: string, verb: string)
    ensures var r := PersonOf(text, verb);
      && (PersonSearch(text).Some? ==> r == Ok(Some(Capitalize(PersonSearch(text).value))))
      && (r.Ok? && r.value.Some? ==> |r.value.value| > 0)
      && (Contains(Lower(text), "i ") && PersonSearch(text).None? ==> r == Ok(None))
      && (r.Ok? && r.value.Some? && PersonSearch(text).None? ==>
            && !Contains(Lower(text), "i ")
            && |Words(text)| > 0
            && r.value.value == Capitalize(Words(text)[0])
            && AllAlpha(Words(text)[0])
            && !Contains(Words(text)[0], verb)
            && forall j :: 0 <= j < |TransactionKeywords| ==> TransactionKeywords[j].0 != Words(text)[0])
  {
    var r := PersonOf(text, verb);
    match PersonSearch(text)
    case Some(name) =>
      assert r == Ok(Some(Capitalize(name)));
    case None =>
      if !Contains(Lower(text), "i ") {
        var words := Words(text);
        if words != [] && r.Ok? && r.value.Some? {
          assert r.value.value == Capitalize(words[0]);
          assert Lookup(TransactionKeywords, words[0]).None?;
        }
      }
  }

  /** The date: today shifted by the first date word present, else today. */
  function DateOf(text: string, today: int): int {
    match FirstKey(text, TimeKeywords)
    case Some(i) => today + TimeKeywords[i].1
    case None => today
  }

  /** The shift is one of 0, -1, +1, -7, +7 days; no date word means today;
      "yesterday" alone means the day before. */
  lemma DateFacts(text: string, today: int)
    ensures DateOf(text, today) - today in {0, -1, 1, -7, 7}
    ensures (forall j :: 0 <= j < |TimeKeywords| ==> !Contains(text, TimeKeywords[j].0)) ==> DateOf(text, today) == today
    ensures Contains(text, "yesterday") && !Contains(text, "today") ==> DateOf(text, today) == today - 1
  {
  }

  /** Group and split ratio. The first group word present names the group;
      the ratio is 1/N for the first "N people|persons|members", else 1 over
      the word's default; N = 0 raises `ZeroDivisionError`. No group word:
      no group, ratio 1. */
  function GroupOf(text: string): Result<(Option<string>, real)> {
    match FirstKey(text, GroupKeywords)
    case None => Ok((None, 1.0))
    case Some(i) =>
      var n := match CountSearch(text) case Some(c) => c case None => GroupKeywords[i].1;
      if n == 0 then Err("division by zero")
      else Ok((Some(GroupKeywords[i].0), 1.0 / n as real))
  }

  /** The ratio lies in (0, 1]; it is 1 without a group; the group is the
      first group word; a written count N gives 1/N, and without one the
      word's default size D gives 1/D; the only failure is a written count
      of 0 with a group word. */
  lemma GroupFacts(text: string)
    ensures var r := GroupOf(text);
      && (r.Ok? ==> 0.0 < r.value.1 <= 1.0)
      && (r.Ok? && r.value.0.None? ==> r.value.1 == 1.0)
      && (r.Ok? && r.value.0.Some? ==> exists j :: 0 <= j < |GroupKeywords| && r.value.0.value == GroupKeywords[j].0)
      && (r.Err? <==> FirstKey(text, GroupKeywords).Some? && CountSearch(text) == Some(0))
      && (r.Ok? && FirstKey(text, GroupKeywords).Some? && CountSearch(text).Some? ==>
            r.value.1 == 1.0 / CountSearch(text).value as real)
      && (r.Ok? && FirstKey(text, GroupKeywords).Some? ==>
            r.value.0 == Some(GroupKeywords[FirstKey(text, GroupKeywords).value].0))
      && (FirstKey(text, GroupKeywords).Some? && CountSearch(text).None? ==>
            var g := GroupKeywords[FirstKey(text, GroupKeywords).value];
            r == Ok((Some(g.0), 1.0 / g.1 as real)))
  {
    match FirstKey(text, GroupKeywords)
    case None =>
    case Some(i) =>
      var n := match CountSearch(text) case Some(c) => c case None => GroupKeywords[i].1;
      if n > 0 {
        Reciprocal(n);
      }
  }

  lemma Reciprocal(n: nat)
    requires n > 0
    ensures 0.0 < 1.0 / n as real <= 1.0
  {
    var x := n as real;
    assert x >= 1.0;
  }

  /** `_parse_single_transaction`: the record, or the exception that makes
      the source return None, raised in the source's order (verb, amount,
      person, group). */
  function ParseSingle(text: string, action: Option<string>, today: int, tax: Categories.Taxonomy, extract: Categories.Scorer): Result<Transaction> {
    match ResolveAction(text, action)
    case Err(m) => Err(m)
    case Ok((verb, txType)) =>
      match AmountMatch(text)
      case None => Err("No amount found")
      case Some(amount) =>
        var (description, main, sub) := Describe(text, verb, txType, tax, extract);
        match PersonOf(text, verb)
        case Err(m) => Err(m)
        case Ok(person) =>
          match GroupOf(text)
          case Err(m) => Err(m)
          case Ok((group, ratio)) =>
            Ok(Transaction(DateOf(text, today), description, amount, "INR", main, sub, txType, person, group, ratio))
  }

  /** When a clause yields a record and what the record holds. It yields
      one exactly when the verb resolves, the clause has a digit, and it is
      not a group word with a written count of 0 (a digit makes the text
      non-blank, so the person step cannot raise). The type is then the
      verb's, the amount is the first number, the currency is always "INR",
      the split ratio is in (0, 1], and the category is a valid suggestion
      when an item was captured and the default ("Miscellaneous",
      "unexpected") otherwise, even for income. */
  lemma ParseSingleFacts(text: string, action: Option<string>, today: int, tax: Categories.Taxonomy, extract: Categories.Scorer)
    ensures var r := ParseSingle(text, action, today, tax, extract);
      && (r.Ok? <==> ResolveAction(text, action).Ok? && !NoDigits(text)
                     && !(FirstKey(text, GroupKeywords).Some? && CountSearch(text) == Some(0)))
      && (NoDigits(text) ==> r.Err?)
      && (r.Ok? ==> ResolveAction(text, action).Ok? && r.value.txType == ResolveAction(text, action).value.1)
      && (r.Ok? ==> r.value.txType == "expense" || r.value.txType == "income")
      && (r.Ok? ==> AmountMatch(text) == Some(r.value.amount) && r.value.amount >= 0.0)
      && (r.Ok? ==> r.value.currency == "INR")
      && (r.Ok? ==> 0.0 < r.value.splitRatio <= 1.0)
      && (r.Ok? && ItemSearch(text).Some? && Categories.Sound(tax) ==>
            Categories.ValidateCategory(tax, r.value.txType, r.value.mainCategory, r.value.subCategory))
      && (r.Ok? && ItemSearch(text).None? ==>
            r.value.mainCategory == "Miscellaneous" && r.value.subCategory == "unexpected")
  {
    ResolveActionFacts(text, action);
    GroupFacts(text);
    ParseSingleOk(text, action, today, tax, extract);
    var r := ParseSingle(text, action, today, tax, extract);
    match ResolveAction(text, action)
    case Err(_) =>
    case Ok((verb, txType)) =>
      match AmountMatch(text)
      case None =>
      case Some(amount) =>
        DescribeFacts(text, verb, txType, tax, extract);
        var d := Describe(text, verb, txType, tax, extract);
        match PersonOf(text, verb)
        case Err(_) =>
        case Ok(person) =>
          match GroupOf(text)
          case Err(_) =>
          case Ok((group, ratio)) =>
            assert r == Ok(Transaction(DateOf(text, today), d.0, amount, "INR", d.1, d.2, txType, person, group, ratio));
  }

  /** The success direction on its own: every step after the verb can
      raise only for a blank text, a text without digits, or a zero count. */
  lemma ParseSingleOk(text: string, action: Option<string>, today: int, tax: Categories.Taxonomy, extract: Categories.Scorer)
    ensures ParseSingle(text, action, today, tax, extract).Ok? <==>
      ResolveAction(text, action).Ok? && !NoDigits(text)
      && !(FirstKey(text, GroupKeywords).Some? && CountSearch(text) == Some(0))
  {
    match ResolveAction(text, action)
    case Err(_) =>
    case Ok((verb, txType)) =>
      if !NoDigits(text) {
        PersonOfDigits(text, verb);
        GroupFacts(text);
      }
  }

  /** A text with a digit is not blank, so the person step does not raise. */
  lemma PersonOfDigits(text: string, verb: string)
    requires !NoDigits(text)
    ensures PersonOf(text, verb).Ok?
  {
    var k :| 0 <= k < |text| && IsDigit(text[k]);
    assert !IsSpace(text[k]);
  }

  /** `for key in table: if key in text: ...; break`, as the loop it is. */
  method FindKey<T>(text: string, table: seq<(string, T)>) returns (r: Option<nat>)
    ensures r == FirstKey(text, table)
  {
    var i := 0;
    while i < |table| && !Contains(text, table[i].0)
      invariant 0 <= i <= |table|
      invariant forall j :: 0 <= j < i ==> !Contains(text, table[j].0)
    {
      i := i + 1;
    }
    r := if i < |table| then Some(i) else None;
  }

  /** The verb step: the given verb looked up, or the keyword loop. */
  method FindVerb(text: string, action: Option<string>) returns (r: Result<(string, string)>)
    ensures r == ResolveAction(text, action)
  {
    if action.Some? && action.value != "" {
      var ty := Lookup(TransactionKeywords, action.value);
      if ty.None? {
        return Err("'" + action.value + "'");
      }
      return Ok((action.value, ty.value));
    }
    var k := FindKey(text, TransactionKeywords);
    if k.None? {
      return Err("No valid action found");
    }
    return Ok(TransactionKeywords[k.value]);
  }

  /** The record filled in field by field from the defaults; an early
      `return Err` is the exception the source catches. */
  method ParseSingleTransaction(text: string, action: Option<string>, today: int, tax: Categories.Taxonomy, extract: Categories.Scorer)
    returns (r: Result<Transaction>)
    ensures r == ParseSingle(text, action, today, tax, extract)
  {
    var t := Transaction(today, "", 0.0, "INR", "Miscellaneous", "unexpected", "expense", None, None, 1.0);
    var v := FindVerb(text, action);
    if v.Err? {
      return Err(v.message);
    }
    var verb := v.value.0;
    t := t.(txType := v.value.1);

    var amount := AmountMatch(text);
    if amount.None? {
      return Err("No amount found");
    }
    t := t.(amount := amount.value);

    var (description, main, sub) := Describe(text, verb, t.txType, tax, extract);
    t := t.(description := description, mainCategory := main, subCategory := sub);

    var person := PersonOf(text, verb);
    if person.Err? {
      return Err(person.message);
    }
    t := t.(person := person.value);

    var d := FindKey(text, TimeKeywords);
    if d.Some? {
      t := t.(date := today + TimeKeywords[d.value].1);
    }

    var g := GroupOf(text);
    if g.Err? {
      return Err(g.message);
    }
    t := t.(group := g.value.0, splitRatio := g.value.1);
    assert t.date == DateOf(text, today);
    assert t == Transaction(DateOf(text, today), description, amount.value, "INR", main, sub, v.value.1, person.value, g.value.0, g.value.1);
    return Ok(t);
  }

  // ---------------------------------------------------------------------
  // The utterance: `parse`

  /** The single-clause parse as `parse` calls it: a clause and the verb in force. */
  type ClauseParser = (string, string) -> Result<Transaction>

  function SingleFor(today: int, tax: Categories.Taxonomy, extract: Categories.Scorer): ClauseParser {
    (part: string, verb: string) => ParseSingle(part, Some(verb), today, tax, extract)
  }

  /** The loop state of `parse`: the current verb and the entries so far. */
  datatype ParseState = ParseState(action: Option<string>, entries: seq<Entry>)

  function NoActionMessage(part: string): string {
    "No action found in part: " + part
  }

  /** One clause: a verb in it becomes the current verb; with a current verb
      the clause's record is appended, or nothing if its parse raised;
      without one, an error entry is appended. */
  function ClauseStep(st: ParseState, part: string, single: ClauseParser): ParseState {
    var action := match FirstKey(part, TransactionKeywords)
                  case Some(i) => Some(TransactionKeywords[i].0)
                  case None => st.action;
    if action.Some? then
      match single(part, action.value)
      case Ok(t) => ParseState(action, st.entries + [TxEntry(t)])
      case Err(_) => ParseState(action, st.entries)
    else
      ParseState(action, st.entries + [ErrorEntry(NoActionMessage(part))])
  }

  /** The state after the loop has seen `parts`. */
  function FoldParts(parts: seq<string>, single: ClauseParser): ParseState {
    if parts == [] then ParseState(None, [])
    else ClauseStep(FoldParts(parts[..|parts| - 1], single), parts[|parts| - 1], single)
  }

  /** The clauses of an utterance: lower-cased, stripped, split on `\s+and\s+`. */
  function Clauses(input: string): (r: seq<string>)
    ensures |r| >= 1
  {
    SplitOnAnd(Strip(Lower(input)))
  }

  /** No clause ends in whitespace: the utterance is stripped before the
      split, and the split cuts at the start of each whitespace run. */
  lemma ClausesEndInNonSpace(input: string)
    ensures forall i :: 0 <= i < |Clauses(input)| ==> EndsInNonSpace(Clauses(input)[i])
  {
    PiecesEndInNonSpace(Strip(Lower(input)), 0, 0);
  }

  /** So in every clause the parser builds, a captured item is followed by
      whitespace and a closing word: the `$` alternative never closes one. */
  lemma ClauseItemNeverEnds(input: string, i: nat)
    requires i < |Clauses(input)| && ItemSearch(Clauses(input)[i]).Some?
    ensures var s := Clauses(input)[i];
      var e := ItemSearch(s).value.1;
      SkipSpaces(s, e) < |s| && WordAt(s, ItemClosers, SkipSpaces(s, e))
  {
    var s := Clauses(input)[i];
    ClausesEndInNonSpace(input);
    assert EndsInNonSpace(s);
    ItemNeverEndsClause(s);
  }

  /** `parse`: the entries of all clauses, or the single error "No valid
      transactions found" when there are none. */
  function ParseSpec(input: string, today: int, tax: Categories.Taxonomy, extract: Categories.Scorer): (r: seq<Entry>)
    ensures |r| >= 1
    ensures |r| <= |Clauses(input)| || r == [ErrorEntry("No valid transactions found")]
  {
    var st := FoldParts(Clauses(input), SingleFor(today, tax, extract));
    EntriesAtMostClauses(Clauses(input), SingleFor(today, tax, extract));
    if st.entries == [] then [ErrorEntry("No valid transactions found")] else st.entries
  }

  /** `parse`, with the loop over clauses and the current verb it threads. */
  method Parse(input: string, today: int, tax: Categories.Taxonomy, extract: Categories.Scorer) returns (entries: seq<Entry>)
    ensures entries == ParseSpec(input, today, tax, extract)
  {
    var parts := SplitOnAnd(Strip(Lower(input)));
    EntriesAtMostClauses(parts, SingleFor(today, tax, extract));
    entries := ParseClauses(parts, today, tax, extract);
    if entries == [] {
      entries := [ErrorEntry("No valid transactions found")];
    }
  }

  /** The loop of `parse` over the clauses. */
  method ParseClauses(parts: seq<string>, today: int, tax: Categories.Taxonomy, extract: Categories.Scorer) returns (entries: seq<Entry>)
    ensures entries == FoldParts(parts, SingleFor(today, tax, extract)).entries
  {
    ghost var single := SingleFor(today, tax, extract);
    var current: Option<string> := None;
    entries := [];
    var i := 0;
    while i < |parts|
      invariant 0 <= i <= |parts|
      invariant FoldParts(parts[..i], single) == ParseState(current, entries)
    {
      current, entries := ParseClause(current, entries, parts[i], today, tax, extract);
      FoldPartsSnoc(parts, i, single);
      i := i + 1;
    }
    assert parts[..i] == parts;
  }

  /** The body of that loop for one clause. */
  method ParseClause(current: Option<string>, entries: seq<Entry>, part: string, today: int, tax: Categories.Taxonomy, extract: Categories.Scorer)
    returns (current': Option<string>, entries': seq<Entry>)
    ensures ParseState(current', entries') == ClauseStep(ParseState(current, entries), part, SingleFor(today, tax, extract))
  {
    current' := current;
    entries' := entries;
    var k := FindKey(part, TransactionKeywords);
    if k.Some? {
      current' := Some(TransactionKeywords[k.value].0);
    }
    if current'.Some? {
      var t := ParseSingleTransaction(part, current', today, tax, extract);
      if t.Ok? {
        entries' := entries' + [TxEntry(t.value)];
      }
    } else {
      entries' := entries' + [ErrorEntry(NoActionMessage(part))];
    }
  }

  /** One more clause is one more step of the fold. */
  lemma FoldPartsSnoc(parts: seq<string>, i: nat, single: ClauseParser)
    requires i < |parts|
    ensures FoldParts(parts[..i + 1], single) == ClauseStep(FoldParts(parts[..i], single), parts[i], single)
  {
    assert parts[..i + 1][..i] == parts[..i];
  }

  // ---------------------------------------------------------------------
  // What `parse` promises

  /** Each clause contributes at most one entry. */
  lemma {:induction false} EntriesAtMostClauses(parts: seq<string>, single: ClauseParser)
    ensures |FoldParts(parts, single).entries| <= |parts|
  {
    if parts != [] {
      EntriesAtMostClauses(parts[..|parts| - 1], single);
    }
  }

  /** How many clauses come before the first one that names a verb. */
  function LeadingWithoutVerb(parts: seq<string>): (n: nat)
    ensures n <= |parts|
    ensures forall j :: 0 <= j < n ==> FirstKey(parts[j], TransactionKeywords).None?
    ensures n < |parts| ==> FirstKey(parts[n], TransactionKeywords).Some?
  {
    if parts == [] then 0
    else
      var n := LeadingWithoutVerb(parts[..|parts| - 1]);
      assert forall j :: 0 <= j < |parts| - 1 ==> parts[..|parts| - 1][j] == parts[j];
      if n == |parts| - 1 && FirstKey(parts[|parts| - 1], TransactionKeywords).None? then |parts| else n
  }

  /** The clause names one of the verbs. */
  predicate NamesVerb(part: string) {
    FirstKey(part, TransactionKeywords).Some?
  }

  /** The shape of the entries: at most one per clause, first one "No
      action found" error for each clause before the first verb, then only
      records; no verb is in force exactly when no clause named one. */
  ghost predicate Shaped(parts: seq<string>, st: ParseState) {
    var n := LeadingWithoutVerb(parts);
    && n <= |st.entries| <= |parts|
    && (forall j :: 0 <= j < n ==> st.entries[j] == ErrorEntry(NoActionMessage(parts[j])))
    && (forall j :: n <= j < |st.entries| ==> st.entries[j].TxEntry?)
    && (st.action.None? <==> n == |parts|)
  }

  /** The fold keeps that shape. */
  lemma {:induction false} FoldShape(parts: seq<string>, single: ClauseParser)
    ensures Shaped(parts, FoldParts(parts, single))
  {
    if parts != [] {
      var init := parts[..|parts| - 1];
      FoldShape(init, single);
      ShapeStep(init, parts[|parts| - 1], FoldParts(init, single), single);
      assert init + [parts[|parts| - 1]] == parts;
    }
  }

  /** One more clause: the leading count grows only while no verb has been named. */
  lemma LeadingSnoc(init: seq<string>, last: string)
    ensures LeadingWithoutVerb(init + [last]) ==
      if LeadingWithoutVerb(init) == |init| && !NamesVerb(last) then |init| + 1 else LeadingWithoutVerb(init)
  {
    assert (init + [last])[..|init|] == init;
  }

  /** One step of the loop keeps the shape. */
  lemma ShapeStep(init: seq<string>, last: string, prev: ParseState, single: ClauseParser)
    requires Shaped(init, prev)
    ensures Shaped(init + [last], ClauseStep(prev, last, single))
  {
    var st := ClauseStep(prev, last, single);
    var action := if NamesVerb(last) then Some(TransactionKeywords[FirstKey(last, TransactionKeywords).value].0) else prev.action;
    assert st.action == action;
    if action.None? {
      assert st.entries == prev.entries + [ErrorEntry(NoActionMessage(last))];
      ShapeExtend(init, last, prev, action, [ErrorEntry(NoActionMessage(last))]);
    } else if single(last, action.value).Ok? {
      assert st.entries == prev.entries + [TxEntry(single(last, action.value).value)];
      ShapeExtend(init, last, prev, action, [TxEntry(single(last, action.value).value)]);
    } else {
      assert st.entries == prev.entries + [];
      ShapeExtend(init, last, prev, action, []);
    }
  }

  /** Appending what one clause adds keeps the shape: an error entry while
      no verb is in force, at most one record once one is. */
  lemma ShapeExtend(init: seq<string>, last: string, prev: ParseState, action: Option<string>, added: seq<Entry>)
    requires Shaped(init, prev)
    requires action.None? <==> prev.action.None? && !NamesVerb(last)
    requires action.None? ==> added == [ErrorEntry(NoActionMessage(last))]
    requires action.Some? ==> |added| <= 1 && forall j :: 0 <= j < |added| ==> added[j].TxEntry?
    ensures Shaped(init + [last], ParseState(action, prev.entries + added))
  {
    LeadingSnoc(init, last);
    var parts := init + [last];
    var entries := prev.entries + added;
    assert forall j :: 0 <= j < |init| ==> parts[j] == init[j];
    assert forall j :: 0 <= j < |prev.entries| ==> entries[j] == prev.entries[j];
  }

  /** The index of the last clause that names a verb. */
  function LastVerbClause(parts: seq<string>): (r: Option<nat>)
    ensures r.None? <==> forall j :: 0 <= j < |parts| ==> FirstKey(parts[j], TransactionKeywords).None?
    ensures r.Some? ==> r.value < |parts| && FirstKey(parts[r.value], TransactionKeywords).Some?
    ensures r.Some? ==> forall j :: r.value < j < |parts| ==> FirstKey(parts[j], TransactionKeywords).None?
  {
    LastMatch(parts, NamesVerb)
  }

  /** The verb named by the last clause of `parts` that names one. */
  function VerbAfter(parts: seq<string>): Option<string> {
    match LastVerbClause(parts)
    case None => None
    case Some(j) => Some(TransactionKeywords[FirstKey(parts[j], TransactionKeywords).value].0)
  }

  /** The verb in force after the clauses: that of the last clause naming
      one, carried over every later clause without a verb. */
  lemma {:induction false} VerbCarriesOver(parts: seq<string>, single: ClauseParser)
    ensures FoldParts(parts, single).action == VerbAfter(parts)
  {
    if parts != [] {
      var init := parts[..|parts| - 1];
      VerbCarriesOver(init, single);
      if NamesVerb(parts[|parts| - 1]) {
        assert LastVerbClause(parts) == Some(|parts| - 1);
      } else {
        assert LastVerbClause(parts) == LastVerbClause(init);
        assert forall j :: 0 <= j < |init| ==> init[j] == parts[j];
      }
    }
  }

  /** The records among the entries, in order. */
  function Records(entries: seq<Entry>): (r: seq<Transaction>)
    ensures |r| <= |entries|
  {
    if entries == [] then []
    else
      Records(entries[..|entries| - 1]) +
        match entries[|entries| - 1]
        case TxEntry(t) => [t]
        case ErrorEntry(_) => []
  }

  lemma {:induction false} RecordsAppend(xs: seq<Entry>, ys: seq<Entry>)
    ensures Records(xs + ys) == Records(xs) + Records(ys)
    decreases |ys|
  {
    if ys != [] {
      var init := ys[..|ys| - 1];
      RecordsAppend(xs, init);
      assert (xs + ys)[..|xs + ys| - 1] == xs + init;
    } else {
      assert xs + ys == xs;
    }
  }

  /** What the clauses yield, independently of the loop: each clause parsed
      on its own with the verb in force once it is read (`VerbAfter` of the
      clauses up to it), its record kept when the parse succeeds, in clause
      order. */
  function ClauseRecords(parts: seq<string>, single: ClauseParser): seq<Transaction> {
    if parts == [] then []
    else
      var rest := ClauseRecords(parts[..|parts| - 1], single);
      match VerbAfter(parts)
      case None => rest
      case Some(v) =>
        match single(parts[|parts| - 1], v)
        case Ok(t) => rest + [t]
        case Err(_) => rest
  }

  /** The records the loop collects are exactly those the clauses yield. */
  lemma {:induction false} FoldRecords(parts: seq<string>, single: ClauseParser)
    ensures Records(FoldParts(parts, single).entries) == ClauseRecords(parts, single)
  {
    if parts != [] {
      var init := parts[..|parts| - 1];
      var last := parts[|parts| - 1];
      var prev := FoldParts(init, single);
      FoldRecords(init, single);
      VerbCarriesOver(parts, single);
      var st := FoldParts(parts, single);
      assert st == ClauseStep(prev, last, single);
      var added := st.entries[|prev.entries|..];
      assert st.entries == prev.entries + added;
      RecordsAppend(prev.entries, added);
      match st.action
      case None =>
        assert added == [ErrorEntry(NoActionMessage(last))];
        assert Records(added) == Records([]) + [];
      case Some(v) =>
        match single(last, v)
        case Ok(t) =>
          assert added == [TxEntry(t)];
          assert Records(added) == Records([]) + [t];
        case Err(_) =>
          assert added == [];
    }
  }

  /** The records `parse` returns are exactly those its clauses yield, in
      clause order; the "No valid transactions found" fallback holds none. */
  lemma ParseRecords(input: string, today: int, tax: Categories.Taxonomy, extract: Categories.Scorer)
    ensures Records(ParseSpec(input, today, tax, extract)) == ClauseRecords(Clauses(input), SingleFor(today, tax, extract))
  {
    var st := FoldParts(Clauses(input), SingleFor(today, tax, extract));
    FoldRecords(Clauses(input), SingleFor(today, tax, extract));
    if st.entries == [] {
      assert Records([ErrorEntry("No valid transactions found")]) == Records([]) + [];
    }
  }

  /** A table verb looks up its own type. */
  lemma VerbLookup(i: nat)
    requires i < |TransactionKeywords|
    ensures Lookup(TransactionKeywords, TransactionKeywords[i].0) == Some(TransactionKeywords[i].1)
  {
  }

  /** One clause that names a verb, holds a digit and is no group with a
      written count of 0 yields exactly one record, with the clause's first
      number as its amount and the verb's type. */
  lemma SingleClauseRecord(input: string, today: int, tax: Categories.Taxonomy, extract: Categories.Scorer)
    requires |Clauses(input)| == 1
    requires NamesVerb(Clauses(input)[0]) && !NoDigits(Clauses(input)[0])
    requires !(FirstKey(Clauses(input)[0], GroupKeywords).Some? && CountSearch(Clauses(input)[0]) == Some(0))
    ensures var r := ParseSpec(input, today, tax, extract);
      var part := Clauses(input)[0];
      && |r| == 1 && r[0].TxEntry?
      && Some(r[0].data.amount) == AmountMatch(part)
      && r[0].data.txType == TransactionKeywords[FirstKey(part, TransactionKeywords).value].1
  {
    var parts := Clauses(input);
    var part := parts[0];
    var i := FirstKey(part, TransactionKeywords).value;
    var verb := TransactionKeywords[i].0;
    VerbTableShape();
    VerbLookup(i);
    assert ResolveAction(part, Some(verb)) == Ok((verb, TransactionKeywords[i].1));
    ParseSingleFacts(part, Some(verb), today, tax, extract);
    assert parts[..0] == [];
    assert FoldParts(parts, SingleFor(today, tax, extract)) == ClauseStep(ParseState(None, []), part, SingleFor(today, tax, extract));
  }

  /** Errors precede records: no "No action found" error follows a record. */
  lemma ErrorsPrecedeRecords(input: string, today: int, tax: Categories.Taxonomy, extract: Categories.Scorer)
    ensures var r := ParseSpec(input, today, tax, extract);
      forall i, j :: 0 <= i < j < |r| && r[i].TxEntry? ==> r[j].TxEntry?
  {
    var parts := Clauses(input);
    var st := FoldParts(parts, SingleFor(today, tax, extract));
    FoldShape(parts, SingleFor(today, tax, extract));
    var n := LeadingWithoutVerb(parts);
    assert forall i :: 0 <= i < n ==> st.entries[i].ErrorEntry?;
  }

  /** Text without digits yields no record: every clause's parse raises "No
      amount found" and is dropped, so only errors remain; when the first
      clause names a verb, the result is the single "No valid transactions
      found" error. */
  lemma NoDigitsNoRecords(input: string, today: int, tax: Categories.Taxonomy, extract: Categories.Scorer)
    requires NoDigits(input)
    ensures forall i :: 0 <= i < |ParseSpec(input, today, tax, extract)| ==> ParseSpec(input, today, tax, extract)[i].ErrorEntry?
    ensures LeadingWithoutVerb(Clauses(input)) == 0 ==>
      ParseSpec(input, today, tax, extract) == [ErrorEntry("No valid transactions found")]
  {
    var text := Strip(Lower(input));
    assert NoDigits(Lower(input)) by {
      forall k | 0 <= k < |input| ensures !IsDigit(Lower(input)[k]) {
        assert Lower(input)[k] == LowerChar(input[k]);
      }
    }
    assert NoDigits(text);
    NoDigitsInPieces(text, 0, 0);
    var parts := Clauses(input);
    var single := SingleFor(today, tax, extract);
    NoRecordsFromDigitlessClauses(parts, today, tax, extract);
    FoldShape(parts, single);
    var st := FoldParts(parts, single);
    assert forall i :: 0 <= i < |st.entries| ==> st.entries[i].ErrorEntry?;
  }

  /** Without digits every clause's parse raises, so the entries are exactly
      the "No action found" errors of the clauses before the first verb. */
  lemma {:induction false} NoRecordsFromDigitlessClauses(parts: seq<string>, today: int, tax: Categories.Taxonomy, extract: Categories.Scorer)
    requires forall i :: 0 <= i < |parts| ==> NoDigits(parts[i])
    ensures |FoldParts(parts, SingleFor(today, tax, extract)).entries| == LeadingWithoutVerb(parts)
  {
    if parts != [] {
      var single := SingleFor(today, tax, extract);
      var init := parts[..|parts| - 1];
      var last := parts[|parts| - 1];
      NoRecordsFromDigitlessClauses(init, today, tax, extract);
      assert forall i :: 0 <= i < |init| ==> init[i] == parts[i];
      FoldShape(init, single);
      forall v: string ensures ParseSingle(last, Some(v), today, tax, extract).Err? {
        ParseSingleFacts(last, Some(v), today, tax, extract);
      }
    }
  }

  // ---------------------------------------------------------------------
  // `process`

  datatype Status = Success | Partial | Error

  datatype Response = Response(status: Status, transactions: seq<Transaction>, errors: seq<string>, message: string)

  /** The response after the loop has seen `results`: records collected,
      messages collected, and the status reset by every error to 'partial'
      when a record was already collected, else to 'error'. */
  function ProcessFold(results: seq<Entry>): Response {
    if results == [] then Response(Success, [], [], "")
    else
      var r := ProcessFold(results[..|results| - 1]);
      match results[|results| - 1]
      case TxEntry(t) => r.(transactions := r.transactions + [t])
      case ErrorEntry(m) => r.(errors := r.errors + [m], status := if r.transactions != [] then Partial else Error)
  }

  /** The response of `process` for the entries `parse` returned. */
  function ProcessSpec(results: seq<Entry>): (r: Response)
    ensures r.message == (if r.transactions != [] then "Transactions processed" else "No transactions processed")
  {
    var r := ProcessFold(results);
    r.(message := if r.transactions != [] then "Transactions processed" else "No transactions processed")
  }

  /** `process`: parses, hands every record to the store in order (returned
      as `handed`), and collects the response. */
  method Process(input: string, today: int, tax: Categories.Taxonomy, extract: Categories.Scorer) returns (response: Response, handed: seq<Transaction>)
    ensures response == ProcessSpec(ParseSpec(input, today, tax, extract))
    ensures handed == response.transactions
  {
    var results := Parse(input, today, tax, extract);
    response, handed := Collect(results);
  }

  /** The loop of `process` over the entries `parse` returned. */
  method Collect(results: seq<Entry>) returns (response: Response, handed: seq<Transaction>)
    ensures response == ProcessSpec(results)
    ensures handed == response.transactions
  {
    response := Response(Success, [], [], "");
    handed := [];
    var i := 0;
    while i < |results|
      invariant 0 <= i <= |results|
      invariant response == ProcessFold(results[..i])
      invariant handed == response.transactions
    {
      match results[i] {
        case TxEntry(t) =>
          handed := handed + [t];
          response := response.(transactions := response.transactions + [t]);
        case ErrorEntry(m) =>
          response := response.(errors := response.errors + [m]);
          response := response.(status := if response.transactions != [] then Partial else Error);
      }
      assert results[..i + 1][..i] == results[..i];
      i := i + 1;
    }
    assert results[..i] == results;
    response := response.(message := if response.transactions != [] then "Transactions processed" else "No transactions processed");
  }

  /** What the status means: 'success' exactly when no entry is an error,
      'partial' exactly when some record precedes some error, 'error' when
      there are errors and none is preceded by a record. Records and
      messages are collected in order. */
  lemma {:induction false} StatusMeaning(results: seq<Entry>)
    ensures var r := ProcessFold(results);
      && (r.status == Success <==> forall i :: 0 <= i < |results| ==> results[i].TxEntry?)
      && (r.status == Partial <==> exists i, j :: 0 <= i < j < |results| && results[i].TxEntry? && results[j].ErrorEntry?)
      && |r.transactions| + |r.errors| == |results|
      && (r.transactions == [] <==> forall i :: 0 <= i < |results| ==> results[i].ErrorEntry?)
  {
    if results != [] {
      var init := results[..|results| - 1];
      StatusMeaning(init);
      assert forall i :: 0 <= i < |init| ==> init[i] == results[i];
      var r := ProcessFold(init);
      if results[|results| - 1].ErrorEntry? && r.transactions != [] {
        var i :| 0 <= i < |init| && init[i].TxEntry?;
        assert results[i].TxEntry? && results[|results| - 1].ErrorEntry?;
      }
      if ProcessFold(results).status == Partial && r.status != Partial {
        assert results[|results| - 1].ErrorEntry?;
      }
    }
  }

  /** The records `process` collects (and hands to the store) are the records among the entries, in order. */
  lemma {:induction false} ProcessCollectsRecords(results: seq<Entry>)
    ensures ProcessFold(results).transactions == Records(results)
  {
    if results != [] {
      ProcessCollectsRecords(results[..|results| - 1]);
    }
  }

  /** End to end: `process` hands the store exactly the records the
      clauses of the utterance yield, in clause order. */
  lemma ProcessHandsClauseRecords(input: string, today: int, tax: Categories.Taxonomy, extract: Categories.Scorer)
    ensures ProcessSpec(ParseSpec(input, today, tax, extract)).transactions ==
      ClauseRecords(Clauses(input), SingleFor(today, tax, extract))
  {
    ProcessCollectsRecords(ParseSpec(input, today, tax, extract));
    ParseRecords(input, today, tax, extract);
  }

  /** For the output of `parse` the status is never 'partial': errors come
      before every record. */
  lemma ParseNeverPartial(input: string, today: int, tax: Categories.Taxonomy, extract: Categories.Scorer)
    ensures ProcessSpec(ParseSpec(input, today, tax, extract)).status != Partial
  {
    var r := ParseSpec(input, today, tax, extract);
    ErrorsPrecedeRecords(input, today, tax, extract);
    StatusMeaning(r);
  }
}
