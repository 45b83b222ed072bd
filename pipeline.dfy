// How a parsed transaction meets the store: `process` hands each record
// the parser produced to `add_transaction` as it is.

module Pipeline {
  import opened Wrappers
  import Categories
  import NlpParser
  import Database

  /** The parser's record dict as the store receives it: every key present. */
  function AsInput(t: NlpParser.Transaction): Database.TxInput {
    Database.TxInput(Some(t.date), Some(t.description), Some(Database.Number(t.amount)),
                     Some(t.mainCategory), Some(t.subCategory), Some(t.txType),
                     Some(t.currency), t.person, t.group, Some(t.splitRatio))
  }

  /** A record of either type with currency INR is stored unchanged
      exactly when its amount is positive. */
  lemma StoreTakesRecord(t: NlpParser.Transaction)
    requires t.txType == "expense" || t.txType == "income"
    ensures Database.Validate(AsInput(t)).Ok? <==> t.amount > 0.0
    ensures Database.Validate(AsInput(t)).Err? ==> Database.Validate(AsInput(t)) == Err(Database.AmountMessage)
    ensures Database.Validate(AsInput(t)).Ok? ==>
      Database.Validate(AsInput(t)).value ==
        Database.Record(t.date, t.description, t.amount, t.currency, t.mainCategory, t.subCategory,
                        t.txType, t.person, t.group, t.splitRatio)
  {
    Database.ValidateMeaning(AsInput(t));
  }

  /** A record the parser accepts is stored unchanged, in INR, exactly when
      its amount is positive; a zero amount ("0 rupees") is the one way the
      store refuses it. */
  lemma ParsedRecordStored(text: string, action: Option<string>, today: int, tax: Categories.Taxonomy, extract: Categories.Scorer)
    requires NlpParser.ParseSingle(text, action, today, tax, extract).Ok?
    ensures var t := NlpParser.ParseSingle(text, action, today, tax, extract).value;
      t.currency == "INR" && (Database.Validate(AsInput(t)).Ok? <==> t.amount > 0.0)
  {
    var t := NlpParser.ParseSingle(text, action, today, tax, extract).value;
    NlpParser.ParseSingleFacts(text, action, today, tax, extract);
    StoreTakesRecord(t);
  }
}
