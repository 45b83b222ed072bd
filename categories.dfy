/** The two-level category taxonomy, its reverse index and the layered
    classifier that turns a free-text description into a (main, sub) pair. */
module Categories {
  import opened Wrappers
  import opened Text
  import opened Scans

  /** A taxonomy table: main categories in declaration order, each with its subcategories. */
  type Table = seq<(string, seq<string>)>

  /** A (main category, subcategory) pair. */
  type Pair = (string, string)

  const ExpenditureCategories: Table := [
    ("Housing", ["rent", "mortgage", "property tax", "home insurance", "maintenance", "repairs", "utilities", "maid"]),
    ("Transportation", ["car payment", "fuel", "public transit", "maintenance", "insurance", "parking", "tolls", "auto rickshaw", "metro"]),
    ("Food", ["groceries", "dining out", "takeout", "coffee", "alcohol", "snacks", "panipuris", "sabji", "dhaba", "sweets", "kirana"]),
    ("Healthcare", ["insurance", "doctor", "dentist", "pharmacy", "hospital", "optical", "fitness", "ayurveda"]),
    ("Personal", ["clothing", "entertainment", "hobbies", "subscriptions", "gifts", "beauty", "electronics", "movie ticket", "jewelry"]),
    ("Debt", ["credit card", "student loan", "personal loan", "payday loan", "debt consolidation", "EMI"]),
    ("Savings", ["emergency fund", "retirement", "investments", "education fund", "vacation fund", "FD", "RD"]),
    ("Education", ["tuition", "books", "supplies", "courses", "software", "conferences", "coaching"]),
    ("Charity", ["donations", "gifts", "religious", "political", "community support", "temple", "pooja"]),
    ("Miscellaneous", ["pet care", "child care", "legal fees", "taxes", "fines", "unexpected", "festivals"])
  ]

  const IncomeCategories: Table := [
    ("Employment", ["salary", "wages", "bonus", "commission", "tips", "overtime", "stipend"]),
    ("Business", ["self-employment", "freelance", "consulting", "sales", "royalties", "shop income"]),
    ("Investments", ["dividends", "interest", "capital gains", "rental income", "retirement", "MF returns"]),
    ("Government", ["social security", "unemployment", "disability", "stimulus", "tax refund", "pension"]),
    ("Other", ["gifts", "inheritance", "lottery", "alimony", "crowdfunding", "reimbursement", "wedding gift"])
  ]

  /** The tables the module consults. The operations below are stated for
      any taxonomy; `Shipped` holds the module's own three tables. */
  datatype Taxonomy = Taxonomy(expense: Table, income: Table, keywords: seq<(string, Pair)>)

  /** The merged table. The expense and income main categories are distinct,
      so the dictionary merge is the expense table followed by the income table. */
  function Merged(tax: Taxonomy): Table {
    tax.expense + tax.income
  }

  /** The exact-keyword shortcut table, in insertion order. */
  const KeywordMappings: seq<(string, Pair)> := [
    ("panipuris", ("Food", "panipuris")),
    ("movie", ("Personal", "movie ticket")),
    ("ticket", ("Personal", "movie ticket")),
    ("sabji", ("Food", "sabji")),
    ("groceries", ("Food", "groceries")),
    ("clothes", ("Personal", "clothing")),
    ("clothing", ("Personal", "clothing")),
    ("salary", ("Employment", "salary")),
    ("kirana", ("Food", "kirana")),
    ("dhaba", ("Food", "dhaba")),
    ("sweets", ("Food", "sweets")),
    ("auto", ("Transportation", "auto rickshaw")),
    ("rickshaw", ("Transportation", "auto rickshaw")),
    ("emi", ("Debt", "EMI")),
    ("gift", ("Other", "gifts"))
  ]

  const Shipped: Taxonomy := Taxonomy(ExpenditureCategories, IncomeCategories, KeywordMappings)

  const AllCategories: Table := Merged(Shipped)

  // ---------------------------------------------------------------------
  // Reverse index: lower-cased subcategory -> main category

  /** `subs` lists `key` once lower-cased. */
  ghost predicate Lists(subs: seq<string>, key: string) {
    exists j :: 0 <= j < |subs| && Lower(subs[j]) == key
  }

  /** The inner loop of the index construction: every subcategory of one main,
      in order, overwrites its lower-cased key. */
  function AddSubs(m: map<string, string>, main: string, subs: seq<string>): map<string, string>
    decreases |subs|
  {
    if subs == [] then m
    else AddSubs(m, main, subs[..|subs| - 1])[Lower(subs[|subs| - 1]) := main]
  }

  /** The outer loop: the rows of `t` in order. */
  function BuildIndex(t: Table): map<string, string>
    decreases |t|
  {
    if t == [] then map[]
    else AddSubs(BuildIndex(t[..|t| - 1]), t[|t| - 1].0, t[|t| - 1].1)
  }

  /** Reference definition: the last row of `t` that lists `key`. */
  function LastOwner(t: Table, key: string): (r: Option<nat>)
    ensures r.Some? ==>
              && r.value < |t| && Lists(t[r.value].1, key)
              && forall i :: r.value < i < |t| ==> !Lists(t[i].1, key)
    ensures r.None? ==> forall i :: 0 <= i < |t| ==> !Lists(t[i].1, key)
    decreases |t|
  {
    if t == [] then None
    else if ListsScan(t[|t| - 1].1, key) then Some(|t| - 1)
    else
      var r := LastOwner(t[..|t| - 1], key);
      assert forall i :: 0 <= i < |t| - 1 ==> t[..|t| - 1][i] == t[i];
      r
  }

  /** `any(s.lower() == key for s in subs)` */
  function ListsScan(subs: seq<string>, key: string): (r: bool)
    ensures r <==> Lists(subs, key)
    decreases |subs|
  {
    if subs == [] then false
    else if Lower(subs[0]) == key then true
    else
      var r := ListsScan(subs[1..], key);
      assert forall j :: 1 <= j < |subs| ==> subs[1..][j - 1] == subs[j];
      assert r ==> Lists(subs, key) by {
        if r {
          var j :| 0 <= j < |subs| - 1 && Lower(subs[1..][j]) == key;
          assert Lower(subs[j + 1]) == key;
        }
      }
      r
  }

  lemma {:induction false} AddSubsAt(m: map<string, string>, main: string, subs: seq<string>, key: string)
    ensures key in AddSubs(m, main, subs) <==> key in m || Lists(subs, key)
    ensures key in AddSubs(m, main, subs) ==>
      AddSubs(m, main, subs)[key] == if Lists(subs, key) then main else m[key]
    decreases |subs|
  {
    if subs != [] {
      var init := subs[..|subs| - 1];
      AddSubsAt(m, main, init, key);
      assert forall j :: 0 <= j < |init| ==> init[j] == subs[j];
      assert Lists(subs, key) <==> Lists(init, key) || Lower(subs[|subs| - 1]) == key by {
        if Lists(subs, key) {
          var j :| 0 <= j < |subs| && Lower(subs[j]) == key;
          if j < |init| { assert Lower(init[j]) == key; }
        }
      }
    }
  }

  /** After the construction loop, a key is in the index exactly when some
      row lists it, and it maps to the main category of the LAST such row:
      a label listed under several mains ends up under the last of them. */
  lemma {:induction false} IndexLastWins(t: Table, key: string)
    ensures key in BuildIndex(t) <==> LastOwner(t, key).Some?
    ensures key in BuildIndex(t) ==> BuildIndex(t)[key] == t[LastOwner(t, key).value].0
    decreases |t|
  {
    if t != [] {
      var init := t[..|t| - 1];
      IndexLastWins(init, key);
      AddSubsAt(BuildIndex(init), t[|t| - 1].0, t[|t| - 1].1, key);
      assert forall i :: 0 <= i < |init| ==> init[i] == t[i];
      if !ListsScan(t[|t| - 1].1, key) {
        assert LastOwner(t, key) == LastOwner(init, key);
      }
    }
  }

  /** The index every `CategoryManager` holds after construction. */
  const SubToMain: map<string, string> := BuildIndex(AllCategories)

  /** The module-level `get_main_category`: case-insensitive lookup of the
      main category of the last row of the merged table listing the label;
      None for a label no row lists. */
  function LookupMainCategory(tax: Taxonomy, sub: string): (r: Option<string>)
    ensures r.Some? <==> LastOwner(Merged(tax), Lower(sub)).Some?
    ensures r.Some? ==> r.value == Merged(tax)[LastOwner(Merged(tax), Lower(sub)).value].0
  {
    IndexLastWins(Merged(tax), Lower(sub));
    var key := Lower(sub);
    var index := BuildIndex(Merged(tax));
    if key in index then Some(index[key]) else None
  }

  /** `CategoryManager`: the object whose constructor fills the reverse index. */
  class CategoryManager {
    var subToMain: map<string, string>

    ghost predicate Valid()
      reads this
    {
      subToMain == SubToMain
    }

    constructor ()
      ensures Valid()
    {
      var m: map<string, string> := map[];
      var i := 0;
      while i < |AllCategories|
        invariant 0 <= i <= |AllCategories|
        invariant m == BuildIndex(AllCategories[..i])
      {
        var main := AllCategories[i].0;
        var subs := AllCategories[i].1;
        var j := 0;
        while j < |subs|
          invariant 0 <= j <= |subs|
          invariant m == AddSubs(BuildIndex(AllCategories[..i]), main, subs[..j])
        {
          m := m[Lower(subs[j]) := main];
          assert subs[..j + 1][..j] == subs[..j];
          j := j + 1;
        }
        assert subs[..j] == subs;
        assert AllCategories[..i + 1][..i] == AllCategories[..i];
        i := i + 1;
      }
      assert AllCategories[..i] == AllCategories;
      subToMain := m;
    }

    /** `get_main_category` on the object: the same lookup as the module-level function. */
    function GetMainCategory(sub: string): (r: Option<string>)
      requires Valid()
      reads this
      ensures r == LookupMainCategory(Shipped, sub)
    {
      var key := Lower(sub);
      if key in subToMain then Some(subToMain[key]) else None
    }
  }

  // ---------------------------------------------------------------------
  // Validation and table views

  /** The table `validate_category` consults: income for 'income', expense for anything else. */
  function CategoryTable(tax: Taxonomy, categoryType: string): Table {
    if categoryType == "income" then tax.income else tax.expense
  }

  /** `main` (already lower-cased) is, case-insensitively, a key of `t`. */
  ghost predicate IsMainOf(t: Table, main: string) {
    exists i :: 0 <= i < |t| && Lower(t[i].0) == main
  }

  /** `sub` (already lower-cased) is, case-insensitively, listed under SOME key of `t`. */
  ghost predicate IsSubOf(t: Table, sub: string) {
    exists i :: 0 <= i < |t| && Lists(t[i].1, sub)
  }

  /** The scan `any(main_cat.lower() == main for main_cat in t.keys())`. */
  function HasMain(t: Table, main: string): (r: bool)
    ensures r <==> IsMainOf(t, main)
    decreases |t|
  {
    if t == [] then false
    else if Lower(t[0].0) == main then true
    else
      var r := HasMain(t[1..], main);
      assert forall i :: 1 <= i < |t| ==> t[1..][i - 1] == t[i];
      assert r ==> IsMainOf(t, main) by {
        if r {
          var i :| 0 <= i < |t| - 1 && Lower(t[1..][i].0) == main;
          assert Lower(t[i + 1].0) == main;
        }
      }
      r
  }

  /** The nested scan over all subcategory lists of `t`. */
  function HasSub(t: Table, sub: string): (r: bool)
    ensures r <==> IsSubOf(t, sub)
    decreases |t|
  {
    if t == [] then false
    else if ListsScan(t[0].1, sub) then true
    else
      var r := HasSub(t[1..], sub);
      assert forall i :: 1 <= i < |t| ==> t[1..][i - 1] == t[i];
      assert r ==> IsSubOf(t, sub) by {
        if r {
          var i :| 0 <= i < |t| - 1 && Lists(t[1..][i].1, sub);
          assert Lists(t[i + 1].1, sub);
        }
      }
      r
  }

  /** `validate_category`: true exactly when, in the table chosen by the type,
      the main category is a key and the subcategory is listed under some key
      (not necessarily that main), both compared case-insensitively. */
  function ValidateCategory(tax: Taxonomy, categoryType: string, main: string, sub: string): (r: bool)
    ensures r <==> IsMainOf(CategoryTable(tax, categoryType), Lower(main))
                   && IsSubOf(CategoryTable(tax, categoryType), Lower(sub))
  {
    var t := CategoryTable(tax, categoryType);
    HasMain(t, Lower(main)) && HasSub(t, Lower(sub))
  }

  /** `get_category_hierarchy` */
  function GetCategoryHierarchy(tax: Taxonomy, categoryType: string): (r: Table)
    ensures categoryType == "income" || categoryType == "expense" ==> r == CategoryTable(tax, categoryType)
    ensures categoryType != "income" && categoryType != "expense" ==> r == Merged(tax)
  {
    if categoryType == "income" then tax.income
    else if categoryType == "expense" then tax.expense
    else Merged(tax)
  }

  /** The subcategory lists of `t` concatenated in table order. */
  function Flatten(t: Table): seq<string>
    decreases |t|
  {
    if t == [] then [] else t[0].1 + Flatten(t[1..])
  }

  lemma {:induction false} FlattenMembers(t: Table, s: string)
    ensures s in Flatten(t) <==> exists i :: 0 <= i < |t| && s in t[i].1
    decreases |t|
  {
    if t != [] {
      FlattenMembers(t[1..], s);
      assert forall i :: 1 <= i < |t| ==> t[1..][i - 1] == t[i];
      if s in Flatten(t[1..]) {
        var i :| 0 <= i < |t| - 1 && s in t[1..][i].1;
        assert s in t[i + 1].1;
      }
    }
  }

  /** `get_all_subcategories`: the subcategories of the table the type selects
      (income, expense, or merged for any other type), in table order. */
  function GetAllSubcategories(tax: Taxonomy, categoryType: string): (r: seq<string>)
    ensures r == Flatten(GetCategoryHierarchy(tax, categoryType))
  {
    if categoryType == "income" then Flatten(tax.income)
    else if categoryType == "expense" then Flatten(tax.expense)
    else Flatten(Merged(tax))
  }

  /** Every label `get_all_subcategories` offers for 'income' or 'expense'
      passes the subcategory half of `validate_category` for that type, and
      nothing else does. */
  lemma SubcategoriesAreValidSubs(tax: Taxonomy, categoryType: string, s: string)
    requires categoryType == "income" || categoryType == "expense"
    ensures s in GetAllSubcategories(tax, categoryType) ==> IsSubOf(CategoryTable(tax, categoryType), Lower(s))
    ensures IsSubOf(CategoryTable(tax, categoryType), Lower(s)) && s == Lower(s) ==>
      exists s' :: s' in GetAllSubcategories(tax, categoryType) && Lower(s') == s
  {
    var t := CategoryTable(tax, categoryType);
    FlattenMembers(t, s);
    if s in GetAllSubcategories(tax, categoryType) {
      var i :| 0 <= i < |t| && s in t[i].1;
      var j :| 0 <= j < |t[i].1| && t[i].1[j] == s;
      assert Lists(t[i].1, Lower(s));
    }
    if IsSubOf(t, Lower(s)) && s == Lower(s) {
      var i :| 0 <= i < |t| && Lists(t[i].1, s);
      var j :| 0 <= j < |t[i].1| && Lower(t[i].1[j]) == s;
      FlattenMembers(t, t[i].1[j]);
      assert t[i].1[j] in GetAllSubcategories(tax, categoryType);
    }
  }

  // ---------------------------------------------------------------------
  // The classifier

  /** What the fuzzy scorer returns: the chosen candidate and a 0-100 score. */
  datatype FuzzyHit = FuzzyHit(choice: string, score: int)

  /** `process.extractOne`, left abstract. */
  type Scorer = (string, seq<string>) -> FuzzyHit

  /** The one thing assumed of the scorer: it picks one of the candidates it is given. */
  ghost predicate IsScorer(extract: Scorer) {
    forall q, cs :: |cs| > 0 ==> extract(q, cs).choice in cs
  }

  /** `process.extractOne(q, cs) if cs else (None, 0)` */
  function ExtractOne(extract: Scorer, q: string, cs: seq<string>): FuzzyHit {
    if cs == [] then FuzzyHit("", 0) else extract(q, cs)
  }

  predicate KeywordHit(tax: Taxonomy, entry: (string, Pair), description: string, categoryType: string) {
    Contains(description, entry.0) && ValidateCategory(tax, categoryType, entry.1.0, entry.1.1)
  }

  /** Step 1: the pair of the first keyword, in table order, that occurs in the
      description and whose pair validates for the type. */
  function KeywordStep(tax: Taxonomy, description: string, categoryType: string): (r: Option<Pair>)
    ensures r.Some? <==> exists i :: 0 <= i < |tax.keywords| && KeywordHit(tax, tax.keywords[i], description, categoryType)
    ensures r.Some? ==> exists i ::
              && 0 <= i < |tax.keywords| && KeywordHit(tax, tax.keywords[i], description, categoryType)
              && r.value == tax.keywords[i].1
              && forall j :: 0 <= j < i ==> !KeywordHit(tax, tax.keywords[j], description, categoryType)
  {
    var hit := (e: (string, Pair)) => KeywordHit(tax, e, description, categoryType);
    match FirstMatch(tax.keywords, hit)
    case None => None
    case Some(i) => Some(tax.keywords[i].1)
  }

  /** Steps 2 and 3 share this acceptance test: a non-empty choice scoring at
      least the threshold, whose main category (from the reverse index)
      validates together with it. */
  function AcceptFuzzy(tax: Taxonomy, hit: FuzzyHit, threshold: int, categoryType: string): (r: Option<Pair>)
    ensures r.Some? ==>
              && r.value.1 == hit.choice && hit.choice != "" && hit.score >= threshold
              && ValidateCategory(tax, categoryType, r.value.0, r.value.1)
              && LookupMainCategory(tax, hit.choice) == Some(r.value.0)
  {
    if hit.choice != "" && hit.score >= threshold then
      match LookupMainCategory(tax, hit.choice)
      case Some(main) =>
        if main != "" && ValidateCategory(tax, categoryType, main, hit.choice) then Some((main, hit.choice)) else None
      case None => None
    else None
  }

  /** Step 3: the words of the description, left to right; the first whose
      fuzzy hit (threshold 85) is accepted wins. */
  function WordStep(tax: Taxonomy, words: seq<string>, categoryType: string, candidates: seq<string>, extract: Scorer): (r: Option<Pair>)
    ensures r.Some? ==> exists i ::
              && 0 <= i < |words|
              && r == AcceptFuzzy(tax, ExtractOne(extract, words[i], candidates), 85, categoryType)
              && forall j :: 0 <= j < i ==> AcceptFuzzy(tax, ExtractOne(extract, words[j], candidates), 85, categoryType).None?
    ensures r.None? ==> forall i :: 0 <= i < |words| ==>
      AcceptFuzzy(tax, ExtractOne(extract, words[i], candidates), 85, categoryType).None?
  {
    var hit := (w: string) => AcceptFuzzy(tax, ExtractOne(extract, w, candidates), 85, categoryType).Some?;
    match FirstMatch(words, hit)
    case None => None
    case Some(i) => AcceptFuzzy(tax, ExtractOne(extract, words[i], candidates), 85, categoryType)
  }

  /** Step 4: ("Miscellaneous", "unexpected") for 'expense', ("Other", "reimbursement") otherwise. */
  function Fallback(categoryType: string): Pair {
    (if categoryType == "expense" then "Miscellaneous" else "Other",
     if categoryType == "expense" then "unexpected" else "reimbursement")
  }

  /** Steps 2 and 3 together: the whole-phrase hit if accepted at 80, else
      the first accepted per-word hit. Whatever they return validates and,
      for a scorer that picks among its candidates, is one of the type's
      subcategories. */
  function FuzzySteps(tax: Taxonomy, description: string, categoryType: string, extract: Scorer): (r: Option<Pair>)
    ensures r.Some? ==> ValidateCategory(tax, categoryType, r.value.0, r.value.1)
    ensures r.Some? && IsScorer(extract) ==> r.value.1 in GetAllSubcategories(tax, categoryType)
  {
    var subs := GetAllSubcategories(tax, categoryType);
    var phrase := AcceptFuzzy(tax, ExtractOne(extract, description, subs), 80, categoryType);
    if phrase.Some? then phrase
    else
      var words := Words(description);
      var r := WordStep(tax, words, categoryType, subs, extract);
      assert r.Some? ==>
               && ValidateCategory(tax, categoryType, r.value.0, r.value.1)
               && (IsScorer(extract) ==> r.value.1 in subs) by {
        if r.Some? {
          var i :| 0 <= i < |words|
            && r == AcceptFuzzy(tax, ExtractOne(extract, words[i], subs), 85, categoryType);
        }
      }
      r
  }

  /** The taxonomy holds both fallback pairs, each for its own type. */
  ghost predicate Sound(tax: Taxonomy) {
    && ValidateCategory(tax, "expense", Fallback("expense").0, Fallback("expense").1)
    && ValidateCategory(tax, "income", Fallback("income").0, Fallback("income").1)
  }

  /** `suggest_category`: keyword table, then whole-phrase fuzzy match (>= 80),
      then per-word fuzzy match (>= 85), then the fallback. Total; for
      'expense' and 'income' the pair validates whenever the taxonomy holds
      its fallbacks, as the shipped one does. */
  function SuggestCategory(tax: Taxonomy, description: string, categoryType: string, extract: Scorer): (r: Pair)
    ensures Sound(tax) && (categoryType == "expense" || categoryType == "income") ==>
      ValidateCategory(tax, categoryType, r.0, r.1)
    ensures r == Fallback(categoryType) || ValidateCategory(tax, categoryType, r.0, r.1)
    ensures IsScorer(extract) ==>
      || r == Fallback(categoryType)
      || (exists i :: 0 <= i < |tax.keywords| && r == tax.keywords[i].1)
      || r.1 in GetAllSubcategories(tax, categoryType)
  {
    var d := Lower(description);
    match KeywordStep(tax, d, categoryType)
    case Some(p) => p
    case None =>
      match FuzzySteps(tax, d, categoryType, extract)
      case Some(p) => p
      case None => Fallback(categoryType)
  }

  /** The shipped tables list both fallback pairs. */
  lemma ShippedIsSound()
    ensures Sound(Shipped)
  {
    var t := ExpenditureCategories;
    assert Lower(t[9].0) == Lower("Miscellaneous");
    assert Lower(t[9].1[5]) == Lower("unexpected");
    assert Lists(t[9].1, Lower("unexpected"));
    var u := IncomeCategories;
    assert Lower(u[4].0) == Lower("Other");
    assert Lower(u[4].1[5]) == Lower("reimbursement");
    assert Lists(u[4].1, Lower("reimbursement"));
  }

  // ---------------------------------------------------------------------
  // Consequences for particular labels

  /** "Other" is no expense main category (none of the ten has five letters). */
  lemma OtherIsNotAnExpenseMain()
    ensures !IsMainOf(ExpenditureCategories, "other")
  {
    var t := ExpenditureCategories;
    forall i | 0 <= i < |t| ensures Lower(t[i].0) != "other" {
      assert |t[i].0| != 5;
    }
  }

  /** "gifts" is listed under Personal, Charity and Other; the last row wins,
      so the index sends it to the income main "Other". Hence the keyword
      "gift" is skipped for an expense, and a fuzzy hit on "gifts" is never
      accepted for an expense, whatever its score. */
  lemma GiftsNeverClassifyAnExpense(description: string, score: int, threshold: int)
    ensures LookupMainCategory(Shipped, "gifts") == Some("Other")
    ensures !ValidateCategory(Shipped, "expense", "Other", "gifts")
    ensures !KeywordHit(Shipped, KeywordMappings[14], description, "expense")
    ensures AcceptFuzzy(Shipped, FuzzyHit("gifts", score), threshold, "expense").None?
  {
    OtherIsNotAnExpenseMain();
    assert Lower("Other") == "other";
  }

  /** `validate_category` checks the main and the subcategory separately:
      ("Food", "rent") validates for an expense although "rent" is listed
      only under "Housing". */
  lemma ValidationIgnoresPairing()
    ensures ValidateCategory(Shipped, "expense", "Food", "rent")
  {
    var t := ExpenditureCategories;
    assert Lower(t[2].0) == Lower("Food");
    assert Lower(t[0].1[0]) == Lower("rent");
    assert Lists(t[0].1, Lower("rent"));
  }
}
