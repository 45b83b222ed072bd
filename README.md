# AI-Financial-Tracker core, modelled in Dafny

AI-Financial-Tracker is a personal finance assistant. A user types sentences such as
"paid 500 rupees for groceries and received 2000 from Rahul". A rule-based parser
turns each sentence into transaction records. A category classifier attaches a
(main category, subcategory) pair from a fixed taxonomy to each record. A transaction
store keeps the records together with per-category budget spending and per-person
balances. A set of advisors produces debt payoff plans, investment allocations,
savings plans, emergency-fund ranges and spending forecasts.

This project models four parts of that core and proves properties of them:

- **the category classifier** (`categories.dfy`): the two taxonomy tables, the keyword table and the
  subcategory-to-main reverse index built by `CategoryManager`. It also covers the validity check, the
  table selectors and the layered classifier `suggest_category`, which tries keywords, then a fuzzy
  phrase match, then fuzzy word matches, then a fixed fallback;
- **the transaction parser** (`nlp_parser.dfy`, with `patterns.dfy` and `text.dfy`): clause splitting
  on `and` and the "current action" threaded from clause to clause. It covers the field-by-field
  extraction of one record (amount, item, person, date offset, group split) and the status fold of
  `process`. The regular expressions are written out as explicit scanners that follow Python's
  backtracking semantics;
- **the advisors** (`debt_optimizer.dfy`, `advisors.dfy`, with `numbers.dfy` and `sorting.dfy`):
  - the month-by-month debt payoff simulation, as in-place array methods proved against functions;
  - the investment allocation table;
  - the arithmetic skeletons of the savings plan, the emergency fund and the forecaster;
- **the transaction store** (`database.dfy`): the persons, transactions and budgets tables as fields of
  a class, with record validation, single and bulk insertion (all-or-nothing validation and the
  duplicate filter), budget accumulation, signed person balances and the typed, date-ordered listing.

`pipeline.dfy` connects the parser's output to the store's validation.

Modelling conventions:

- The taxonomy (the two category tables and the keyword table) is a parameter, `Categories.Taxonomy`,
  of the classifier's functions. `Categories.Shipped` holds the module-level tables of
  `core/categories.py`, and the properties that depend on their contents are stated about it.
- Python floats are `real`. `round(..., 2)` is not modelled.
- Calendar dates are day numbers, and "today" is a parameter.
- Strings are `seq<char>` and letter case follows ASCII.
- The fuzzy matcher `fuzzywuzzy.process.extractOne` is a function parameter (`Categories.Scorer`).
  Where a property needs it, the parameter is assumed to return one of the offered candidates
  (`Categories.IsScorer`).
- Library statistics are parameters of the functions that use them:
  - the normal quantile `z`;
  - the sample standard deviation, constrained by `Advisors.IsSampleStd` to be absent for fewer than
    two values and zero for equal values;
  - the Monte-Carlo success rate.
- Where a Python function returns an `{'error': ...}` dictionary or raises `ValueError`, the model
  returns `Err(message)` with the same message.

Where the repository's tests disagree with the code, the model follows the code:

- `tests/test_models.py:34` expects a `confidence_95` key that the forecaster never produces.
- `tests/test_models.py:47` expects a `ValueError` for two monthly totals with a window of 3. The code
  returns the plain mean of the two totals, marked "(insufficient data)" (`core/models.py:44-51`), and so
  does `Advisors.ForecastSpec` (`Advisors.ForecastMeaning`).
- `tests/test_models.py:77` expects an unknown risk profile to fall back to "moderate", but the code
  returns an error (`Advisors.StrategyOutcome`).
- `tests/test_models.py:103` expects a zero recommendation when the goal is already met (see Findings).
- `tests/test_parser.py` targets a parser class that does not exist in the code.

A clause with no verb in force gets a "No action found" error entry (`core/nlp_parser.py:66-67`). A clause
with a verb in force is dropped silently when its parse raises (`core/nlp_parser.py:63-65`). That happens
when it has no digit, so no amount (`core/nlp_parser.py:97-101`), or when a group word comes with a written
count of 0, which divides by zero (`core/nlp_parser.py:130`). A clause without an item match does not fail:
its description falls back to the text after the verb (`core/nlp_parser.py:110-111`). The model does the same.

## Model

| member | source | states |
|---|---|---|
| Text.Lower | core/nlp_parser.py:52 | lowercasing keeps the length and leaves no upper-case letter |
| Text.Strip | core/nlp_parser.py:52 | the result is the input without leading or trailing whitespace: a slice whose ends are not spaces |
| Text.Capitalize | core/nlp_parser.py:115 | the first character is not a lower-case letter, the rest is lowercased, and the length is kept |
| Text.ContainsIff | core/categories.py:98 | Python's `in` on strings holds iff the needle occurs at some index |
| Text.Words | core/categories.py:114 | `split()` yields non-empty words with no whitespace in them, and no words iff the text is all whitespace |
| Text.LastPiece | core/nlp_parser.py:111 | `split(verb)[-1]` is the whole text when the separator does not occur, and otherwise the text after some occurrence of it; it holds no occurrence itself, so it is the text after the last occurrence |
| Categories.IndexLastWins | core/categories.py:62-66 | the reverse index built by the nested loop has a key iff some main lists it, and maps it to the LAST main in table order that lists it |
| Categories.CategoryManager.constructor | core/categories.py:62-66 | after the loop, `subToMain` is exactly the index of the merged table (every lowercased label maps to its last listing main) |
| Categories.LookupMainCategory | core/categories.py:82-83 | a label has a main iff some main lists its lowercased form, and the result is the last such main |
| Categories.CategoryManager.GetMainCategory | core/categories.py:68-69 | the object's lookup is case-insensitive and agrees with the table-level lookup, None for unknown labels |
| Categories.HasMain | core/categories.py:77 | membership of the lowercased main among the table's keys, both directions |
| Categories.HasSub | core/categories.py:78 | membership of a label in some subcategory list of the table, both directions |
| Categories.ValidateCategory | core/categories.py:73-80 | true iff the main is a key of the selected table (income only for "income") and the subcategory sits under some main of that table |
| Categories.ValidationIgnoresPairing | core/categories.py:77-80 | ("Food","rent") validates as an expense although rent is a Housing subcategory |
| Categories.GetCategoryHierarchy | core/categories.py:129-134 | income table for "income", expense table for "expense", the merged table for any other string |
| Categories.FlattenMembers | core/categories.py:85-90 | a label is in the flattened list iff some main of the table lists it |
| Categories.GetAllSubcategories | core/categories.py:85-90 | the result is the concatenation of the selected table's subcategory lists in table order |
| Categories.SubcategoriesAreValidSubs | core/categories.py:85-90 | for "income" and "expense", every listed label is a subcategory of that table, and every lower-case subcategory of the table is listed up to case |
| Categories.KeywordStep | core/categories.py:96-101 | the keyword step answers iff some keyword is a substring of the description with a validating pair, and then answers the first such keyword's pair |
| Categories.AcceptFuzzy | core/categories.py:104-111 | a fuzzy hit is accepted only at or above the threshold, and only with its label's main and a validating pair |
| Categories.WordStep | core/categories.py:113-121 | the word step answers with the first word, left to right, whose hit is accepted at 85; None means no word's hit is accepted |
| Categories.FuzzySteps | core/categories.py:103-121 | a fuzzy answer always validates, and with a well-behaved scorer its subcategory is drawn from the type's subcategory list |
| Categories.SuggestCategory | core/categories.py:92-127 | total: the result is the fallback or a validating pair; for "expense" and "income" it always validates when the taxonomy holds its own fallback pairs; with a well-behaved scorer the result is the fallback, a keyword-table pair or a pair whose subcategory comes from the type's list |
| Categories.ShippedIsSound | core/categories.py:123-127 | in the shipped tables the fallback pair ("Miscellaneous","unexpected") validates as an expense and ("Other","reimbursement") as income, so every suggestion for those two types validates |
| Categories.OtherIsNotAnExpenseMain | core/categories.py:20-31 | "Other" is not a main category of the expense table |
| Categories.GiftsNeverClassifyAnExpense | core/categories.py:58 | "gifts" maps to the income main "Other", so neither the keyword step nor a fuzzy hit can classify an expense as gifts |
| Patterns.SplitOnAnd | core/nlp_parser.py:55 | splitting on whitespace-delimited "and" gives at least one piece |
| Patterns.NoDigitsInPieces | core/nlp_parser.py:55 | a text with no digits yields pieces with no digits |
| Patterns.NoSeparatorOnePiece | core/nlp_parser.py:55 | a text without the separator is its own single piece |
| Patterns.SplitJoinedClause | core/nlp_parser.py:55 | a clause without the separator, followed by " and " and a rest, is split off as the first piece |
| Patterns.SeparatorAfterClause | core/nlp_parser.py:55 | " and " placed after a clause is matched as a separator at the clause's end and spans exactly those five characters |
| Patterns.FirstKey | core/nlp_parser.py:58-61 | the first table key, in table order, that is a substring of the text; None iff no key occurs |
| Patterns.Lookup | core/models.py:83-87 | dictionary lookup: a found value belongs to an entry with the key, and None means no entry has the key |
| Patterns.AmountDigits | core/nlp_parser.py:97 | the `\d+\.?\d*` match exists iff the text has a digit; its integer part is a non-empty run of digits and its fraction part is digits |
| Patterns.AmountDigitsFirstNumber | core/nlp_parser.py:97 | the captured parts are the greedy match at the first digit: the whole digit run there, and after a point that follows it, the whole digit run after the point |
| Patterns.NumberAtUnique | core/nlp_parser.py:97 | at a given position the greedy `\d+\.?\d*` match is determined: two readings of it agree |
| Patterns.AmountMatch | core/nlp_parser.py:97-101 | an amount is found iff the text contains a digit, and it is never negative |
| Patterns.AmountMatchFirstNumber | core/nlp_parser.py:97-101 | an amount is found iff some digit is the first one, and it is `float()` of the integer and fraction digits of the greedy match at the first digit |
| Patterns.DecimalStringValue | core/models.py:50 | the decimal rendering of a number reads back as that number |
| Patterns.AmountOfWrittenNumber | core/nlp_parser.py:97-101 | a clause "paid N ..." yields exactly the amount N |
| Patterns.ItemSearch | core/nlp_parser.py:103 | a captured item lies strictly inside the clause: after its first character and before its last |
| Patterns.ItemSearchLeftmost | core/nlp_parser.py:103 | the capture is the one the alternatives give, tried in order, at the leftmost start position where one of them matches; no capture means no start position has a match |
| Patterns.ItemMatchShape | core/nlp_parser.py:103-105 | a captured item follows an opener word and whitespace, is followed by a closer, and contains no newline |
| Patterns.ItemNeverEndsClause | core/nlp_parser.py:103 | an item cannot end the stripped clause, since the `$` alternative needs whitespace before it |
| Patterns.PiecesEndInNonSpace | core/nlp_parser.py:55 | when the text does not end in whitespace, no piece of the split does, because a separator match starts at the beginning of its whitespace run |
| Patterns.PersonSearch | core/nlp_parser.py:113 | a "by/from NAME" match returns a non-empty run of lower-case letters; None means no position matches |
| Patterns.PersonSearchLeftmost | core/nlp_parser.py:113 | the name returned is the one captured at the leftmost position where the pattern matches |
| Patterns.CountSearch | core/nlp_parser.py:129 | a "N people/persons/members" match is the count read at some digit of the text; None means no position matches |
| Patterns.CountSearchLeftmost | core/nlp_parser.py:129 | the count returned is the one read at the leftmost position where the pattern matches |
| Patterns.CountSearchTwelve | core/nlp_parser.py:129 | "split 12 people" is read as 12, not as the 2 that also precedes " people" |
| NlpParser.VerbTableShape | core/nlp_parser.py:29-36 | every action verb maps to "expense" or "income" |
| NlpParser.ResolveActionFacts | core/nlp_parser.py:86-95 | the first verb found sets the type; without one the carried action is used; with neither the clause fails |
| NlpParser.FindVerb | core/nlp_parser.py:86-95 | the table scan loop returns the specified action resolution |
| NlpParser.DescribeFacts | core/nlp_parser.py:103-111 | with an item match, the category validates for the record's type under a sound taxonomy such as the shipped tables; without one, the description is the stripped text after the last verb and the category is Miscellaneous/unexpected |
| NlpParser.PersonOfFacts | core/nlp_parser.py:113-119 | a "by/from" name becomes the capitalized person; otherwise the first word only under the four stated conditions |
| NlpParser.DateFacts | core/nlp_parser.py:121-124 | the date is today shifted by 0, -1, +1, -7 or +7 days, unshifted without a keyword, and yesterday gives -1 |
| NlpParser.GroupFacts | core/nlp_parser.py:126-131 | the first group keyword sets the group, with ratio 1/N for a written count N and 1/D for the keyword's default size D when no count is written; a written count of 0 is the only failure; no keyword gives no group and ratio 1; any ratio lies in (0, 1] |
| NlpParser.ParseSingleFacts | core/nlp_parser.py:71-137 | a clause yields a record iff the action resolves, the clause has a digit, and it is not a group word with a written count of 0; its amount is the matched number; its currency is always INR, its split ratio in (0, 1] and its type comes from the verb table; a captured item gets a category that validates for that type under the shipped tables, and no item gives Miscellaneous/unexpected even for income |
| NlpParser.ParseSingleOk | core/nlp_parser.py:86-137 | a clause parses iff the action resolves, it has a digit, and it is not a group word with a written count of 0: the person step cannot raise once a digit is present |
| NlpParser.PersonOfDigits | core/nlp_parser.py:113-119 | on a clause with a digit the person step does not raise, because `text.split()[0]` exists |
| NlpParser.ParseSingleTransaction | core/nlp_parser.py:71-137 | the field-by-field method builds exactly the specified record or failure |
| NlpParser.Clauses | core/nlp_parser.py:52-55 | the lowercased, stripped input splits into at least one clause |
| NlpParser.ClausesEndInNonSpace | core/nlp_parser.py:52-55 | no clause ends in whitespace: the input is stripped before the split, and the split cuts at the start of a whitespace run |
| NlpParser.ClauseItemNeverEnds | core/nlp_parser.py:103 | in every clause parse builds, a captured item is followed by whitespace and a closing word, never by the end of the clause |
| NlpParser.ParseSpec | core/nlp_parser.py:50-69 | parsing never returns an empty list, and gives at most one entry per clause unless it is the single "No valid transactions found" error |
| NlpParser.Parse | core/nlp_parser.py:50-69 | the clause loop with its carried action returns the specified entries |
| NlpParser.ParseClauses | core/nlp_parser.py:56-67 | the loop over the clauses builds the entries of the specified fold |
| NlpParser.ParseClause | core/nlp_parser.py:57-67 | one clause updates the carried action and the entries exactly as one step of the fold |
| NlpParser.EntriesAtMostClauses | core/nlp_parser.py:57-65 | each clause contributes at most one entry |
| NlpParser.LeadingWithoutVerb | core/nlp_parser.py:56-61 | counts exactly the leading clauses before the first clause that names a verb |
| NlpParser.FoldShape | core/nlp_parser.py:56-67 | the fold's entries are at most one per clause: the "No action found" errors of the leading verb-less clauses, in order, followed only by records; no verb is in force iff no clause named one |
| NlpParser.ShapeStep | core/nlp_parser.py:56-67 | one more clause keeps the fold's shape: an error while no verb has been seen, otherwise a record or nothing |
| NlpParser.LastVerbClause | core/nlp_parser.py:56-61 | the last clause naming a verb, None iff no clause names one |
| NlpParser.VerbCarriesOver | core/nlp_parser.py:56-61 | after the loop, the current action is the verb of the last clause that named one |
| NlpParser.FoldRecords | core/nlp_parser.py:56-65 | the records the clause loop collects are exactly the successful single-clause parses of the clauses that have a verb in force, each parsed with the verb of the last clause up to it that named one, in clause order |
| NlpParser.ParseRecords | core/nlp_parser.py:50-69 | the records parse returns are exactly the successful single-clause parses of its clauses with the verb in force, in clause order |
| NlpParser.SingleClauseRecord | core/nlp_parser.py:50-69 | a one-clause utterance that names a verb, contains a digit and is not a group word with a written count of 0 yields exactly one entry: a record whose amount is the clause's first number and whose type is the verb's |
| NlpParser.ErrorsPrecedeRecords | core/nlp_parser.py:57-69 | in parse's output no error entry follows a record |
| NlpParser.NoDigitsNoRecords | core/nlp_parser.py:97-101 | an input without digits yields only error entries, and only the fallback error when its first clause names a verb |
| NlpParser.NoRecordsFromDigitlessClauses | core/nlp_parser.py:97-101 | digit-less clauses contribute no record: the entries are exactly one error per clause before the first verb |
| NlpParser.ProcessSpec | core/nlp_parser.py:139-152 | the closing message says whether any transaction was processed |
| NlpParser.Process | core/nlp_parser.py:139-152 | the method returns the specified response and hands exactly the response's transactions to the store |
| NlpParser.Collect | core/nlp_parser.py:141-152 | the status loop returns the specified response and hands over exactly its transactions |
| NlpParser.StatusMeaning | core/nlp_parser.py:143-150 | status is success iff there are no errors; otherwise partial iff a record preceded the last error, else error |
| NlpParser.ProcessCollectsRecords | core/nlp_parser.py:143-146 | process collects exactly the records among the entries, in order |
| NlpParser.ProcessHandsClauseRecords | core/nlp_parser.py:139-146 | process hands the store exactly the records the utterance's clauses yield, in clause order |
| NlpParser.ParseNeverPartial | core/nlp_parser.py:139-150 | on parse's own output the status is never partial |
| Numbers.MeanBounds | core/models.py:45 | the mean of values within [lo, hi] lies within [lo, hi] |
| Numbers.MeanOfEqual | core/models.py:54 | the mean of equal values is that value |
| Sorting.InsertKeepsKeyOrder | core/models.py:158-163 | inserting an element keeps the relative order of the elements sharing a key, and places it before every element with its own key |
| Sorting.SortCorrect | core/models.py:158-163 | the stable sort is a permutation, ordered by the key, and keeps the input order of equal keys |
| DebtPayoff.ValidateAccepts | core/models.py:151-156 | the debt list is accepted iff every debt has all three keys with non-negative values, and each is converted unchanged |
| DebtPayoff.ValidateRejectsFirstBad | core/models.py:151-156 | the first bad debt decides the error message |
| DebtPayoff.ValidateMessage | core/models.py:151-156 | a rejection says a key is missing or a value is negative |
| DebtPayoff.ValidateDebts | core/models.py:151-156 | the validation loop returns the specified result |
| DebtPayoff.OrderingMeaning | core/models.py:158-163 | snowball orders by ascending balance, anything else by descending rate; the order is a stable permutation |
| DebtPayoff.InterestNonNegative | core/models.py:176-180 | interest on a balance at a non-negative rate is non-negative |
| DebtPayoff.MonthInterestNonNegative | core/models.py:176-180 | the month's total interest is non-negative |
| DebtPayoff.AccruedNonNegative | core/models.py:176-180 | accrual keeps balances non-negative and never lowers one |
| DebtPayoff.AccrueInterest | core/models.py:176-180 | the in-place loop leaves the array equal to the accrued balances and returns the month's interest |
| DebtPayoff.PayMinimumFacts | core/models.py:183-187 | one minimum payment takes min(minimum, pool, balance), so balance and pool stay non-negative |
| DebtPayoff.PayMinimumsConserve | core/models.py:183-187 | minimum payments keep balances and pool non-negative, and what leaves the pool is what leaves the balances |
| DebtPayoff.PayMinimumsInPlace | core/models.py:183-187 | the in-place loop leaves the array equal to the paid balances and returns the remaining pool |
| DebtPayoff.FirstPositiveIsFirst | core/models.py:190-195 | the surplus target is the first positive balance |
| DebtPayoff.SurplusFacts | core/models.py:190-195 | the surplus changes only the first positive debt, conserves money and keeps everything non-negative |
| DebtPayoff.SurplusTargetsPriority | core/models.py:190-195 | the debt that receives the surplus has the best key among the debts still owed |
| DebtPayoff.PaySurplus | core/models.py:190-195 | the in-place scan leaves the array equal to the specified surplus payment and returns the rest |
| DebtPayoff.MonthNonNegative | core/models.py:171-195 | a whole month keeps balances non-negative and its interest is non-negative |
| DebtPayoff.PoolNonNegative | core/models.py:166 | the monthly pool, the sum of minimums, is non-negative |
| DebtPayoff.PoolOfZeroMinimums | core/models.py:166 | zero minimum payments give a zero pool |
| DebtPayoff.RunMonth | core/models.py:171-195 | one month over the array leaves it equal to the specified month's balances and returns that month's interest |
| DebtPayoff.PayoffStep | core/models.py:170-199 | while a balance is positive and the cap is not reached, the run goes on from the balances one month later with that month's interest added |
| DebtPayoff.RunSucceeds | core/models.py:170-199 | for any monthly step, a successful run ends at the first month with no positive balance, within the cap |
| DebtPayoff.RunFails | core/models.py:198-199 | for any monthly step, the cap error means a balance was positive after every month up to the cap |
| DebtPayoff.RunNeverPaysOff | core/models.py:198-199 | a step that never clears a positive balance always ends in the cap error |
| DebtPayoff.PayoffMeaning | core/models.py:170-199 | success stops at the first month with no positive balance, within 1000 months; the cap error means balances were still positive in every month |
| DebtPayoff.PayoffInterest | core/models.py:197 | the total interest never decreases over the simulation |
| DebtPayoff.ZeroPoolKeepsDebt | core/models.py:171-195 | with an empty pool a positive balance never goes down in a month |
| DebtPayoff.ZeroPoolPaysNothing | core/models.py:183-187 | with an empty pool, minimum payments change nothing |
| DebtPayoff.SurplusFromEmptyPool | core/models.py:190-195 | an empty pool pays no surplus |
| DebtPayoff.ZeroPoolNeverPaysOff | core/models.py:198-199 | a positive debt with an empty pool always ends in the 1000-month error |
| DebtPayoff.Simulate | core/models.py:165-199 | the month loop over an array of balances returns the specified payoff result |
| DebtPayoff.OptimizeOutcome | core/models.py:141-210 | no debts gives (0, 0, "No debts provided"); errors are only the validation and cap messages; success means valid debts, at most 1000 months, non-negative interest and the method's name |
| DebtPayoff.SortedDebtsNonNegative | core/models.py:151-163 | sorting validated debts keeps them non-negative |
| DebtPayoff.OptimizeRejects | core/models.py:151-156 | a bad debt makes optimize return the first bad debt's error |
| DebtPayoff.OptimizeDebtFree | core/models.py:165-207 | valid debts with all-zero balances give 0 months and 0 interest |
| DebtPayoff.OptimizeNoMinimums | core/models.py:198-199 | a positive balance with zero minimum payments ends in the cap error |
| DebtPayoff.RollOverExample | core/models.py:183-195 | an illustration on one input (the general property is `DebtPayoff.SurplusFacts`): the pool left after minimums goes to the first debt, so two interest-free debts of 100 and 10 with minimums of 50 and a pool of 100 are paid off in two months |
| DebtPayoff.Optimize | core/models.py:141-210 | the method returns the specified plan or error |
| Advisors.BaseAllocations | core/models.py:83-87 | each base allocation sums to 100, with stocks between 30 and 70, bonds at least 20 and cash 5 |
| Advisors.StrategyOutcome | core/models.py:76-101 | horizon <= 0 and unknown profiles are errors, in that order; otherwise the allocation sums to 100 with shares in [0,100] |
| Advisors.HorizonShift | core/models.py:89-95 | a long horizon moves 10 from bonds to stocks within bounds, a short one moves 20 from stocks to cash, and 3..10 keeps the base |
| Advisors.PlanMeaning | core/models.py:104-138 | errors exactly for negative amounts or a timeframe <= 0; required*months == goal - current; recommended <= required and <= 30% of income; advice iff success < 0.7 |
| Advisors.GoalMetRecommendsNegative | core/models.py:112-114 | with 40000 saved toward 30000 the recommended monthly amount is negative |
| Advisors.IntendedPlanMeaning | core/models.py:112-114 | the corrected plan recommends between 0 and 30% of income, 0 when the goal is met, with the same errors |
| Advisors.EqualValuesNoDeviation | core/models.py:55 | equal values have zero squared deviation from their value |
| Advisors.EqualValuesZeroStd | core/models.py:55 | the sample deviation of two or more equal values is 0 |
| Advisors.RecommendRange | core/models.py:237-243 | with data the range is the average times the minimum and maximum months times the adjustment factor |
| Advisors.DependentsRaiseRange | core/models.py:237-243 | with positive average spending, more dependents strictly raise both ends of the range |
| Advisors.VariableIncomeRaisesRange | core/models.py:237-243 | variable income strictly raises both ends of the range over stable income |
| Advisors.FundAdviceMeaning | core/models.py:217-243 | errors exactly for no data; the average lies within the data's bounds; the range is non-negative and ordered |
| Advisors.ForecastMeaning | core/models.py:35-73 | errors exactly for no data; the prediction lies within the data's bounds; no interval iff fewer totals than the window; the short case is the mean; the interval is symmetric |
| Advisors.FlatHistory | core/models.py:54-66 | a window of equal totals predicts that total with a zero-width interval |
| Database.CompleteMeansAllFields | core/database.py:93-96 | a complete record has every required field |
| Database.MissingMeansIncomplete | core/database.py:93-96 | the scan for a missing field finds none iff the record is complete, and the field it reports is absent |
| Database.ValidateMeaning | core/database.py:92-100 | accepted iff all six fields are present, the amount is a positive number and the type is income or expense; the error names the first missing field; the record keeps the fields and defaults currency INR and ratio 1 |
| Database.ValidateTransaction | core/database.py:92-100 | the validation method returns the specified verdict |
| Database.IndexOfName | core/database.py:106-107 | the person lookup returns a row holding that name, and None iff no row holds it |
| Database.LinkPersonFacts | core/database.py:102-109 | an empty or absent name, or a known one, leaves the table unchanged; an unknown name appends exactly one row with the next id and total 0; the table stays well-formed and the name is known afterwards |
| Database.PersonIdOfWellFormed | core/database.py:102-109 | a linked id always points at the row holding that name |
| Database.LinkAllFacts | core/database.py:154-157 | pre-creating the batch's persons only appends zero-balance rows, keeps earlier rows and well-formedness, and leaves every named person of the batch with a row |
| Database.LinkAllExtends | core/database.py:154-157 | pre-creation keeps the persons table well formed, keeps its earlier rows and names, and adds only zero-balance rows |
| Database.LinkAllKnowsBatch | core/database.py:154-157 | after pre-creation every named person of the batch has a row |
| Database.LinkAllKnown | core/database.py:154-157 | when every named person of the batch is already known, pre-creation leaves the persons table unchanged |
| Database.TransactionStore.constructor | core/database.py:48-90 | the store starts with three empty tables, which satisfy the ledger invariant |
| Database.TransactionStore.GetPersonId | core/database.py:102-109 | insert-or-ignore then select: the returned id names the row with that name, and the persons table changes only by that insertion |
| Database.TransactionStore.UpdateBudget | core/database.py:208-219 | the category's spending grows by the amount, starting from a zero-limit row when absent; other budgets are unchanged |
| Database.TransactionStore.UpdatePersonBalance | core/database.py:227-234 | the person's total owed rises by an expense and falls by income; nothing else changes |
| Database.TransactionStore.AddTransaction | core/database.py:111-144 | an invalid record changes nothing; a valid one appends one row, updates the budget and the person, and keeps the ledger invariant |
| Database.AddKeepsWellFormed | core/database.py:111-144 | adding a record keeps the invariant (budgets and balances equal the sums over the stored rows) and appends one row with the record's key |
| Database.AddRejectsWholly | core/database.py:113 | a rejected record is rejected with the validation message before any write |
| Database.StoreIsInsert | core/database.py:116-138 | storing a validated record is linking its person and then inserting its row with the bookkeeping |
| Database.InsertKeepsWellFormed | core/database.py:135-138 | inserting a row with its budget and balance updates preserves the ledger invariant |
| Database.InsertRowsWellFormed | core/database.py:177-194 | the inserted rows continue the id numbering, keep positive amounts and valid types, and link only existing persons |
| Database.InsertBudgetsLedger | core/database.py:195-197 | after the batch each budget's spending is the sum of the stored expenses of its category, and every stored expense has a budget |
| Database.InsertBalancesLedger | core/database.py:198-199 | after the batch each person's total owed is the signed sum of the rows linked to them |
| Database.ValidateAllMeaning | core/database.py:148-149 | a batch is accepted iff every item validates; the error is the first failing item's message |
| Database.ValidateAllStops | core/database.py:148-149 | when the items before it validate, the first invalid item's message is the batch's error |
| Database.ValidatedAccepted | core/database.py:148-149 | every validated record of an accepted batch is an accepted record |
| Database.FreshMeaning | core/database.py:165-169 | an item is kept iff its (date, description, amount) key is not already stored; order and in-batch repeats are kept |
| Database.FreshMembers | core/database.py:165-169 | a record is kept iff it is in the batch with a key not yet stored, and the filter never lengthens the batch |
| Database.FreshKeepsNew | core/database.py:165-169 | a batch with no stored keys is kept whole |
| Database.FreshDropsOld | core/database.py:165-169 | a batch whose keys are all stored is filtered out entirely |
| Database.TransactionStore.ValidateBatch | core/database.py:148-149 | the validation loop returns the specified batch verdict |
| Database.TransactionStore.LinkBatch | core/database.py:154-157 | the loop pre-creates the batch's persons as specified and leaves transactions and budgets unchanged |
| Database.TransactionStore.ExistingKeys | core/database.py:160-163 | the loop collects exactly the keys of the stored rows |
| Database.TransactionStore.FreshRecords | core/database.py:165-169 | the filter loop keeps exactly the records whose key is not stored |
| Database.TransactionStore.InsertRows | core/database.py:177-194 | the loop appends exactly the rows for the fresh records |
| Database.TransactionStore.ApplyBatch | core/database.py:195-199 | the loop applies every fresh record's budget and balance update |
| Database.TransactionStore.BulkAddTransactions | core/database.py:146-206 | an invalid item leaves the store unchanged; otherwise the store becomes the specified bulk result, keeping the ledger invariant |
| Database.BulkKeepsWellFormed | core/database.py:146-206 | bulk insertion keeps the ledger invariant |
| Database.BulkAllOrNothing | core/database.py:148-149 | a batch is rejected iff some item is invalid |
| Database.BulkIntoEmpty | core/database.py:165-169 | into an empty store every item of a valid batch is stored, repeats included |
| Database.BulkShape | core/database.py:171-199 | a valid batch stores the old rows followed by the fresh records' rows, keeps the pre-created persons and reports the number of fresh records (a count the model adds; the source returns None) |
| Database.KeyStored | core/database.py:160-194 | after the duplicate filter and the insert, every batch record's key is among the stored keys |
| Database.BulkStoresKeys | core/database.py:160-194 | after a bulk insertion every key of the batch is among the stored keys |
| Database.BulkTwiceStoresNothing | core/database.py:146-206 | repeating the same valid batch stores nothing and returns 0 |
| Database.ApplyAllPersons | core/database.py:195-199 | a batch's bookkeeping adds to each person's total owed exactly the batch's signed amounts for that name, and changes no row |
| Database.ApplyAllBudgets | core/database.py:195-199 | a batch's bookkeeping creates budgets exactly for new expense categories and adds each category's batch expenses to its spending |
| Database.OfTypeMeaning | core/database.py:244-246 | the type filter keeps exactly the rows of the given type, or all rows for an empty type |
| Database.TransactionStore.GetTransactions | core/database.py:236-257 | on well-formed tables the listing is ordered by date, most recent first, is a rearrangement of exactly the stored rows of the requested type (all rows for no type or an empty one), and carries each row's linked person's name, or None for a row without a person |
| Database.QueryMeaning | core/database.py:240-253 | the listing is ordered by date descending, is a permutation of the type-filtered rows, and joins each row with its person's name or None |
| Database.QueryOrdered | core/database.py:240-249 | the listing is ordered by date descending and is a permutation of the type-filtered rows |
| Database.QueryNamed | core/database.py:244-253 | each listed row has the requested type and carries the name of its linked person, or None |
| Pipeline.StoreTakesRecord | core/database.py:92-100 | a parsed record passes store validation iff its amount is positive, and is then stored with the same fields |
| Pipeline.ParsedRecordStored | core/nlp_parser.py:143-146 | every record parse produces has currency INR, and the store accepts it iff its amount is positive |

## Left out

- Unicode: lowercasing, capitalizing and `isalpha` follow ASCII only; `Text.IsSpace` is the full `str.isspace` set.
- Unicode: `\d` is taken as the ASCII digits 0-9, while Python's `re` also matches other Unicode decimal digits. This affects `Patterns.AmountMatch`, `Patterns.CountSearch`, `NlpParser.NoDigitsNoRecords` and `NlpParser.NoRecordsFromDigitlessClauses`.
- The fuzzywuzzy scoring algorithm: `extractOne` is an abstract parameter. The properties hold for any scorer that returns one of the offered candidates.
- The Monte-Carlo simulation of `calculate_plan` (`core/models.py:116-126`): the success rate is a parameter.
- scipy's `norm.ppf` and `norm.cdf`: the quantile `z` is a parameter. `probability_sufficient` of the emergency fund is not modelled.
- Square roots and standard deviations: the deviation is a parameter constrained by `Advisors.IsSampleStd`.
- pandas resampling and rolling windows: the forecaster and the emergency fund take the sequence of monthly totals. The check for missing `date`/`amount` columns becomes "no data".
- Advisors.ForecastMeaning: requires a window of at least 1, which the constructor's default (3) satisfies; other window sizes are not modelled.
- `round(..., 2)` and floating-point rounding error: reals are exact.
- Python's `max(timeframe_months, 1)` and the moderate fallback in `get_strategy` are modelled (`IntMax` in `Advisors.CalculatePlan`, the `None` case in `Advisors.GetStrategy`), but no input reaches them after the earlier checks, so no property is stated about them.
- SQLite specifics: connections, schema DDL, indexes, logging, commit/rollback and the `RuntimeError` raised on a database error.
- The date-driven budget reset (`core/database.py:220-224`): the model only increments spending.
- The `days_back` window of `get_transactions`: it depends on the current date, so the listing covers all stored rows.
- `get_budgets`, `get_persons`, `get_spending_summary` and `get_financial_overview`: plain reads, or depend on the current date.
- Database.ValidateMeaning: a `currency` or `split_ratio` key present with value None is treated as absent, so it defaults to INR or 1 instead of being stored as NULL; booleans, which Python accepts as numbers, are not a separate case.
- Database.QueryMeaning: SQLite leaves the order of rows with equal dates unspecified; the model orders them stably by insertion.
- `split_ratio` is stored as a number rather than as JSON text.
- NlpParser.Process: the store is an abstract collaborator. The records passed to it are returned as `handed` rather than inserted, and an exception raised by the store, which would abort `process`, is not represented. Pipeline.ParsedRecordStored states when the store would accept each record.
- Database.TransactionStore.AddTransaction: returns `Ok(1)` on success where `add_transaction` returns None; the count is the model's addition, and `Err` stands for the `ValueError` raised.
- Database.TransactionStore.BulkAddTransactions: returns `Ok` with the number of fresh records where `bulk_add_transactions` returns None; the count is the model's addition, and `Err` stands for the `ValueError` raised.
- `NLPParser.__init__` constructing a real database, `main.py` and `app.py`: input/output glue.
- `datetime.now()`: "today" is a day-number parameter. Dates are stored as day numbers rather than ISO strings.

## Findings

| source | as written | input that shows it | evidently intended | confidence | as-written member | corrected member |
|---|---|---|---|---|---|---|
| core/models.py:113-114 | recommended = min(required, 0.3 * income), which is negative when the goal is already met | current 40000, goal 30000, 12 months, income 5000 | recommend 0 when the goal is met, as `tests/test_models.py:103` expects | not executed | Advisors.GoalMetRecommendsNegative | Advisors.IntendedPlanMeaning |
