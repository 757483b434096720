# orcamentoPessoalOFX — a Dafny model of the budgeting core

This project models the transaction-to-expense pipeline of the personal budget
application `orcamento_2026`: bank statements are imported as transactions, a
language model suggests a category for each transaction, and a user consolidates
a transaction into an expense under a category and subcategory. It also models
the commands that seed the category catalogue and the accounts, and the command
that generates suggestions in batch.

How the model is laid out:

- **The database** (`models.dfy`). `Models.Db` holds six tables: accounts,
  categories, subcategories, transactions, expenses and suggestions. Each table is
  a sequence of rows in primary-key order, so a row's id is its position. Foreign
  keys are row ids. `Models.Valid` states the database constraints the code relies
  on:
  - a transaction's `fitid` is unique;
  - a category's name is unique;
  - a transaction has at most one expense and at most one suggestion (the two
    one-to-one links);
  - every foreign key points to an existing row.
- **The ORM calls** (`models.dfy`). `objects.create` and `objects.get_or_create`
  are pure functions from a database to a result and a new database. A refused
  insert comes back as `IntegrityError`, and a `get` that meets two rows as
  `MultipleObjectsReturned`.
- **The mutable store** (`store.dfy`). `Database.Store` is a class with one
  sequence field per table. Its methods change the fields exactly as the matching
  function of `Models` says, and they keep `Valid`.
- **Services and commands** (the other files). Each service or command is modelled
  twice:
  - a pure function that returns the result and the database afterwards, for
    example `Consolidation.Consolidate`;
  - a method over the `Store` that follows the source's steps and loops, for
    example `Consolidation.ConsolidateTransaction`. Its `ensures` ties it to the
    function.

  The properties are lemmas about the functions.
- **Inputs from outside the program** are parameters:
  - the parsed OFX records, as a sequence;
  - the parsed `categories.json`, as `Option<seq<Entry>>` (`None` when the file is
    missing);
  - `date.today()`;
  - the language-model call, as `backend: Prompt -> Option<Reply>`. `None` stands
    for the cases `_call_ollama_api` turns into `None`: a failed request, or a
    reply that is not JSON. A `Reply` is a JSON object whose `category`,
    `subcategory` and `description` are strings or missing.
- **Amounts** are integers (cents). **Dates** are `(year, month, day)` with the
  calendar rules of Python's `date`.
- **Case-insensitive comparison** uses `Text.Lower`. It lower-cases ASCII letters
  and the Latin-1 capitals, which include every accented Portuguese capital.

Behaviour of the code that is easy to miss, and that the model keeps:

- **`import_ofx` counts only what it creates.** It returns only
  `transactions_created`, not a skipped count.
- **Its duplicate check is per account.** It looks a record up by account and
  `fitid`. A `fitid` already stored under another account is therefore not
  skipped: the insert breaks the unique constraint and the import raises.
- **An import error keeps earlier rows.** An error in the middle of an import
  leaves the rows created before it, because the loop does not run inside a
  database transaction.
- **Consolidation always writes `ACEITO`.** It sets the suggestion to `ACEITO` and
  never to `EDITADO`.
- **The similarity search matches substrings.** It matches each key as a
  case-insensitive substring of the memo, not as a whole word.
- **`get_period_options` cuts the day back to the month's end.** The current month
  takes `ref_day` exactly. The neighbouring months come from `relativedelta`,
  which cuts the day back to the last day of a shorter month. So "every option's
  day is `ref_day`" holds only when all three months have that day; a day up to
  28 always qualifies.
- **`importer.py` writes to a different table layout.** It uses columns
  `external_id` and `reference_month`, which `models.py` does not have. It is
  therefore modelled against its own row type and table (`Importer.LedgerRow`,
  `Importer.Ledger`). Against the `Transaction` of `models.py`, the
  `Transaction.objects.create(external_id=…, reference_month=…)` of importer.py:66
  raises `TypeError` at the first debit. Only `IntegrityError` is caught
  (importer.py:75), so `OfxImporter.process()` as it stands raises on any statement
  with a debit. The model describes what the code does on a table with those columns.
- **`get_period_options` has defaults.** They are `num_options=3` and `ref_day=20`,
  which the model names `DateUtils.DefaultNumOptions` and `DateUtils.DefaultRefDay`.
  `DateUtils.PeriodOptions` takes both as explicit arguments.

## Model

Source cells give the path of the file in the repository and the lines the member models.

| member | source | states |
|---|---|---|
| Seqs.SortByKey | orcamento_2026/core/services/consolidation.py:24 | `order_by`: the result is sorted by the key and is a permutation of the input |
| Seqs.Filter | orcamento_2026/core/services/consolidation.py:24 | `filter`: an element is in the result exactly when it is in the input and meets the condition; never longer than the input |
| Seqs.FilterFirstIs | orcamento_2026/core/services/utils/db_utils.py:57 | `.first()` of a filter is the first element of the input that meets the condition |
| Seqs.Take | orcamento_2026/core/services/suggestions.py:52 | `[:limit]`: the first `limit` elements, or all of them when there are fewer |
| Dates.DaysInMonth | orcamento_2026/core/services/utils/date_utils.py:21 | a month has 28 to 31 days; 31 exactly for January, March, May, July, August, October and December; 28 exactly for February of a common year |
| Dates.OrdinalIsChronological | orcamento_2026/core/services/consolidation.py:24 | on valid dates, the integer sort key orders dates as Python compares them, and two dates share a key only when they are equal |
| Dates.FirstOfMonth | orcamento_2026/core/services/importer.py:63 | `date(d.year, d.month, 1)` is a valid date in the month of `d`, never after `d`, and strictly before it unless `d` is itself the first |
| Text.LowerIdempotent | orcamento_2026/core/services/utils/db_utils.py:30 | lower-casing twice is the same as lower-casing once |
| Text.Lower | orcamento_2026/core/services/utils/db_utils.py:30 | `str.lower()` and SQL `Lower`: the same length, each character lower-cased on its own by the folding table |
| Text.IsSpace | orcamento_2026/core/services/suggestions.py:43 | no contract of its own: the characters `str.split()` splits on; what splitting on them gives is stated by `Text.Words`, `WordsSplitAtSpace`, `WordsSkipSpace` and `WordsOfOneWord` |
| Text.Words | orcamento_2026/core/services/suggestions.py:43 | `str.split()` yields only non-empty words without whitespace |
| Text.WordsSplitAtSpace | orcamento_2026/core/services/suggestions.py:43 | a word is cut exactly at the first whitespace character after it: the split of `a + [c] + b` is `a` followed by the split of `b` |
| Text.WordsSkipSpace | orcamento_2026/core/services/suggestions.py:43 | leading whitespace produces no word |
| Text.WordsOfOneWord | orcamento_2026/core/services/suggestions.py:43 | a non-empty run without whitespace is a single word |
| Text.WordsKeepCharacters | orcamento_2026/core/services/suggestions.py:43 | joining the words gives the input minus its whitespace, so no non-space character is lost or reordered |
| Text.ContainsIgnoreCase | orcamento_2026/core/services/suggestions.py:47 | no contract of its own: `icontains`, substring search after lower-casing both sides; its use is stated by `Suggestions.SimilarCandidates` |
| Models.AccountTypeFromCode | orcamento_2026/core/models.py:46-49 | "C" and "K" decode to the account type carrying that code; every other code decodes to nothing |
| Models.StatusFromCode | orcamento_2026/core/models.py:100-105 | the four status codes decode to the status carrying that code; every other string decodes to nothing |
| Models.StatusCodeRoundTrip | orcamento_2026/core/models.py:100-105 | decoding a status's own code gives the status back |
| Models.SubCategoryLabel | orcamento_2026/core/models.py:35-36 | the label is the owning category's name, then `" - "`, then the subcategory's name |
| Models.Valid | orcamento_2026/core/models.py:16-111 | no contract of its own: the constraints of the schema (ids, foreign keys, unique `fitid`, unique category name, the two one-to-one links); every create and get-or-create keeps it |
| Models.EmptyDbIsValid | orcamento_2026/core/models.py:16-111 | the empty database meets every constraint |
| Models.HasExpense | orcamento_2026/core/models.py:83 | no contract of its own: `hasattr(transaction, "expense")`; what it decides is stated by `Consolidation.ConsolidatedIsFinal`, `Consolidation.HasExpenseAfterCreate` and `Consolidation.UnconsolidatedTransactions` |
| Models.SuggestionFor | orcamento_2026/core/models.py:107 | `transaction.suggestion` is a stored suggestion of that transaction; it is absent exactly when no suggestion row points to the transaction |
| Models.SuggestionForIsUnique | orcamento_2026/core/models.py:107 | under the one-to-one constraint, any suggestion row of the transaction is the one found |
| Models.HasSuggestion | orcamento_2026/core/models.py:107 | no contract of its own: `hasattr(transaction, "suggestion")`, true exactly when `SuggestionFor` finds a row; its use is stated by `Suggestions.GenerateReturnsExisting` and `Sugerir.ToProcess` |
| Models.CreateAccount | orcamento_2026/core/models.py:43-52 | appends exactly one account, with the next id and the given name and type; keeps the constraints |
| Models.CreateCategory | orcamento_2026/core/models.py:19 | raises `IntegrityError` exactly when the name is taken, changing nothing; otherwise appends exactly one category with the next id; keeps the constraints |
| Models.CreateSubCategory | orcamento_2026/core/models.py:29-33 | appends exactly one subcategory with the next id; keeps the constraints when the category exists |
| Models.CreateTransaction | orcamento_2026/core/models.py:65 | raises `IntegrityError` exactly when the fitid is taken, changing nothing; otherwise appends exactly the new row; keeps the constraints when the account exists |
| Models.CreateExpense | orcamento_2026/core/models.py:80-87 | raises `IntegrityError` exactly when the transaction already has an expense; a manual expense, without a transaction, never does; the new expense is not ignored; keeps the constraints |
| Models.CreateSuggestion | orcamento_2026/core/models.py:107-111 | raises `IntegrityError` exactly when the transaction already has a suggestion; the new suggestion is PENDENTE; keeps the constraints |
| Models.SaveSuggestionStatus | orcamento_2026/core/services/consolidation.py:77-79 | only the status of that one suggestion changes, nothing else in any table; keeps the constraints |
| Models.GetOrCreateAccount | orcamento_2026/core/management/commands/popular.py:25 | fails exactly when two accounts carry the name; returns a stored account of that name unchanged, or creates one when none carries it; keeps the constraints |
| Models.GetOrCreateCategory | orcamento_2026/core/management/commands/setup_categories.py:25 | the same for categories by name; it creates only when the name is free |
| Models.CategoryNamesUnique | orcamento_2026/core/models.py:19 | under the constraints, a category name is found at most once, so the category get-or-create never meets two rows |
| Models.GetOrCreateSubCategory | orcamento_2026/core/management/commands/setup_categories.py:30 | the same for subcategories by name and category; it creates only when no subcategory of that category has the name |
| Models.GetOrCreateTransaction | orcamento_2026/core/services/import_ofx.py:40-43 | a row found by account and fitid is returned and nothing changes; a created row carries the given data; a failure changes nothing; keeps the constraints |
| Models.GetOrCreateTransactionCases | orcamento_2026/core/services/import_ofx.py:40-43 | under the constraints, a fresh fitid creates a row; a fitid stored for this account returns that row; a fitid stored for another account raises `IntegrityError` |
| Database.Store.constructor | orcamento_2026/core/models.py:16-111 | a fresh store is the empty database and meets the constraints |
| Database.Store.GetOrCreateAccount | orcamento_2026/core/management/commands/popular.py:25 | result and new tables are those of `Models.GetOrCreateAccount`; constraints kept |
| Database.Store.GetOrCreateCategory | orcamento_2026/core/management/commands/setup_categories.py:25 | result and new tables are those of `Models.GetOrCreateCategory`; constraints kept |
| Database.Store.GetOrCreateSubCategory | orcamento_2026/core/management/commands/setup_categories.py:30 | result and new tables are those of `Models.GetOrCreateSubCategory`; constraints kept |
| Database.Store.GetOrCreateTransaction | orcamento_2026/core/services/import_ofx.py:40-43 | result and new tables are those of `Models.GetOrCreateTransaction`; constraints kept |
| Database.Store.CreateExpense | orcamento_2026/core/services/consolidation.py:68-74 | result and new tables are those of `Models.CreateExpense`; constraints kept |
| Database.Store.CreateSuggestion | orcamento_2026/core/services/suggestions.py:158-164 | result and new tables are those of `Models.CreateSuggestion`; constraints kept |
| Database.Store.SaveSuggestionStatus | orcamento_2026/core/services/consolidation.py:77-79 | new tables are those of `Models.SaveSuggestionStatus`; constraints kept |
| DbUtils.CaseInsensitiveLookup | orcamento_2026/core/services/utils/db_utils.py:11-30 | `None` gives nothing; otherwise a row is in the result exactly when its lower-cased field equals the lower-cased value; the result keeps the queryset's order |
| DbUtils.LookupIgnoresCase | orcamento_2026/core/services/utils/db_utils.py:30 | two spellings with the same lower case give the same result |
| DbUtils.ApplyFilters | orcamento_2026/core/services/utils/db_utils.py:54-55 | a row survives the extra filters exactly when it meets every one of them |
| DbUtils.ApplyFiltersIsOneFilter | orcamento_2026/core/services/utils/db_utils.py:54-55 | applying the filters one after another is one filter by their conjunction, order kept |
| DbUtils.CaseInsensitiveGet | orcamento_2026/core/services/utils/db_utils.py:33-57 | `None` exactly when the value is `None` or no row matches the name and every filter; otherwise the first such row in queryset order |
| DbUtils.GetFindsTheOnlyMatch | orcamento_2026/core/services/utils/db_utils.py:51-57 | when exactly one row matches the name and the filters, that row is returned |
| DbUtils.AccentedCapitalsMatch | orcamento_2026/core/services/utils/db_utils.py:30 | "ALIMENTAÇÃO", "Alimentação", "alimentação" and a mixed-case spelling compare equal |
| DbUtils.FindCategory | orcamento_2026/core/services/consolidation.py:52 | a category is found exactly when some stored name equals the given one ignoring case, and the one found does |
| DbUtils.FindCategoryIsFirst | orcamento_2026/core/services/utils/db_utils.py:57 | of several categories whose names differ only in case, the one with the lowest id is found, because `Category` has no default ordering |
| DbUtils.FindSubCategory | orcamento_2026/core/services/consolidation.py:58-62 | a subcategory is found exactly when one of the given category's own subcategories matches the name ignoring case; one from another category never is |
| DbUtils.FindSubCategoryIsFirst | orcamento_2026/core/services/utils/db_utils.py:57 | of several subcategories of the category whose names match ignoring case (subcategory names are not unique), the one with the lowest id is found |
| DateUtils.ReplaceDay | orcamento_2026/core/services/utils/date_utils.py:21 | `replace(day=…)` succeeds exactly when the month has that day, and keeps year and month |
| DateUtils.ShiftMonth | orcamento_2026/core/services/utils/date_utils.py:26-33 | the shifted (year, month) is a real month exactly `months` months after the date's month, across year ends |
| DateUtils.AddMonths | orcamento_2026/core/services/utils/date_utils.py:26-33 | `+ relativedelta(months=…)` lands in the shifted month, on the same day cut back to that month's last day; it fails only outside years 1 to 9999 |
| DateUtils.Base | orcamento_2026/core/services/utils/date_utils.py:21 | no contract of its own: `base_date or date.today()`, stated by `DateUtils.PeriodOptionsDefaultToToday` |
| DateUtils.PeriodOptions | orcamento_2026/core/services/utils/date_utils.py:5-36 | three options: previous, current and next month, in that order; the current one is the base date on `ref_day`; each is a valid date one month apart from the next, with day `min(ref_day, days in that month)` |
| DateUtils.PeriodOptionsDefined | orcamento_2026/core/services/utils/date_utils.py:21-34 | the call raises exactly when the base month lacks `ref_day`, or a neighbouring month falls outside the supported years |
| DateUtils.PeriodOptionsAreChronological | orcamento_2026/core/services/utils/date_utils.py:26-33 | previous before current before next |
| DateUtils.PeriodOptionsKeepAnyCommonDay | orcamento_2026/core/services/utils/date_utils.py:21-33 | for `ref_day` up to 28, every option's day is `ref_day` |
| DateUtils.PeriodOptionsIgnoreCount | orcamento_2026/core/services/utils/date_utils.py:5-36 | `num_options` does not change the result |
| DateUtils.PeriodOptionsDefaultToToday | orcamento_2026/core/services/utils/date_utils.py:17-18 | without a base date, today is the base date |
| DateUtils.PeriodOptionsWithDefaults | orcamento_2026/core/services/utils/date_utils.py:5-36 | with the default `ref_day=20`, the call fails only for the first and the last supported month, and every option falls on the 20th |
| DateUtils.PeriodOptionsAcrossNewYear | orcamento_2026/core/services/utils/date_utils.py:26-27 | from 15 January 2026 with day 20, the previous option is 20 December 2025 |
| DateUtils.PeriodOptionsClipToMonthEnd | orcamento_2026/core/services/utils/date_utils.py:26-34 | from 31 March 2026 with day 31, the neighbours are 28 February and 30 April |
| DateUtils.PeriodOptionsRejectMissingDay | orcamento_2026/core/services/utils/date_utils.py:21 | day 31 in April raises |
| Consolidation.UnconsolidatedTransactions | orcamento_2026/core/services/consolidation.py:20-24 | exactly the transactions without an expense, each as often as stored, sorted by date |
| Consolidation.UnconsolidatedAreChronological | orcamento_2026/core/services/consolidation.py:24 | no transaction in the list comes after a transaction with a later date |
| Consolidation.Consolidate | orcamento_2026/core/services/consolidation.py:27-83 | keeps the constraints; any failure leaves the database unchanged |
| Consolidation.AcceptSuggestion | orcamento_2026/core/services/consolidation.py:77-79 | the transaction's suggestion, if any, becomes ACEITO; every other suggestion and table is unchanged; keeps the constraints |
| Consolidation.CategoryNotFound | orcamento_2026/core/services/consolidation.py:54 | no contract of its own: the message of the unknown-category `ValueError`; `Consolidation.ConsolidateUnknownCategory` states it letter by letter |
| Consolidation.SubCategoryNotFound | orcamento_2026/core/services/consolidation.py:64 | no contract of its own: the message of the unknown-subcategory `ValueError`; `Consolidation.ConsolidateUnknownSubCategory` states it letter by letter |
| Consolidation.ConsolidateUnknownCategory | orcamento_2026/core/services/consolidation.py:52-56 | an unknown category raises "Categoria '<name>' não encontrada" and changes nothing |
| Consolidation.ConsolidateUnknownSubCategory | orcamento_2026/core/services/consolidation.py:52-66 | when the category found (the first match by id) has no subcategory matching the name, the call raises "Subcategoria '<sub>' não encontrada na categoria '<cat>'" and changes nothing, even when another category matching the name has such a subcategory |
| Consolidation.ConsolidateUsesFirstMatchingCategory | orcamento_2026/core/services/consolidation.py:52-66 | example: with "Lazer" (id 0) and "lazer" (id 1) both stored and "Cinema" only under id 1, consolidating under "LAZER"/"Cinema" raises the subcategory error and changes nothing |
| Consolidation.ConsolidateSuccess | orcamento_2026/core/services/consolidation.py:68-79 | on success exactly one expense is added: linked to the transaction, with the given description and month, not ignored, in the subcategory that the lookup returns inside the category that the lookup returns (the first match by id); the suggestion, if any, becomes ACEITO; nothing else changes |
| Consolidation.NamesResolve | orcamento_2026/core/services/consolidation.py:52-62 | some category matching the name, each matching category having a subcategory matching the other name: both lookups find a row |
| Consolidation.ConsolidateSucceeds | orcamento_2026/core/services/consolidation.py:44-79 | consolidation succeeds exactly when the transaction has no expense, the category name resolves, and the subcategory name resolves inside the category found |
| Consolidation.ConsolidateSucceedsWhenEveryMatchHasIt | orcamento_2026/core/services/consolidation.py:44-79 | when the transaction has no expense, some category matches the name, and every such category has a subcategory matching the other name, consolidation succeeds |
| Consolidation.ConsolidateTwiceFails | orcamento_2026/core/services/consolidation.py:68-74 | consolidating the same transaction again fails, whatever the names, and changes nothing |
| Consolidation.ConsolidatedIsFinal | orcamento_2026/core/services/consolidation.py:68-74 | a transaction that has an expense cannot be consolidated; the suggestion is not touched |
| Consolidation.HasExpenseAfterCreate | orcamento_2026/core/services/consolidation.py:68-74 | after an expense is appended, a transaction has an expense exactly when it had one or it is the new expense's transaction |
| Consolidation.ConsolidateRemovesFromPending | orcamento_2026/core/services/consolidation.py:20-24 | after a successful consolidation, the unconsolidated list loses exactly that transaction |
| Consolidation.ConsolidateTransaction | orcamento_2026/core/services/consolidation.py:27-83 | the service on the store gives the result and new tables of `Consolidate`; constraints kept |
| Suggestions.PendingSuggestions | orcamento_2026/core/services/suggestions.py:22-24 | the intended result: exactly the suggestions with status PENDENTE, each kept in id order (the order is not one the source fixes) |
| Suggestions.PendingSuggestionsAsWritten | orcamento_2026/core/services/suggestions.py:13-24 | as written: the call succeeds exactly when the module scope binds `TransactionSuggestion`, and then gives the intended result |
| Suggestions.PendingSuggestionsRaisesAsWritten | orcamento_2026/core/services/suggestions.py:13-24 | with the names suggestions.py binds at run time, the call raises `NameError`, even for a database with a pending suggestion, where the intended result is non-empty |
| Suggestions.SimilarityKeys | orcamento_2026/core/services/suggestions.py:43-47 | at most two keys: those of the first two words that are longer than two characters, in order |
| Suggestions.SimilarCandidates | orcamento_2026/core/services/suggestions.py:45-52 | exactly the expenses whose linked memo contains some key ignoring case, newest reference month first |
| Suggestions.FindSimilarExpenses | orcamento_2026/core/services/suggestions.py:27-52 | at most `limit` expenses, none without keys, each with a linked memo containing a key ignoring case, newest first |
| Suggestions.SimilarAreTheNewest | orcamento_2026/core/services/suggestions.py:52 | a match left out means the limit was reached and no returned expense is older than it |
| Suggestions.SimilarReturnsAllWhenFew | orcamento_2026/core/services/suggestions.py:52 | with at most `limit` matches, every match is returned |
| Suggestions.SimilarNewestFirst | orcamento_2026/core/services/suggestions.py:52 | a later result never has a later reference month than an earlier one |
| Suggestions.ShortWordsGiveNoKeys | orcamento_2026/core/services/suggestions.py:46 | "X A" gives no keys, so no similar expenses |
| Suggestions.OneLongWordIsAKey | orcamento_2026/core/services/suggestions.py:43-47 | "Supermercado X" has the single key "Supermercado" |
| Suggestions.BuildPrompt | orcamento_2026/core/services/suggestions.py:55-98 | the prompt carries the transaction's memo, amount and date, and one example per similar expense, in order |
| Suggestions.ExampleFor | orcamento_2026/core/services/suggestions.py:71-77 | no contract of its own: one example line, the expense's memo, category, subcategory and description; stated by `Suggestions.PromptShowsSimilarExpenses` |
| Suggestions.Catalogue | orcamento_2026/core/services/suggestions.py:62-65 | one entry per category, in id order, each with the names of exactly that category's subcategories |
| Suggestions.SimilarTo | orcamento_2026/core/services/suggestions.py:139 | no contract of its own: `find_similar_expenses(transaction.memo)` with the default limit 3; stated by the `FindSimilarExpenses` lemmas |
| Suggestions.SuggestionPrompt | orcamento_2026/core/services/suggestions.py:139-142 | no contract of its own: the prompt built for the stored transaction; stated by `Suggestions.BuildPrompt` and `Suggestions.PromptIgnoresSuggestions` |
| Suggestions.PromptShowsSimilarExpenses | orcamento_2026/core/services/suggestions.py:68-77 | each similar expense appears in the prompt with its memo, description, subcategory name and category name |
| Suggestions.PromptIgnoresSuggestions | orcamento_2026/core/services/suggestions.py:139-142 | the prompt does not depend on the suggestion table |
| Suggestions.GenerateSuggestion | orcamento_2026/core/services/suggestions.py:120-167 | keeps the constraints |
| Suggestions.Respond | orcamento_2026/core/services/suggestions.py:135-164 | keeps the constraints |
| Suggestions.RecordReply | orcamento_2026/core/services/suggestions.py:145-164 | no answer: nothing returned, nothing written; an answer: exactly one suggestion appended for the transaction, with the next id, and returned |
| Suggestions.GenerateReturnsExisting | orcamento_2026/core/services/suggestions.py:135-137 | an existing suggestion is returned and nothing changes, whatever the backend |
| Suggestions.GenerateBackendFailure | orcamento_2026/core/services/suggestions.py:143-146 | a backend failure returns nothing and writes nothing |
| Suggestions.GenerateCreates | orcamento_2026/core/services/suggestions.py:149-164 | a new suggestion is appended for the transaction, PENDENTE, with the reply's description. Its category is the one `case_insensitive_get` returns (the first match by id), null exactly when no name matches ignoring case. Its subcategory is the first match by id inside that category, null when there is none or no category |
| Suggestions.GenerateIsIdempotent | orcamento_2026/core/services/suggestions.py:135-137 | asking again returns the same suggestion and writes nothing, whatever the backend then says |
| Suggestions.RespondShape | orcamento_2026/core/services/suggestions.py:120-167 | only the suggestion table changes, by at most one row for the transaction; a suggestion is returned exactly when the transaction has one afterwards, and none exactly when it had none and no answer came |
| Suggestions.GenerateShape | orcamento_2026/core/services/suggestions.py:120-167 | the same, for the service with its backend |
| Suggestions.GenerateSuggestionForTransaction | orcamento_2026/core/services/suggestions.py:120-167 | the service on the store gives the result and new tables of `GenerateSuggestion`; constraints kept |
| ImportOfx.MemoOrEmpty | orcamento_2026/core/services/import_ofx.py:42 | no contract of its own: `tx.memo or ""`; stated by `ImportOfx.ImportedRowsComeFromRecords` |
| ImportOfx.NewRow | orcamento_2026/core/services/import_ofx.py:40-43 | no contract of its own: the row `get_or_create` builds, with the next id and the `defaults`; stated by `ImportOfx.ImportRecord` and `ImportOfx.ImportedRowsComeFromRecords` |
| ImportOfx.ImportRecord | orcamento_2026/core/services/import_ofx.py:40-46 | a created row is exactly the record's row appended; otherwise nothing changes; "not created" means the fitid is stored for this account |
| ImportOfx.ImportRecordKeepsValid | orcamento_2026/core/services/import_ofx.py:40-43 | one record keeps the constraints |
| ImportOfx.ImportRecordSkipsKnown | orcamento_2026/core/services/import_ofx.py:40-45 | a fitid already stored for the account creates nothing and changes nothing |
| ImportOfx.ImportRecordFailure | orcamento_2026/core/services/import_ofx.py:40-43 | a record fails exactly when its fitid is stored, but only for another account |
| ImportOfx.ImportFrom | orcamento_2026/core/services/import_ofx.py:33-47 | the count grows by at most one per remaining record |
| ImportOfx.ImportAll | orcamento_2026/core/services/import_ofx.py:16-50 | `transactions_created` never exceeds the number of records |
| ImportOfx.ImportKeepsValid | orcamento_2026/core/services/import_ofx.py:33-47 | the import keeps the constraints |
| ImportOfx.ImportKeepsRows | orcamento_2026/core/services/import_ofx.py:33-47 | only the transaction table changes, so no expense is created; existing rows stay as they were |
| ImportOfx.ImportCountsRows | orcamento_2026/core/services/import_ofx.py:45-50 | `transactions_created` is the number of rows added |
| ImportOfx.ImportFailsOnFitidOfAnotherAccount | orcamento_2026/core/services/import_ofx.py:40 | a record whose fitid is stored under another account makes the import raise |
| ImportOfx.ImportStoresEveryRecord | orcamento_2026/core/services/import_ofx.py:33-43 | after a successful import every record's fitid is stored for the account |
| ImportOfx.ImportedRowsComeFromRecords | orcamento_2026/core/services/import_ofx.py:40-42 | every added row carries a record's fitid, amount and date, the account, the reference date, and the memo or "" |
| ImportOfx.ImportOfKnownRecordsIsNoOp | orcamento_2026/core/services/import_ofx.py:40-47 | when every fitid is already stored for the account, nothing is created or changed |
| ImportOfx.ImportTwiceCreatesNothing | orcamento_2026/core/services/import_ofx.py:40-47 | importing the same records again reports 0 and changes nothing, whatever the reference date |
| ImportOfx.ImportOne | orcamento_2026/core/services/import_ofx.py:40-46 | one pass of the loop on the store is `ImportRecord`; constraints kept |
| ImportOfx.ImportOfxRecords | orcamento_2026/core/services/import_ofx.py:16-50 | the loop on the store gives the count and new tables of `ImportAll`; constraints kept |
| Importer.CreateRow | orcamento_2026/core/services/importer.py:65-78 | the create succeeds exactly when the external id is new, and then appends the row; otherwise nothing changes; unique external ids are kept |
| Importer.Ledger.constructor | orcamento_2026/core/services/importer.py:65-73 | an empty table, with unique external ids |
| Importer.Ledger.Create | orcamento_2026/core/services/importer.py:65-78 | changes the table as `CreateRow`; unique external ids kept |
| Importer.MemoOrName | orcamento_2026/core/services/importer.py:60 | the memo when it is non-empty, the name otherwise |
| Importer.ToRow | orcamento_2026/core/services/importer.py:58-73 | the row carries the fitid, amount, posting date, memo-or-name and account; its reference month is the first of the posting month |
| Importer.ProcessOne | orcamento_2026/core/services/importer.py:40-78 | no contract of its own: one pass of the inner loop; stated by `Importer.ProcessOneIsCreate` |
| Importer.ProcessFrom | orcamento_2026/core/services/importer.py:37-78 | no contract of its own: the inner loop from a position on; stated by `ProcessCounts`, `ProcessKeepsRows`, `ProcessKeepsIds`, `ProcessKeepsUnique`, `ImportedRowsAreDebits`, `EveryDebitIsStored` and `KnownDebitsAreSkipped` |
| Importer.ProcessAll | orcamento_2026/core/services/importer.py:29-83 | no contract of its own: the transactions processed from zero counts; stated by `Importer.ProcessTwiceSkipsAll` and `Importer.OfxImporter.Process` |
| Importer.Flatten | orcamento_2026/core/services/importer.py:32-37 | no contract of its own: the statements' transactions one after the other; stated by `Importer.ProcessStatementsIsFlat` |
| Importer.ProcessStatements | orcamento_2026/core/services/importer.py:32-78 | no contract of its own: the two nested loops; stated by `Importer.ProcessStatementsIsFlat` |
| Importer.ProcessOneIsCreate | orcamento_2026/core/services/importer.py:54-78 | a credit changes nothing; a debit is the table's create, counted as imported when it succeeds and as skipped when it does not |
| Importer.ProcessCounts | orcamento_2026/core/services/importer.py:54-83 | imported plus skipped grows by the number of debits; imported grows by the number of rows added |
| Importer.ProcessKeepsRows | orcamento_2026/core/services/importer.py:65-78 | processing only appends rows |
| Importer.ProcessKeepsIds | orcamento_2026/core/services/importer.py:65-78 | an external id in the table stays in it |
| Importer.ProcessKeepsUnique | orcamento_2026/core/services/importer.py:65-78 | external ids stay unique |
| Importer.ImportedRowsAreDebits | orcamento_2026/core/services/importer.py:54-73 | every added row is the row of one of the debits processed |
| Importer.ImportedRowsStartTheirMonth | orcamento_2026/core/services/importer.py:54-73 | every added row is a debit of the account whose reference month is day 1 of its posting month |
| Importer.EveryDebitIsStored | orcamento_2026/core/services/importer.py:54-78 | afterwards every debit's external id is in the table |
| Importer.KnownDebitsAreSkipped | orcamento_2026/core/services/importer.py:75-78 | debits whose ids are all present: nothing imported, each skipped, no row added |
| Importer.ProcessTwiceSkipsAll | orcamento_2026/core/services/importer.py:54-83 | a second run over the same transactions imports 0, skips every debit and adds nothing |
| Importer.ProcessFromShift | orcamento_2026/core/services/importer.py:37-78 | processing a concatenation, from inside the second part, only sees the second part |
| Importer.ProcessFromAppend | orcamento_2026/core/services/importer.py:37-78 | processing `a + b` is processing `a` and then `b` from where `a` left off |
| Importer.ProcessStatementsIsFlat | orcamento_2026/core/services/importer.py:32-78 | the two nested loops process all the statements' transactions as one sequence |
| Importer.OfxImporter.constructor | orcamento_2026/core/services/importer.py:13-15 | keeps the file path and the account |
| Importer.OfxImporter.ProcessTransaction | orcamento_2026/core/services/importer.py:41-78 | one pass of the inner loop on the table is `ProcessOne`; unique ids kept |
| Importer.OfxImporter.Process | orcamento_2026/core/services/importer.py:17-83 | the nested loops on the table give the counts and table of processing all transactions in order; unique ids kept |
| SetupCategories.SubcategoryStep | orcamento_2026/core/management/commands/setup_categories.py:30 | no contract of its own: `SubCategory.objects.get_or_create(name=…, category=…)`; stated by `SubcategoryStepKeepsValid`, `SubcategoryStepCounts` and `SubcategoryStepKeepsKeysDistinct` |
| SetupCategories.CategoryStep | orcamento_2026/core/management/commands/setup_categories.py:25 | no contract of its own: `Category.objects.get_or_create(name=…)`; stated by `SetupCategories.CategoryStepKeepsValid` |
| SetupCategories.SeedSubcategories | orcamento_2026/core/management/commands/setup_categories.py:29-32 | no contract of its own: the inner loop; stated by `SeedSubcategoriesKeepsValid`, `SeedSubcategoriesKeepCounts`, `SeedSubcategoriesStores`, `SeedSubcategoriesOfKnown` and `SeedSubcategoriesSucceeds` |
| SetupCategories.SeedEntry | orcamento_2026/core/management/commands/setup_categories.py:22-32 | no contract of its own: one pass of the outer loop; stated by `SeedEntryKeepsValid`, `SeedEntryEstablishes`, `SeedEntryKeepsSeeded` and `SeedEntryOfSeeded` |
| SetupCategories.SeedCatalogueFrom | orcamento_2026/core/management/commands/setup_categories.py:21-32 | no contract of its own: the outer loop from an entry on; stated by `SeedCatalogueKeepsValid`, `SeedCatalogueKeepsSeeded`, `SeedCatalogueEstablishes`, `SeedCatalogueOfSeeded` and `SeedCatalogueSucceeds` |
| SetupCategories.SeedCatalogue | orcamento_2026/core/management/commands/setup_categories.py:21-32 | no contract of its own: the whole catalogue loop; stated by `SetupCategories.SeedCatalogueIdempotent` and `SetupCategories.SeedCatalogueInto` |
| SetupCategories.GrowsTransitive | orcamento_2026/core/management/commands/setup_categories.py:21-32 | "only appends categories and subcategories" composes over steps |
| SetupCategories.SubcategoryStepKeepsValid | orcamento_2026/core/management/commands/setup_categories.py:30 | keeps the constraints and only appends subcategories |
| SetupCategories.SeedSubcategoriesKeepsValid | orcamento_2026/core/management/commands/setup_categories.py:29-30 | the inner loop keeps the constraints and only appends subcategories |
| SetupCategories.CategoryStepKeepsValid | orcamento_2026/core/management/commands/setup_categories.py:25 | keeps the constraints; the id returned is that of a stored category with the name |
| SetupCategories.SeedEntryKeepsValid | orcamento_2026/core/management/commands/setup_categories.py:21-30 | one entry keeps the constraints and only appends |
| SetupCategories.SeedCatalogueKeepsValid | orcamento_2026/core/management/commands/setup_categories.py:21-32 | a run keeps the constraints; existing rows and the other tables are untouched |
| SetupCategories.SubcategoryStepCounts | orcamento_2026/core/management/commands/setup_categories.py:30 | a key found once stays found once; a step that does not fail leaves its own key found once |
| SetupCategories.SeedSubcategoriesKeepCounts | orcamento_2026/core/management/commands/setup_categories.py:29-30 | the inner loop keeps a key found once found once |
| SetupCategories.SeedSubcategoriesStores | orcamento_2026/core/management/commands/setup_categories.py:29-30 | a successful inner loop leaves each name found once under the category |
| SetupCategories.SeedEntryEstablishes | orcamento_2026/core/management/commands/setup_categories.py:21-30 | a successful entry leaves its category present by name and each of its subcategories present once under it |
| SetupCategories.SeedEntryKeepsSeeded | orcamento_2026/core/management/commands/setup_categories.py:21-30 | processing an entry keeps every entry seeded before seeded |
| SetupCategories.SeedEntryOfSeeded | orcamento_2026/core/management/commands/setup_categories.py:25-30 | an entry already seeded changes nothing |
| SetupCategories.SeedSubcategoriesOfKnown | orcamento_2026/core/management/commands/setup_categories.py:29-30 | names already present once under the category change nothing |
| SetupCategories.SeedCatalogueKeepsSeeded | orcamento_2026/core/management/commands/setup_categories.py:21-32 | a run keeps seeded entries seeded |
| SetupCategories.SeedCatalogueEstablishes | orcamento_2026/core/management/commands/setup_categories.py:21-32 | after a successful run every entry is seeded |
| SetupCategories.SeedCatalogueOfSeeded | orcamento_2026/core/management/commands/setup_categories.py:21-32 | a catalogue already seeded changes nothing |
| SetupCategories.SeedCatalogueIdempotent | orcamento_2026/core/management/commands/setup_categories.py:25-30 | a second run on the same data succeeds and adds nothing |
| SetupCategories.SubcategoryStepKeepsKeysDistinct | orcamento_2026/core/management/commands/setup_categories.py:30 | with no duplicated (name, category) pair the step never fails and keeps that so |
| SetupCategories.SeedSubcategoriesSucceeds | orcamento_2026/core/management/commands/setup_categories.py:29-30 | when no (name, category) pair is stored twice, the inner loop never fails and keeps that so |
| SetupCategories.SeedCatalogueSucceeds | orcamento_2026/core/management/commands/setup_categories.py:21-32 | when no (name, category) pair is stored twice, a run never fails and keeps that so; category get-or-create cannot fail because names are unique |
| SetupCategories.SeedSubcategoriesInto | orcamento_2026/core/management/commands/setup_categories.py:29-32 | the inner loop on the store is `SeedSubcategories`; constraints kept |
| SetupCategories.SeedCatalogueInto | orcamento_2026/core/management/commands/setup_categories.py:21-32 | the outer loop on the store is `SeedCatalogue`; constraints kept |
| SetupCategories.Handle | orcamento_2026/core/management/commands/setup_categories.py:11-34 | a missing file changes nothing; otherwise the store is seeded with the file's entries |
| Popular.AccountsDataDistinct | orcamento_2026/core/management/commands/popular.py:12-22 | the seven listed account names are distinct |
| Popular.AccountStep | orcamento_2026/core/management/commands/popular.py:25 | no contract of its own: `Account.objects.get_or_create(name=…, defaults={"type": …})`; stated by `Popular.AccountStepCounts` |
| Popular.SeedAccounts | orcamento_2026/core/management/commands/popular.py:24-29 | no contract of its own: the accounts loop; stated by `SeedAccountsKeepsValid`, `SeedAccountsKeepsCount`, `SeedAccountsEstablishes`, `SeedAccountsSucceeds`, `SeedAccountsCreatesWithKind`, `SeedAccountsKeepsRows` and `SeedAccountsOfKnown` |
| Popular.Populate | orcamento_2026/core/management/commands/popular.py:8-53 | no contract of its own: the accounts, then the catalogue; stated by `PopulateEstablishes`, `PopulateSucceeds`, `PopulateIdempotent`, `PopulateCreatesAccounts` and `PopulateOnEmpty` |
| Popular.SeedAccountsKeepsValid | orcamento_2026/core/management/commands/popular.py:24-29 | the accounts loop keeps the constraints and only appends accounts |
| Popular.AccountStepCounts | orcamento_2026/core/management/commands/popular.py:25 | other names' counts are unchanged; a step that does not fail leaves its name on exactly one account; it fails exactly when two accounts carry the name |
| Popular.SeedAccountsKeepsCount | orcamento_2026/core/management/commands/popular.py:24-29 | a name on exactly one account stays so |
| Popular.SeedAccountsEstablishes | orcamento_2026/core/management/commands/popular.py:24-29 | after a run without error each listed name is on exactly one account |
| Popular.SeedAccountsSucceeds | orcamento_2026/core/management/commands/popular.py:24-29 | with distinct listed names, each already on at most one account, the accounts loop never fails |
| Popular.SeedAccountsCreatesWithKind | orcamento_2026/core/management/commands/popular.py:25 | a name on no account is created with its listed type |
| Popular.SeedAccountsKeepsRows | orcamento_2026/core/management/commands/popular.py:24-29 | existing accounts, their types included, are not modified |
| Popular.SeedAccountsOfKnown | orcamento_2026/core/management/commands/popular.py:24-29 | names already on one account each are reused, nothing is created |
| Popular.PopulateEstablishes | orcamento_2026/core/management/commands/popular.py:8-53 | keeps the constraints; after a run without error each listed account exists once and every listed category has each of its subcategories once under it |
| Popular.PopulateSucceeds | orcamento_2026/core/management/commands/popular.py:8-53 | when each listed account name is on at most one account and no (name, category) pair of subcategories is stored twice, the command does not fail |
| Popular.PopulateIdempotent | orcamento_2026/core/management/commands/popular.py:25-49 | running the command twice adds nothing the second time |
| Popular.PopulateCreatesAccounts | orcamento_2026/core/management/commands/popular.py:24-27 | an account name that no account carried is created with its listed type |
| Popular.PopulateOnEmpty | orcamento_2026/core/management/commands/popular.py:8-53 | on an empty database the command succeeds and creates the seven accounts with their types |
| Popular.SeedAccountsInto | orcamento_2026/core/management/commands/popular.py:24-29 | the accounts loop on the store is `SeedAccounts`; constraints kept |
| Popular.Handle | orcamento_2026/core/management/commands/popular.py:8-53 | the command on the store is `Populate`; constraints kept |
| Sugerir.ToProcess | orcamento_2026/core/management/commands/sugerir.py:15-22 | exactly the transactions with no expense and no suggestion, in date order |
| Sugerir.ToProcessIds | orcamento_2026/core/management/commands/sugerir.py:15-22 | no transaction is selected twice, and every one selected is stored |
| Sugerir.SuggestFrom | orcamento_2026/core/management/commands/sugerir.py:32-41 | no contract of its own: the generation loop from a position on; stated by `SuggestFromShape`, `SuggestFromKeepsOthers`, `AnsweredIffSuggested`, `AnsweringBackendSuggestsAll`, `SilentBackendChangesNothing` and `SuggestFromAll` |
| Sugerir.Suggest | orcamento_2026/core/management/commands/sugerir.py:10-41 | no contract of its own: the command; stated by `SuggestReport`, `SuggestWithAnsweringBackend`, `SuggestWithSilentBackend` and `SuggestRetriesFailures` |
| Sugerir.Replies | orcamento_2026/core/management/commands/sugerir.py:32-36 | one backend answer per selected transaction, to that transaction's prompt |
| Sugerir.SuggestFromShape | orcamento_2026/core/management/commands/sugerir.py:32-41 | one answer per transaction, whatever happened to earlier ones; constraints kept; only suggestions are added |
| Sugerir.SuggestFromKeepsOthers | orcamento_2026/core/management/commands/sugerir.py:32-41 | a transaction the loop does not reach keeps whether it has a suggestion |
| Sugerir.HasSuggestionAfterAppend | orcamento_2026/core/services/suggestions.py:158-164 | appending a suggestion gives it to its transaction and to no other |
| Sugerir.AnsweredIffSuggested | orcamento_2026/core/management/commands/sugerir.py:36-41 | each transaction's report is "OK" exactly when it has a suggestion at the end |
| Sugerir.AnsweringBackendSuggestsAll | orcamento_2026/core/management/commands/sugerir.py:32-41 | when every answer is there, every report is "OK" |
| Sugerir.SilentBackendChangesNothing | orcamento_2026/core/management/commands/sugerir.py:32-41 | when no answer comes, nothing is written and every report is "Falha" |
| Sugerir.SuggestFromAll | orcamento_2026/core/management/commands/sugerir.py:32-41 | the whole loop: one report per transaction, "OK" exactly for those with a suggestion afterwards; only suggestions are added |
| Sugerir.SuggestReport | orcamento_2026/core/management/commands/sugerir.py:10-44 | with nothing to process, the command reports it and changes nothing; otherwise it processes each selected transaction once, reports "OK" exactly for those with a suggestion afterwards, and only adds suggestions |
| Sugerir.SuggestWithAnsweringBackend | orcamento_2026/core/management/commands/sugerir.py:32-41 | a backend that always answers gets "OK" for every selected transaction |
| Sugerir.SuggestWithSilentBackend | orcamento_2026/core/management/commands/sugerir.py:36-41 | a backend that never answers: nothing changes and every selected transaction is reported "Falha" |
| Sugerir.SuggestRetriesFailures | orcamento_2026/core/management/commands/sugerir.py:15-22 | a second run selects exactly the selected transactions that still lack a suggestion |
| Sugerir.SelectTransactions | orcamento_2026/core/management/commands/sugerir.py:15-22 | the selection loop builds `ToProcess` |
| Sugerir.Handle | orcamento_2026/core/management/commands/sugerir.py:10-44 | the command on the store gives the report and new tables of `Suggest`; constraints kept |

## Findings

| source | as written | input that shows it | evidently intended | confidence | as-written member | corrected member |
|---|---|---|---|---|---|---|
| orcamento_2026/core/services/suggestions.py:13-24 | `get_pending_suggestions` uses `TransactionSuggestion`, which is imported only under `if TYPE_CHECKING:`, with no local import as `consolidation.py` and `generate_suggestion_for_transaction` have. The call raises `NameError` on Python 3.14; on an earlier Python, the return annotation at line 22 makes the import of the module fail | any call, for example on a database with one PENDENTE suggestion | the PENDENTE suggestions, as the docstring and its callers expect | medium, not executed | `Suggestions.PendingSuggestionsAsWritten`, `Suggestions.PendingSuggestionsRaisesAsWritten` | `Suggestions.PendingSuggestions` |

## Left out

- File I/O and parsing are not modelled: opening the statement, `ofxparse`/`ofxtools`, reading and decoding `categories.json`. The parsed records and entries are inputs; the missing-file branch of `setup_categories` is modelled.
- `_call_ollama_api` is not modelled. The HTTP request, timeout, JSON envelope and parsing become the `backend` parameter; the failures it catches become `None`.
- Replies of any other shape are not modelled. A reply that parses but is not a JSON object makes `data.get` raise at suggestions.py:149, and a `category` or `subcategory` that is not a string makes `value.lower()` raise at db_utils.py:30. Neither is caught, so `generate_suggestion_for_transaction` raises and the `sugerir` loop stops at that transaction. `Reply` admits only objects with string or missing fields, so the model has no such outcome.
- Sugerir.SuggestReport: one report per selected transaction holds only for backends whose replies are well formed, as above; a malformed reply aborts the run.
- The prompt text of `_build_prompt` is not modelled. The prompt is a record with the memo, amount, date, examples and catalogue that the text embeds, not the formatted string.
- Sugerir.Suggest: takes the backend's answers for all selected transactions before the loop; the loop asks one by one, which gives the same answers because the prompt does not read the suggestion table (`PromptIgnoresSuggestions`).
- Django's `order_by("date")` and `order_by("-reference_month")` do not fix the order of rows with equal keys; the model's sort is one stable insertion order, and the contracts state only the key order and membership.
- A queryset without `order_by` on a model without a default ordering, such as the result of `get_pending_suggestions` or `cat.subcategories.all()` in `_build_prompt`, has no `ORDER BY`, so the database may return it in any order. The model keeps id order there (`Suggestions.PendingSuggestions`, `Suggestions.Catalogue`). `.first()` on such a queryset orders by id, so `case_insensitive_get` is in id order in the source as well.
- Money is integer cents, without bounds. `DecimalField(max_digits=10, decimal_places=2)` (models.py:67) is not modelled: the database refuses an amount of 10^8 or more in absolute value, and a value with more than two decimals is rounded when saved. The float-to-`Decimal` conversion of `import_ofx` is not modelled either. `Importer.LedgerRow.amount` is unbounded in the same way.
- The `max_length` limits of the `CharField`s are not modelled: `Expense.description`, `TransactionSuggestion.description` and `Transaction.fitid` (255, models.py:84, 110, 65), and the category, subcategory and account names (100, models.py:19, 33, 51). SQLite does not enforce them. A server database such as PostgreSQL refuses a longer value, and `create` raises `DataError`, which nothing catches. There, a description longer than 255 characters makes consolidation.py:68 raise where `Consolidation.ConsolidateSucceeds` promises success, and a longer reply description makes suggestions.py:158 raise and stops `sugerir`. The model's strings are unbounded.
- `created_at` of suggestions is not modelled (a clock).
- Text.Lower: covers ASCII and the Latin-1 capitals, not all of Unicode. The same table stands for Python's `str.lower()`, SQL `Lower` in `case_insensitive_get` and the folding behind `icontains` (suggestions.py:47). On SQLite, `LOWER()` and `LIKE` fold ASCII letters only, so there an accented capital such as "Ç" is not matched to "ç": `DbUtils.AccentedCapitalsMatch` and `Text.ContainsIgnoreCase` describe the SQL side only where the stored text already has its accented letters in lower case.
- The labels built with `strftime('%B %Y')` in `get_period_options` are not modelled; an option is its date and which month it is.
- Logging and everything written to standard output (counts, "OK"/"Falha" lines, colours) are not modelled; `Sugerir` returns the per-transaction outcome instead.
- `select_related`/`prefetch_related` are performance hints, without effect on results, and are not modelled.
- Deleting rows, cascades and `PROTECT` are not modelled; the core never deletes.
- Consolidation.Consolidate: its own ensures states only that the constraints are kept and that a failure changes nothing; when it succeeds is stated by `ConsolidateSucceeds`, and what a success does by `ConsolidateSuccess`.
- Suggestions.Respond: its own ensures states only the constraints; its effect is stated by `RespondShape`.
- Suggestions.GenerateSuggestion: its own ensures states only the constraints; what it returns and writes is stated by `GenerateShape`, `GenerateCreates`, `GenerateReturnsExisting` and `GenerateBackendFailure`.
- The views, forms, admin, the Telegram bot, the HTTP API, the interactive commands and the superseded commands are outside this model.
