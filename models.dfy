/**
 * The records of the budget application (orcamento_2026/core/models.py) and the
 * database constraints the services rely on.
 *
 * A database is six tables, each a sequence of rows in primary-key order; the
 * primary key of a row is its position (rows are never deleted by the core).
 * Foreign keys are row ids. `Valid` is the set of constraints the database
 * enforces; the `Create*` / `GetOrCreate*` functions are the ORM calls
 * `objects.create` and `objects.get_or_create`, with the database's
 * `IntegrityError` as a `Failure`.
 */
module Models {
  import opened Wrappers
  import opened Dates
  import opened Seqs

  type Id = nat

  /** `Account.ACCOUNT_TYPES`: "C" (Corrente, a checking account) and "K" (Cartão, a card). */
  datatype AccountType = Checking | Card
  {
    function Code(): string
    {
      match this
      case Checking => "C"
      case Card => "K"
    }
  }

  function AccountTypeFromCode(code: string): (r: Option<AccountType>)
    ensures r.Some? ==> r.value.Code() == code
    ensures r.None? ==> forall t: AccountType :: t.Code() != code
  {
    if code == "C" then Some(Checking) else if code == "K" then Some(Card) else None
  }

  /** `TransactionSuggestion.STATUS_CHOICES`. */
  datatype Status = Pending | Accepted | Rejected | Edited
  {
    function Code(): string
    {
      match this
      case Pending => "PENDENTE"
      case Accepted => "ACEITO"
      case Rejected => "REJEITADO"
      case Edited => "EDITADO"
    }
  }

  function StatusFromCode(code: string): (r: Option<Status>)
    ensures r.Some? ==> r.value.Code() == code
    ensures r.None? ==> forall s: Status :: s.Code() != code
  {
    if code == "PENDENTE" then Some(Pending)
    else if code == "ACEITO" then Some(Accepted)
    else if code == "REJEITADO" then Some(Rejected)
    else if code == "EDITADO" then Some(Edited)
    else None
  }

  lemma StatusCodeRoundTrip(s: Status)
    ensures StatusFromCode(s.Code()) == Some(s)
  {
  }

  datatype Account = Account(id: Id, name: string, kind: AccountType)

  datatype Category = Category(id: Id, name: string)

  datatype SubCategory = SubCategory(id: Id, category: Id, name: string)

  /** A bank record; `amount` is in cents (a decimal with two places), signed. */
  datatype Transaction = Transaction(
    id: Id, fitid: string, account: Id, amount: int, date: Date,
    referenceDate: Option<Date>, memo: string)

  /** `transaction == None` is a manually entered expense. */
  datatype Expense = Expense(
    id: Id, transaction: Option<Id>, description: string, subcategory: Id,
    referenceMonth: Date, isIgnored: bool)

  datatype Suggestion = Suggestion(
    id: Id, transaction: Id, category: Option<Id>, subcategory: Option<Id>,
    description: Option<string>, status: Status)

  datatype DbError = IntegrityError | MultipleObjectsReturned

  datatype Db = Db(
    accounts: seq<Account>,
    categories: seq<Category>,
    subcategories: seq<SubCategory>,
    transactions: seq<Transaction>,
    expenses: seq<Expense>,
    suggestions: seq<Suggestion>)

  const EmptyDb := Db([], [], [], [], [], [])

  function CategoryName(c: Category): string { c.name }

  function SubCategoryName(s: SubCategory): string { s.name }

  /** `SubCategory.__str__`: the category's name, a dash, the subcategory's name. */
  function SubCategoryLabel(db: Db, s: SubCategory): (r: string)
    requires s.category < |db.categories|
    ensures var c := db.categories[s.category].name;
      && |r| == |c| + 3 + |s.name|
      && r[..|c|] == c && r[|c|..|c| + 3] == " - " && r[|c| + 3..] == s.name
  {
    db.categories[s.category].name + " - " + s.name
  }

  // ---------------------------------------------------------------- constraints

  ghost predicate AccountsOk(accounts: seq<Account>)
  {
    forall i :: 0 <= i < |accounts| ==> accounts[i].id == i
  }

  /** `Category.name` is `unique=True`. */
  ghost predicate CategoriesOk(categories: seq<Category>)
  {
    && (forall i :: 0 <= i < |categories| ==> categories[i].id == i)
    && (forall i, j :: 0 <= i < j < |categories| ==> categories[i].name != categories[j].name)
  }

  ghost predicate SubcategoriesOk(subcategories: seq<SubCategory>, categoryCount: nat)
  {
    forall i :: 0 <= i < |subcategories| ==>
      subcategories[i].id == i && subcategories[i].category < categoryCount
  }

  /** `Transaction.fitid` is `unique=True`. */
  ghost predicate TransactionsOk(transactions: seq<Transaction>, accountCount: nat)
  {
    && (forall i :: 0 <= i < |transactions| ==>
          transactions[i].id == i && transactions[i].account < accountCount)
    && (forall i, j :: 0 <= i < j < |transactions| ==> transactions[i].fitid != transactions[j].fitid)
  }

  /** `Expense.transaction` is a nullable `OneToOneField`. */
  ghost predicate ExpensesOk(expenses: seq<Expense>, transactionCount: nat, subcategoryCount: nat)
  {
    && (forall i :: 0 <= i < |expenses| ==>
          && expenses[i].id == i
          && expenses[i].subcategory < subcategoryCount
          && (expenses[i].transaction.Some? ==> expenses[i].transaction.value < transactionCount))
    && (forall i, j :: 0 <= i < j < |expenses| && expenses[i].transaction.Some? ==>
          expenses[i].transaction != expenses[j].transaction)
  }

  /** `TransactionSuggestion.transaction` is a `OneToOneField`. */
  ghost predicate SuggestionsOk(suggestions: seq<Suggestion>, transactionCount: nat,
                                categoryCount: nat, subcategoryCount: nat)
  {
    && (forall i :: 0 <= i < |suggestions| ==>
          && suggestions[i].id == i
          && suggestions[i].transaction < transactionCount
          && (suggestions[i].category.Some? ==> suggestions[i].category.value < categoryCount)
          && (suggestions[i].subcategory.Some? ==> suggestions[i].subcategory.value < subcategoryCount))
    && (forall i, j :: 0 <= i < j < |suggestions| ==>
          suggestions[i].transaction != suggestions[j].transaction)
  }

  ghost predicate Valid(db: Db)
  {
    && AccountsOk(db.accounts)
    && CategoriesOk(db.categories)
    && SubcategoriesOk(db.subcategories, |db.categories|)
    && TransactionsOk(db.transactions, |db.accounts|)
    && ExpensesOk(db.expenses, |db.transactions|, |db.subcategories|)
    && SuggestionsOk(db.suggestions, |db.transactions|, |db.categories|, |db.subcategories|)
  }

  lemma EmptyDbIsValid()
    ensures Valid(EmptyDb)
  {
  }

  // ---------------------------------------------------------------- reverse relations

  /** `hasattr(transaction, "expense")`. */
  predicate HasExpense(db: Db, transaction: Id)
  {
    exists i :: 0 <= i < |db.expenses| && db.expenses[i].transaction == Some(transaction)
  }

  function SuggestionOf(transaction: Id): Suggestion -> bool
  {
    (s: Suggestion) => s.transaction == transaction
  }

  /** `transaction.suggestion`, or `None` where `hasattr(transaction, "suggestion")` is false. */
  function SuggestionFor(db: Db, transaction: Id): (r: Option<Suggestion>)
    ensures r.Some? ==> r.value in db.suggestions && r.value.transaction == transaction
    ensures r.None? <==> forall k :: 0 <= k < |db.suggestions| ==> db.suggestions[k].transaction != transaction
  {
    var found := Filter(db.suggestions, SuggestionOf(transaction));
    assert forall k :: 0 <= k < |db.suggestions| && db.suggestions[k].transaction == transaction ==>
      db.suggestions[k] in found;
    if found == [] then None else Some(found[0])
  }

  predicate HasSuggestion(db: Db, transaction: Id)
  {
    SuggestionFor(db, transaction).Some?
  }

  /** Under the one-to-one constraint the suggestion found is the only one. */
  lemma SuggestionForIsUnique(db: Db, transaction: Id, k: nat)
    requires Valid(db) && k < |db.suggestions| && db.suggestions[k].transaction == transaction
    ensures SuggestionFor(db, transaction) == Some(db.suggestions[k])
  {
    var s := SuggestionFor(db, transaction).value;
    assert db.suggestions[s.id] == s;
  }

  // ---------------------------------------------------------------- objects.create

  function CreateAccount(db: Db, name: string, kind: AccountType): (r: (Account, Db))
    ensures r.0 == Account(|db.accounts|, name, kind)
    ensures r.1 == db.(accounts := db.accounts + [r.0])
    ensures Valid(db) ==> Valid(r.1)
  {
    var a := Account(|db.accounts|, name, kind);
    (a, db.(accounts := db.accounts + [a]))
  }

  predicate CategoryNameTaken(db: Db, name: string)
  {
    exists i :: 0 <= i < |db.categories| && db.categories[i].name == name
  }

  function CreateCategory(db: Db, name: string): (r: (Result<Category, DbError>, Db))
    ensures r.0.Failure? <==> CategoryNameTaken(db, name)
    ensures r.0.Failure? ==> r == (Failure(IntegrityError), db)
    ensures r.0.Success? ==> r.0.value == Category(|db.categories|, name) &&
                             r.1 == db.(categories := db.categories + [r.0.value])
    ensures Valid(db) ==> Valid(r.1)
  {
    if CategoryNameTaken(db, name) then (Failure(IntegrityError), db)
    else
      var c := Category(|db.categories|, name);
      (Success(c), db.(categories := db.categories + [c]))
  }

  function CreateSubCategory(db: Db, category: Id, name: string): (r: (SubCategory, Db))
    ensures r.0 == SubCategory(|db.subcategories|, category, name)
    ensures r.1 == db.(subcategories := db.subcategories + [r.0])
    ensures Valid(db) && category < |db.categories| ==> Valid(r.1)
  {
    var s := SubCategory(|db.subcategories|, category, name);
    (s, db.(subcategories := db.subcategories + [s]))
  }

  predicate FitidTaken(db: Db, fitid: string)
  {
    exists i :: 0 <= i < |db.transactions| && db.transactions[i].fitid == fitid
  }

  function CreateTransaction(db: Db, account: Id, fitid: string, amount: int, date: Date,
                             referenceDate: Option<Date>, memo: string): (r: (Result<Transaction, DbError>, Db))
    ensures r.0.Failure? <==> FitidTaken(db, fitid)
    ensures r.0.Failure? ==> r == (Failure(IntegrityError), db)
    ensures r.0.Success? ==>
      && r.0.value == Transaction(|db.transactions|, fitid, account, amount, date, referenceDate, memo)
      && r.1 == db.(transactions := db.transactions + [r.0.value])
    ensures Valid(db) && account < |db.accounts| ==> Valid(r.1)
  {
    if FitidTaken(db, fitid) then (Failure(IntegrityError), db)
    else
      var t := Transaction(|db.transactions|, fitid, account, amount, date, referenceDate, memo);
      (Success(t), db.(transactions := db.transactions + [t]))
  }

  /** `Expense.objects.create(...)`; `is_ignored` defaults to false. */
  function CreateExpense(db: Db, transaction: Option<Id>, description: string, subcategory: Id,
                         referenceMonth: Date): (r: (Result<Expense, DbError>, Db))
    ensures r.0.Failure? <==> transaction.Some? && HasExpense(db, transaction.value)
    ensures r.0.Failure? ==> r == (Failure(IntegrityError), db)
    ensures r.0.Success? ==>
      && r.0.value == Expense(|db.expenses|, transaction, description, subcategory, referenceMonth, false)
      && r.1 == db.(expenses := db.expenses + [r.0.value])
    ensures (Valid(db) && subcategory < |db.subcategories| &&
             (transaction.Some? ==> transaction.value < |db.transactions|)) ==> Valid(r.1)
  {
    if transaction.Some? && HasExpense(db, transaction.value) then (Failure(IntegrityError), db)
    else
      var e := Expense(|db.expenses|, transaction, description, subcategory, referenceMonth, false);
      (Success(e), db.(expenses := db.expenses + [e]))
  }

  /** `TransactionSuggestion.objects.create(...)`; `status` defaults to PENDENTE. */
  function CreateSuggestion(db: Db, transaction: Id, category: Option<Id>, subcategory: Option<Id>,
                            description: Option<string>): (r: (Result<Suggestion, DbError>, Db))
    ensures r.0.Failure? <==> HasSuggestion(db, transaction)
    ensures r.0.Failure? ==> r == (Failure(IntegrityError), db)
    ensures r.0.Success? ==>
      && r.0.value == Suggestion(|db.suggestions|, transaction, category, subcategory, description, Pending)
      && r.1 == db.(suggestions := db.suggestions + [r.0.value])
    ensures (Valid(db) && transaction < |db.transactions| &&
             (category.Some? ==> category.value < |db.categories|) &&
             (subcategory.Some? ==> subcategory.value < |db.subcategories|)) ==> Valid(r.1)
  {
    if HasSuggestion(db, transaction) then (Failure(IntegrityError), db)
    else
      var s := Suggestion(|db.suggestions|, transaction, category, subcategory, description, Pending);
      (Success(s), db.(suggestions := db.suggestions + [s]))
  }

  /** `suggestion.status = status; suggestion.save()`. */
  function SaveSuggestionStatus(db: Db, id: Id, status: Status): (r: Db)
    requires id < |db.suggestions|
    ensures |r.suggestions| == |db.suggestions|
    ensures r.suggestions[id] == db.suggestions[id].(status := status)
    ensures forall k :: 0 <= k < |db.suggestions| && k != id ==> r.suggestions[k] == db.suggestions[k]
    ensures r == db.(suggestions := r.suggestions)
    ensures Valid(db) ==> Valid(r)
  {
    db.(suggestions := db.suggestions[id := db.suggestions[id].(status := status)])
  }

  // ---------------------------------------------------------------- objects.get_or_create

  function AccountNamed(name: string): Account -> bool
  {
    (a: Account) => a.name == name
  }

  /** `Account.objects.get_or_create(name=name, defaults={"type": kind})`. */
  function GetOrCreateAccount(db: Db, name: string, kind: AccountType): (r: (Result<(Account, bool), DbError>, Db))
    ensures r.0.Failure? <==> Count(db.accounts, AccountNamed(name)) > 1
    ensures r.0.Failure? ==> r == (Failure(MultipleObjectsReturned), db)
    ensures r.0.Success? && !r.0.value.1 ==> r.1 == db && r.0.value.0 in db.accounts && r.0.value.0.name == name
    ensures r.0.Success? && r.0.value.1 ==>
      && Count(db.accounts, AccountNamed(name)) == 0
      && r.0.value.0 == Account(|db.accounts|, name, kind)
      && r.1 == db.(accounts := db.accounts + [r.0.value.0])
    ensures Valid(db) ==> Valid(r.1)
  {
    var found := Filter(db.accounts, AccountNamed(name));
    if |found| > 1 then (Failure(MultipleObjectsReturned), db)
    else if |found| == 1 then (Success((found[0], false)), db)
    else
      var (a, db1) := CreateAccount(db, name, kind);
      (Success((a, true)), db1)
  }

  function CategoryNamed(name: string): Category -> bool
  {
    (c: Category) => c.name == name
  }

  /** `Category.objects.get_or_create(name=name)`. */
  function GetOrCreateCategory(db: Db, name: string): (r: (Result<(Category, bool), DbError>, Db))
    ensures r.0.Failure? <==> Count(db.categories, CategoryNamed(name)) > 1
    ensures r.0.Failure? ==> r == (Failure(MultipleObjectsReturned), db)
    ensures r.0.Success? && !r.0.value.1 ==> r.1 == db && r.0.value.0 in db.categories && r.0.value.0.name == name
    ensures r.0.Success? && r.0.value.1 ==>
      && !CategoryNameTaken(db, name)
      && r.0.value.0 == Category(|db.categories|, name)
      && r.1 == db.(categories := db.categories + [r.0.value.0])
    ensures Valid(db) ==> Valid(r.1)
  {
    var found := Filter(db.categories, CategoryNamed(name));
    if |found| > 1 then (Failure(MultipleObjectsReturned), db)
    else if |found| == 1 then (Success((found[0], false)), db)
    else
      assert !CategoryNameTaken(db, name) by {
        forall i | 0 <= i < |db.categories| ensures db.categories[i].name != name {
          assert db.categories[i] !in found;
        }
      }
      var (c, db1) := CreateCategory(db, name);
      (Success((c.value, true)), db1)
  }

  /** Under `Valid` a category name is never found twice. */
  lemma CategoryNamesUnique(db: Db, name: string)
    requires Valid(db)
    ensures Count(db.categories, CategoryNamed(name)) <= 1
  {
    FilterUnique(db.categories, CategoryNamed(name));
  }

  function SubCategoryKey(name: string, category: Id): SubCategory -> bool
  {
    (s: SubCategory) => s.name == name && s.category == category
  }

  /** `SubCategory.objects.get_or_create(name=name, category=category)`. */
  function GetOrCreateSubCategory(db: Db, name: string, category: Id): (r: (Result<(SubCategory, bool), DbError>, Db))
    ensures r.0.Failure? <==> Count(db.subcategories, SubCategoryKey(name, category)) > 1
    ensures r.0.Failure? ==> r == (Failure(MultipleObjectsReturned), db)
    ensures r.0.Success? && !r.0.value.1 ==>
      r.1 == db && r.0.value.0 in db.subcategories && r.0.value.0.name == name && r.0.value.0.category == category
    ensures r.0.Success? && r.0.value.1 ==>
      && Count(db.subcategories, SubCategoryKey(name, category)) == 0
      && r.0.value.0 == SubCategory(|db.subcategories|, category, name)
      && r.1 == db.(subcategories := db.subcategories + [r.0.value.0])
    ensures Valid(db) && category < |db.categories| ==> Valid(r.1)
  {
    var found := Filter(db.subcategories, SubCategoryKey(name, category));
    if |found| > 1 then (Failure(MultipleObjectsReturned), db)
    else if |found| == 1 then (Success((found[0], false)), db)
    else
      var (s, db1) := CreateSubCategory(db, category, name);
      (Success((s, true)), db1)
  }

  function TransactionKey(account: Id, fitid: string): Transaction -> bool
  {
    (t: Transaction) => t.account == account && t.fitid == fitid
  }

  /** `account.transaction_set.get_or_create(fitid=fitid, defaults={...})`. */
  function GetOrCreateTransaction(db: Db, account: Id, fitid: string, amount: int, date: Date,
                                  referenceDate: Option<Date>, memo: string): (r: (Result<(Transaction, bool), DbError>, Db))
    ensures r.0.Success? && !r.0.value.1 ==>
      r.1 == db && r.0.value.0 in db.transactions && r.0.value.0.account == account && r.0.value.0.fitid == fitid
    ensures r.0.Success? && r.0.value.1 ==>
      && r.0.value.0 == Transaction(|db.transactions|, fitid, account, amount, date, referenceDate, memo)
      && r.1 == db.(transactions := db.transactions + [r.0.value.0])
    ensures r.0.Failure? ==> r.1 == db
    ensures Valid(db) && account < |db.accounts| ==> Valid(r.1)
  {
    var found := Filter(db.transactions, TransactionKey(account, fitid));
    if |found| > 1 then (Failure(MultipleObjectsReturned), db)
    else if |found| == 1 then (Success((found[0], false)), db)
    else
      match CreateTransaction(db, account, fitid, amount, date, referenceDate, memo)
      case (Failure(e), db1) => (Failure(e), db1)
      case (Success(t), db1) => (Success((t, true)), db1)
  }

  /** Under `Valid`, get_or_create for a transaction creates exactly when the
      fitid is new, finds the row when it is stored for this account, and
      raises `IntegrityError` when it is stored for another account. */
  lemma GetOrCreateTransactionCases(db: Db, account: Id, fitid: string, amount: int, date: Date,
                                    referenceDate: Option<Date>, memo: string)
    requires Valid(db)
    ensures var r := GetOrCreateTransaction(db, account, fitid, amount, date, referenceDate, memo);
      && (!FitidTaken(db, fitid) ==> r.0.Success? && r.0.value.1)
      && (forall k :: 0 <= k < |db.transactions| && db.transactions[k].fitid == fitid ==>
            if db.transactions[k].account == account
            then r == (Success((db.transactions[k], false)), db)
            else r == (Failure(IntegrityError), db))
  {
    var p := TransactionKey(account, fitid);
    FilterUnique(db.transactions, p);
    forall k | 0 <= k < |db.transactions| && db.transactions[k].fitid == fitid
      ensures var r := GetOrCreateTransaction(db, account, fitid, amount, date, referenceDate, memo);
              if db.transactions[k].account == account
              then r == (Success((db.transactions[k], false)), db)
              else r == (Failure(IntegrityError), db)
    {
      if db.transactions[k].account != account {
        assert forall i :: 0 <= i < |db.transactions| ==> !p(db.transactions[i]);
      }
    }
  }
}
