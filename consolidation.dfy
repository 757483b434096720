/**
 * Turning a bank transaction into an expense
 * (orcamento_2026/core/services/consolidation.py).
 */
module Consolidation {
  import opened Wrappers
  import opened Text
  import opened Dates
  import opened Seqs
  import opened Models
  import opened DbUtils
  import opened Database

  function HasNoExpense(db: Db): Transaction -> bool
  {
    (t: Transaction) => !HasExpense(db, t.id)
  }

  function DateKey(t: Transaction): int
  {
    Ordinal(t.date)
  }

  /** `get_unconsolidated_transactions()`: the transactions without an expense, oldest first. */
  function UnconsolidatedTransactions(db: Db): (r: seq<Transaction>)
    ensures forall t :: t in r <==> t in db.transactions && !HasExpense(db, t.id)
    ensures multiset(r) == multiset(Filter(db.transactions, HasNoExpense(db)))
    ensures SortedBy(r, DateKey)
  {
    var pending := Filter(db.transactions, HasNoExpense(db));
    var r := SortByKey(pending, DateKey);
    assert forall t :: t in r <==> t in pending by {
      forall t ensures t in r <==> t in pending {
        SortedMembers(pending, DateKey, t);
      }
    }
    r
  }

  /** Under `Valid`, the order of the result is the order of the transaction dates. */
  lemma UnconsolidatedAreChronological(db: Db, i: nat, j: nat)
    requires Valid(db)
    requires forall t :: t in db.transactions ==> IsValid(t.date)
    requires i < j < |UnconsolidatedTransactions(db)|
    ensures !Precedes(UnconsolidatedTransactions(db)[j].date, UnconsolidatedTransactions(db)[i].date)
  {
    var r := UnconsolidatedTransactions(db);
    assert r[i] in r && r[j] in r;
    OrdinalIsChronological(r[j].date, r[i].date);
  }

  datatype ConsolidationError = ValueError(message: string) | DatabaseError(error: DbError)

  function CategoryNotFound(categoryName: string): string
  {
    "Categoria '" + categoryName + "' não encontrada"
  }

  function SubCategoryNotFound(subcategoryName: string, categoryName: string): string
  {
    "Subcategoria '" + subcategoryName + "' não encontrada na categoria '" + categoryName + "'"
  }

  /** `consolidate_transaction(transaction, category_name, subcategory_name, description, reference_month)`:
      the expense created, or the exception raised, and the database afterwards. */
  function Consolidate(db: Db, tx: Id, categoryName: string, subcategoryName: string,
                       description: string, referenceMonth: Date): (r: (Result<Expense, ConsolidationError>, Db))
    requires Valid(db) && tx < |db.transactions|
    ensures Valid(r.1)
    ensures r.0.Failure? ==> r.1 == db
  {
    match FindCategory(db, Some(categoryName))
    case None => (Failure(ValueError(CategoryNotFound(categoryName))), db)
    case Some(category) =>
      match FindSubCategory(db, category.id, Some(subcategoryName))
      case None => (Failure(ValueError(SubCategoryNotFound(subcategoryName, categoryName))), db)
      case Some(subcategory) =>
        assert subcategory.id < |db.subcategories| by {
          var i :| 0 <= i < |db.subcategories| && db.subcategories[i] == subcategory;
        }
        match Models.CreateExpense(db, Some(tx), description, subcategory.id, referenceMonth)
        case (Failure(e), _) => (Failure(DatabaseError(e)), db)
        case (Success(expense), db1) => (Success(expense), AcceptSuggestion(db1, tx))
  }

  /** The transaction's suggestion, if it has one, saved with status ACEITO. */
  function AcceptSuggestion(db: Db, tx: Id): (r: Db)
    requires Valid(db)
    ensures Valid(r) && r == db.(suggestions := r.suggestions) && |r.suggestions| == |db.suggestions|
    ensures forall k :: 0 <= k < |db.suggestions| ==>
      r.suggestions[k] == if db.suggestions[k].transaction == tx then db.suggestions[k].(status := Accepted)
                          else db.suggestions[k]
  {
    match SuggestionFor(db, tx)
    case None => db
    case Some(suggestion) =>
      assert db.suggestions[suggestion.id] == suggestion by {
        var i :| 0 <= i < |db.suggestions| && db.suggestions[i] == suggestion;
      }
      forall k | 0 <= k < |db.suggestions| && db.suggestions[k].transaction == tx
        ensures k == suggestion.id
      {
        SuggestionForIsUnique(db, tx, k);
      }
      SaveSuggestionStatus(db, suggestion.id, Accepted)
  }

  lemma ConsolidateUnknownCategory(db: Db, tx: Id, categoryName: string, subcategoryName: string,
                                   description: string, referenceMonth: Date)
    requires Valid(db) && tx < |db.transactions|
    requires forall c :: c in db.categories ==> Lower(c.name) != Lower(categoryName)
    ensures Consolidate(db, tx, categoryName, subcategoryName, description, referenceMonth)
         == (Failure(ValueError("Categoria '" + categoryName + "' não encontrada")), db)
  {
    assert forall i :: 0 <= i < |db.categories| ==> db.categories[i] in db.categories;
  }

  /** The category is resolved, case-insensitively, to the first match by id, but
      none of that category's own subcategories has the name, even if another
      category matching the name has one; the message repeats the category name
      as it was given. */
  lemma ConsolidateUnknownSubCategory(db: Db, tx: Id, categoryName: string, subcategoryName: string,
                                      description: string, referenceMonth: Date)
    requires Valid(db) && tx < |db.transactions|
    requires FindCategory(db, Some(categoryName)).Some?
    requires FindSubCategory(db, FindCategory(db, Some(categoryName)).value.id, Some(subcategoryName)).None?
    ensures Consolidate(db, tx, categoryName, subcategoryName, description, referenceMonth)
         == (Failure(ValueError("Subcategoria '" + subcategoryName + "' não encontrada na categoria '" + categoryName + "'")), db)
  {
  }

  /** Two categories whose names differ only in case are allowed by the unique
      constraint. The lookup resolves "LAZER" to the first of them, so a
      subcategory kept only under the second is not found. */
  lemma ConsolidateUsesFirstMatchingCategory()
    ensures var db := Db([Account(0, "Nubank", Checking)],
                         [Category(0, "Lazer"), Category(1, "lazer")],
                         [SubCategory(0, 1, "Cinema")],
                         [Transaction(0, "F1", 0, -2500, Date(2025, 3, 5), None, "CINEMA")],
                         [], []);
      Valid(db) &&
      Consolidate(db, 0, "LAZER", "Cinema", "Cinema", Date(2025, 3, 1))
        == (Failure(ValueError(SubCategoryNotFound("Cinema", "LAZER"))), db)
  {
    var db := Db([Account(0, "Nubank", Checking)],
                 [Category(0, "Lazer"), Category(1, "lazer")],
                 [SubCategory(0, 1, "Cinema")],
                 [Transaction(0, "F1", 0, -2500, Date(2025, 3, 5), None, "CINEMA")],
                 [], []);
    assert Valid(db);
    assert Lower("Lazer") == Lower("LAZER");
    FindCategoryIsFirst(db, "LAZER", 0);
    assert FindSubCategory(db, 0, Some("Cinema")).None?;
    ConsolidateUnknownSubCategory(db, 0, "LAZER", "Cinema", "Cinema", Date(2025, 3, 1));
  }

  /** What a successful consolidation does: one new expense for the transaction,
      in a subcategory of the named category; the transaction's suggestion, if
      any, becomes ACEITO; no other row changes. */
  lemma ConsolidateSuccess(db: Db, tx: Id, categoryName: string, subcategoryName: string,
                           description: string, referenceMonth: Date)
    requires Valid(db) && tx < |db.transactions|
    ensures var (r, db') := Consolidate(db, tx, categoryName, subcategoryName, description, referenceMonth);
      r.Success? ==>
        && r.value.id == |db.expenses|
        && r.value.transaction == Some(tx)
        && r.value.description == description
        && r.value.referenceMonth == referenceMonth
        && !r.value.isIgnored
        && r.value.subcategory < |db.subcategories|
        && Lower(db.subcategories[r.value.subcategory].name) == Lower(subcategoryName)
        && Lower(db.categories[db.subcategories[r.value.subcategory].category].name) == Lower(categoryName)
        && FindCategory(db, Some(categoryName)).Some?
        && db.subcategories[r.value.subcategory].category == FindCategory(db, Some(categoryName)).value.id
        && FindSubCategory(db, FindCategory(db, Some(categoryName)).value.id, Some(subcategoryName))
             == Some(db.subcategories[r.value.subcategory])
        && !HasExpense(db, tx)
        && db'.expenses == db.expenses + [r.value]
        && db'.accounts == db.accounts && db'.categories == db.categories
        && db'.subcategories == db.subcategories && db'.transactions == db.transactions
        && |db'.suggestions| == |db.suggestions|
        && forall k :: 0 <= k < |db.suggestions| ==>
             db'.suggestions[k] == if db.suggestions[k].transaction == tx
                                   then db.suggestions[k].(status := Accepted)
                                   else db.suggestions[k]
  {
    var (r, db') := Consolidate(db, tx, categoryName, subcategoryName, description, referenceMonth);
    if r.Success? {
      var category := FindCategory(db, Some(categoryName)).value;
      var subcategory := FindSubCategory(db, category.id, Some(subcategoryName)).value;
      var db1 := Models.CreateExpense(db, Some(tx), description, subcategory.id, referenceMonth).1;
      assert db1.suggestions == db.suggestions;
    }
  }

  /** Both names resolve when some category matches the first and every category
      matching it has a subcategory matching the second. */
  lemma NamesResolve(db: Db, categoryName: string, subcategoryName: string)
    requires exists c :: c in db.categories && Lower(c.name) == Lower(categoryName)
    requires forall c :: c in db.categories && Lower(c.name) == Lower(categoryName) ==>
      exists s :: s in db.subcategories && s.category == c.id && Lower(s.name) == Lower(subcategoryName)
    ensures FindCategory(db, Some(categoryName)).Some?
    ensures FindSubCategory(db, FindCategory(db, Some(categoryName)).value.id, Some(subcategoryName)).Some?
  {
    var c :| c in db.categories && Lower(c.name) == Lower(categoryName);
    var ci :| 0 <= ci < |db.categories| && db.categories[ci] == c;
    var category := FindCategory(db, Some(categoryName)).value;
    var s :| s in db.subcategories && s.category == category.id && Lower(s.name) == Lower(subcategoryName);
    var si :| 0 <= si < |db.subcategories| && db.subcategories[si] == s;
  }

  /** Consolidation succeeds exactly when the transaction has no expense yet, the
      category name resolves, and the subcategory name resolves inside the
      category found (the first match by id, see `DbUtils.FindCategoryIsFirst`). */
  lemma ConsolidateSucceeds(db: Db, tx: Id, categoryName: string, subcategoryName: string,
                            description: string, referenceMonth: Date)
    requires Valid(db) && tx < |db.transactions|
    ensures Consolidate(db, tx, categoryName, subcategoryName, description, referenceMonth).0.Success? <==>
      && !HasExpense(db, tx)
      && FindCategory(db, Some(categoryName)).Some?
      && FindSubCategory(db, FindCategory(db, Some(categoryName)).value.id, Some(subcategoryName)).Some?
  {
  }

  /** A sufficient condition on the tables alone: some category matches the
      name, and every category matching it has a subcategory matching the other name. */
  lemma ConsolidateSucceedsWhenEveryMatchHasIt(db: Db, tx: Id, categoryName: string, subcategoryName: string,
                                               description: string, referenceMonth: Date)
    requires Valid(db) && tx < |db.transactions| && !HasExpense(db, tx)
    requires exists c :: c in db.categories && Lower(c.name) == Lower(categoryName)
    requires forall c :: c in db.categories && Lower(c.name) == Lower(categoryName) ==>
      exists s :: s in db.subcategories && s.category == c.id && Lower(s.name) == Lower(subcategoryName)
    ensures Consolidate(db, tx, categoryName, subcategoryName, description, referenceMonth).0.Success?
  {
    NamesResolve(db, categoryName, subcategoryName);
    ConsolidateSucceeds(db, tx, categoryName, subcategoryName, description, referenceMonth);
  }

  /** A transaction is consolidated at most once: the second call raises and changes nothing. */
  lemma ConsolidateTwiceFails(db: Db, tx: Id, categoryName: string, subcategoryName: string,
                              description: string, referenceMonth: Date,
                              categoryName2: string, subcategoryName2: string,
                              description2: string, referenceMonth2: Date)
    requires Valid(db) && tx < |db.transactions|
    requires Consolidate(db, tx, categoryName, subcategoryName, description, referenceMonth).0.Success?
    ensures var db' := Consolidate(db, tx, categoryName, subcategoryName, description, referenceMonth).1;
      Consolidate(db', tx, categoryName2, subcategoryName2, description2, referenceMonth2).0.Failure? &&
      Consolidate(db', tx, categoryName2, subcategoryName2, description2, referenceMonth2).1 == db'
  {
    var (r, db') := Consolidate(db, tx, categoryName, subcategoryName, description, referenceMonth);
    ConsolidateSuccess(db, tx, categoryName, subcategoryName, description, referenceMonth);
    assert db'.expenses[|db.expenses|] == r.value;
    ConsolidatedIsFinal(db', tx, categoryName2, subcategoryName2, description2, referenceMonth2);
  }

  /** A transaction that already has its expense is refused, by the one-to-one constraint,
      whatever the names given. */
  lemma ConsolidatedIsFinal(db: Db, tx: Id, categoryName: string, subcategoryName: string,
                            description: string, referenceMonth: Date)
    requires Valid(db) && tx < |db.transactions| && HasExpense(db, tx)
    ensures var r := Consolidate(db, tx, categoryName, subcategoryName, description, referenceMonth);
      r.0.Failure? && r.1 == db
  {
  }

  lemma HasExpenseAfterCreate(db: Db, db': Db, e: Expense, id: Id)
    requires db'.expenses == db.expenses + [e]
    ensures HasExpense(db', id) <==> HasExpense(db, id) || e.transaction == Some(id)
  {
    if HasExpense(db', id) && e.transaction != Some(id) {
      var i :| 0 <= i < |db'.expenses| && db'.expenses[i].transaction == Some(id);
      assert db.expenses[i] == db'.expenses[i];
    }
    if HasExpense(db, id) {
      var i :| 0 <= i < |db.expenses| && db.expenses[i].transaction == Some(id);
      assert db'.expenses[i] == db.expenses[i];
    }
    if e.transaction == Some(id) {
      assert db'.expenses[|db.expenses|] == e;
    }
  }

  /** After a successful consolidation the transaction has left the unconsolidated list
      and every other transaction is where it was. */
  lemma ConsolidateRemovesFromPending(db: Db, tx: Id, categoryName: string, subcategoryName: string,
                                      description: string, referenceMonth: Date)
    requires Valid(db) && tx < |db.transactions|
    requires Consolidate(db, tx, categoryName, subcategoryName, description, referenceMonth).0.Success?
    ensures var db' := Consolidate(db, tx, categoryName, subcategoryName, description, referenceMonth).1;
      forall t :: t in UnconsolidatedTransactions(db') <==> t in UnconsolidatedTransactions(db) && t.id != tx
  {
    var (r, db') := Consolidate(db, tx, categoryName, subcategoryName, description, referenceMonth);
    ConsolidateSuccess(db, tx, categoryName, subcategoryName, description, referenceMonth);
    assert db'.expenses == db.expenses + [r.value] && r.value.transaction == Some(tx);
    assert db'.transactions == db.transactions;
    forall t ensures t in UnconsolidatedTransactions(db') <==> t in UnconsolidatedTransactions(db) && t.id != tx {
      HasExpenseAfterCreate(db, db', r.value, t.id);
    }
  }

  /** The service itself, writing through the store. */
  method ConsolidateTransaction(store: Store, tx: Id, categoryName: string, subcategoryName: string,
                                description: string, referenceMonth: Date)
    returns (r: Result<Expense, ConsolidationError>)
    requires store.Valid() && tx < |store.transactions|
    modifies store
    ensures store.Valid()
    ensures (r, store.State()) == Consolidate(old(store.State()), tx, categoryName, subcategoryName, description, referenceMonth)
  {
    var category := FindCategory(store.State(), Some(categoryName));
    if category.None? {
      return Failure(ValueError(CategoryNotFound(categoryName)));
    }
    var subcategory := FindSubCategory(store.State(), category.value.id, Some(subcategoryName));
    if subcategory.None? {
      return Failure(ValueError(SubCategoryNotFound(subcategoryName, categoryName)));
    }
    var created := store.CreateExpense(Some(tx), description, subcategory.value.id, referenceMonth);
    if created.Failure? {
      return Failure(DatabaseError(created.error));
    }
    var suggestion := SuggestionFor(store.State(), tx);
    if suggestion.Some? {
      store.SaveSuggestionStatus(suggestion.value.id, Accepted);
    }
    return Success(created.value);
  }
}
