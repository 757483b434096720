/**
 * The database as a mutable object: one sequence field per table, written only
 * through the ORM operations below. Each operation changes the tables exactly
 * as the corresponding function of `Models` says and keeps the constraints.
 */
module Database {
  import opened Wrappers
  import opened Dates
  import opened Seqs
  import opened Models

  class Store {
    var accounts: seq<Account>
    var categories: seq<Category>
    var subcategories: seq<SubCategory>
    var transactions: seq<Transaction>
    var expenses: seq<Expense>
    var suggestions: seq<Suggestion>

    /** The tables as one value. */
    function State(): Db
      reads this
    {
      Db(accounts, categories, subcategories, transactions, expenses, suggestions)
    }

    ghost predicate Valid()
      reads this
    {
      Models.Valid(State())
    }

    /** A freshly migrated, empty database. */
    constructor ()
      ensures Valid() && State() == EmptyDb
    {
      accounts, categories, subcategories := [], [], [];
      transactions, expenses, suggestions := [], [], [];
    }

    method GetOrCreateAccount(name: string, kind: AccountType) returns (r: Result<(Account, bool), DbError>)
      requires Valid()
      modifies this
      ensures Valid()
      ensures (r, State()) == Models.GetOrCreateAccount(old(State()), name, kind)
    {
      var found := Filter(accounts, AccountNamed(name));
      if |found| > 1 {
        return Failure(MultipleObjectsReturned);
      } else if |found| == 1 {
        return Success((found[0], false));
      }
      var a := Account(|accounts|, name, kind);
      accounts := accounts + [a];
      return Success((a, true));
    }

    method GetOrCreateCategory(name: string) returns (r: Result<(Category, bool), DbError>)
      requires Valid()
      modifies this
      ensures Valid()
      ensures (r, State()) == Models.GetOrCreateCategory(old(State()), name)
    {
      var found := Filter(categories, CategoryNamed(name));
      if |found| > 1 {
        return Failure(MultipleObjectsReturned);
      } else if |found| == 1 {
        return Success((found[0], false));
      }
      assert !CategoryNameTaken(State(), name) by {
        forall i | 0 <= i < |categories| ensures categories[i].name != name {
          assert categories[i] !in found;
        }
      }
      var c := Category(|categories|, name);
      categories := categories + [c];
      return Success((c, true));
    }

    method GetOrCreateSubCategory(name: string, category: Id) returns (r: Result<(SubCategory, bool), DbError>)
      requires Valid() && category < |categories|
      modifies this
      ensures Valid()
      ensures (r, State()) == Models.GetOrCreateSubCategory(old(State()), name, category)
    {
      var found := Filter(subcategories, SubCategoryKey(name, category));
      if |found| > 1 {
        return Failure(MultipleObjectsReturned);
      } else if |found| == 1 {
        return Success((found[0], false));
      }
      var s := SubCategory(|subcategories|, category, name);
      subcategories := subcategories + [s];
      return Success((s, true));
    }

    method GetOrCreateTransaction(account: Id, fitid: string, amount: int, date: Date,
                                  referenceDate: Option<Date>, memo: string)
      returns (r: Result<(Transaction, bool), DbError>)
      requires Valid() && account < |accounts|
      modifies this
      ensures Valid()
      ensures (r, State()) == Models.GetOrCreateTransaction(old(State()), account, fitid, amount, date, referenceDate, memo)
    {
      var found := Filter(transactions, TransactionKey(account, fitid));
      if |found| > 1 {
        return Failure(MultipleObjectsReturned);
      } else if |found| == 1 {
        return Success((found[0], false));
      }
      if FitidTaken(State(), fitid) {
        return Failure(IntegrityError);
      }
      var t := Transaction(|transactions|, fitid, account, amount, date, referenceDate, memo);
      transactions := transactions + [t];
      return Success((t, true));
    }

    method CreateExpense(transaction: Option<Id>, description: string, subcategory: Id, referenceMonth: Date)
      returns (r: Result<Expense, DbError>)
      requires Valid() && subcategory < |subcategories|
      requires transaction.Some? ==> transaction.value < |transactions|
      modifies this
      ensures Valid()
      ensures (r, State()) == Models.CreateExpense(old(State()), transaction, description, subcategory, referenceMonth)
    {
      if transaction.Some? && HasExpense(State(), transaction.value) {
        return Failure(IntegrityError);
      }
      var e := Expense(|expenses|, transaction, description, subcategory, referenceMonth, false);
      expenses := expenses + [e];
      return Success(e);
    }

    method CreateSuggestion(transaction: Id, category: Option<Id>, subcategory: Option<Id>, description: Option<string>)
      returns (r: Result<Suggestion, DbError>)
      requires Valid() && transaction < |transactions|
      requires category.Some? ==> category.value < |categories|
      requires subcategory.Some? ==> subcategory.value < |subcategories|
      modifies this
      ensures Valid()
      ensures (r, State()) == Models.CreateSuggestion(old(State()), transaction, category, subcategory, description)
    {
      if HasSuggestion(State(), transaction) {
        return Failure(IntegrityError);
      }
      var s := Suggestion(|suggestions|, transaction, category, subcategory, description, Pending);
      suggestions := suggestions + [s];
      return Success(s);
    }

    method SaveSuggestionStatus(id: Id, status: Status)
      requires Valid() && id < |suggestions|
      modifies this
      ensures Valid()
      ensures State() == Models.SaveSuggestionStatus(old(State()), id, status)
    {
      suggestions := suggestions[id := suggestions[id].(status := status)];
    }
  }
}
