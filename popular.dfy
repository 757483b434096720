/**
 * The `popular` command (orcamento_2026/core/management/commands/popular.py): a
 * fixed list of accounts fetched or created by name, then a fixed category
 * catalogue seeded exactly as `setup_categories` seeds `categories.json`.
 */
module Popular {
  import opened Wrappers
  import opened Seqs
  import opened Models
  import opened Database
  import opened SetupCategories

  /** `accounts_data`: four cards, then three checking accounts. */
  const AccountsData: seq<(string, AccountType)> := [
    ("Visa BB", Card),
    ("Master BB", Card),
    ("Elo BB", Card),
    ("Master Inter", Card),
    ("BB CC Funci", Checking),
    ("Santander", Checking),
    ("Inter", Checking)
  ]

  /** `categories_data`. */
  const CategoriesData: seq<Entry> := [
    Entry("Moradia", ["Aluguel", "Condom\U{ED}nio", "Energia", "Internet", "Manuten\U{E7}\U{E3}o", "Outros"]),
    Entry("Alimenta\U{E7}\U{E3}o", ["Supermercado", "Restaurante", "Ifood", "Lanches", "Outros"]),
    Entry("Transporte", ["Combust\U{ED}vel", "Uber", "Estacionamento", "Manuten\U{E7}\U{E3}o Ve\U{ED}culo", "Outros"]),
    Entry("Sa\U{FA}de", ["Farm\U{E1}cia", "Consultas", "Plano de Sa\U{FA}de", "Academia", "Outros"]),
    Entry("Lazer", ["Cinema", "Viagem", "Streaming", "Jogos", "Outros"]),
    Entry("Educa\U{E7}\U{E3}o", ["Cursos", "Livros", "Material Escolar", "Outros"]),
    Entry("Financeiro", ["Tarifas Banc\U{E1}rias", "Impostos", "Outros"])
  ]

  /** No two entries of a list of accounts share a name. */
  predicate DistinctNames(data: seq<(string, AccountType)>)
  {
    forall i, j :: 0 <= i < j < |data| ==> data[i].0 != data[j].0
  }

  lemma AccountsDataDistinct()
    ensures DistinctNames(AccountsData) && |AccountsData| == 7
  {
  }

  // ---------------------------------------------------------------- the accounts loop

  /** `Account.objects.get_or_create(name=name, defaults={"type": kind})`, keeping only
      whether it raised. */
  function AccountStep(db: Db, name: string, kind: AccountType): (Result<(), DbError>, Db)
  {
    var got := GetOrCreateAccount(db, name, kind);
    (if got.0.Failure? then Failure(got.0.error) else Success(()), got.1)
  }

  /** The accounts loop from entry `i` on, stopping at the first error. */
  function SeedAccounts(db: Db, data: seq<(string, AccountType)>, i: nat): (Result<(), DbError>, Db)
    requires i <= |data|
    decreases |data| - i
  {
    if i == |data| then (Success(()), db)
    else
      var step := AccountStep(db, data[i].0, data[i].1);
      if step.0.Failure? then step else SeedAccounts(step.1, data, i + 1)
  }

  /** `db'` is `db` with accounts appended and nothing else changed. */
  predicate AddsAccounts(db: Db, db': Db)
  {
    db' == db.(accounts := db'.accounts) &&
    |db.accounts| <= |db'.accounts| && db'.accounts[..|db.accounts|] == db.accounts
  }

  lemma {:induction false} SeedAccountsKeepsValid(db: Db, data: seq<(string, AccountType)>, i: nat)
    requires Valid(db) && i <= |data|
    ensures var r := SeedAccounts(db, data, i); Valid(r.1) && AddsAccounts(db, r.1)
    decreases |data| - i
  {
    if i < |data| {
      var step := AccountStep(db, data[i].0, data[i].1);
      if step.0.Success? {
        SeedAccountsKeepsValid(step.1, data, i + 1);
        var r := SeedAccounts(step.1, data, i + 1).1;
        assert r.accounts[..|db.accounts|] == r.accounts[..|step.1.accounts|][..|db.accounts|];
      }
    }
  }

  /** How many accounts carry `name`. */
  function NameCount(db: Db, name: string): nat
  {
    Count(db.accounts, AccountNamed(name))
  }

  /** A step leaves every other name's count alone, and leaves its own name found once
      unless it raised. */
  lemma AccountStepCounts(db: Db, name: string, kind: AccountType, n: string)
    ensures var r := AccountStep(db, name, kind);
      && (n != name ==> NameCount(r.1, n) == NameCount(db, n))
      && (r.0.Success? ==> NameCount(r.1, name) == 1)
      && (r.0.Failure? <==> NameCount(db, name) > 1)
  {
    if NameCount(db, name) == 0 {
      var a := Account(|db.accounts|, name, kind);
      FilterAppend(db.accounts, a, AccountNamed(n));
      FilterAppend(db.accounts, a, AccountNamed(name));
    }
  }

  lemma {:induction false} SeedAccountsKeepsCount(db: Db, data: seq<(string, AccountType)>, i: nat, n: string)
    requires i <= |data| && NameCount(db, n) == 1
    ensures NameCount(SeedAccounts(db, data, i).1, n) == 1
    decreases |data| - i
  {
    if i < |data| {
      var step := AccountStep(db, data[i].0, data[i].1);
      AccountStepCounts(db, data[i].0, data[i].1, n);
      if step.0.Success? {
        SeedAccountsKeepsCount(step.1, data, i + 1, n);
      }
    }
  }

  /** After a run without error every listed name belongs to exactly one account. */
  lemma {:induction false} SeedAccountsEstablishes(db: Db, data: seq<(string, AccountType)>, i: nat, k: nat)
    requires i <= k < |data|
    ensures var r := SeedAccounts(db, data, i); r.0.Success? ==> NameCount(r.1, data[k].0) == 1
    decreases |data| - i
  {
    var step := AccountStep(db, data[i].0, data[i].1);
    AccountStepCounts(db, data[i].0, data[i].1, data[k].0);
    if step.0.Success? {
      if k == i {
        SeedAccountsKeepsCount(step.1, data, i + 1, data[k].0);
      } else {
        SeedAccountsEstablishes(step.1, data, i + 1, k);
      }
    }
  }

  /** A run over distinct names raises only where a listed name is already shared by two accounts. */
  lemma {:induction false} SeedAccountsSucceeds(db: Db, data: seq<(string, AccountType)>, i: nat)
    requires i <= |data| && DistinctNames(data)
    requires forall k :: i <= k < |data| ==> NameCount(db, data[k].0) <= 1
    ensures SeedAccounts(db, data, i).0.Success?
    decreases |data| - i
  {
    if i < |data| {
      var step := AccountStep(db, data[i].0, data[i].1);
      forall k | i + 1 <= k < |data| ensures NameCount(step.1, data[k].0) <= 1 {
        AccountStepCounts(db, data[i].0, data[i].1, data[k].0);
      }
      AccountStepCounts(db, data[i].0, data[i].1, data[i].0);
      SeedAccountsSucceeds(step.1, data, i + 1);
    }
  }

  /** A name that no account carried is created with its listed type, and the account
      keeps that type to the end of the run. */
  lemma {:induction false} SeedAccountsCreatesWithKind(db: Db, data: seq<(string, AccountType)>, i: nat, k: nat)
    requires i <= k < |data| && NameCount(db, data[k].0) == 0
    requires forall j :: i <= j < k ==> data[j].0 != data[k].0
    ensures var r := SeedAccounts(db, data, i);
      r.0.Success? ==> exists a :: a in r.1.accounts && a.name == data[k].0 && a.kind == data[k].1
    decreases |data| - i
  {
    var step := AccountStep(db, data[i].0, data[i].1);
    AccountStepCounts(db, data[i].0, data[i].1, data[k].0);
    if step.0.Success? {
      if k == i {
        var a := Account(|db.accounts|, data[k].0, data[k].1);
        assert step.1.accounts[|db.accounts|] == a;
        SeedAccountsKeepsRows(step.1, data, i + 1);
        var after := SeedAccounts(step.1, data, i + 1).1;
        assert after.accounts[|db.accounts|] == after.accounts[..|step.1.accounts|][|db.accounts|];
      } else {
        SeedAccountsCreatesWithKind(step.1, data, i + 1, k);
      }
    }
  }

  /** The accounts loop only appends accounts. */
  lemma {:induction false} SeedAccountsKeepsRows(db: Db, data: seq<(string, AccountType)>, i: nat)
    requires i <= |data|
    ensures AddsAccounts(db, SeedAccounts(db, data, i).1)
    decreases |data| - i
  {
    if i < |data| {
      var step := AccountStep(db, data[i].0, data[i].1);
      if step.0.Success? {
        SeedAccountsKeepsRows(step.1, data, i + 1);
        var r := SeedAccounts(step.1, data, i + 1).1;
        assert step.1.accounts[..|db.accounts|] == db.accounts;
        assert r.accounts[..|db.accounts|] == r.accounts[..|step.1.accounts|][..|db.accounts|];
      }
    }
  }

  /** Names already carried by exactly one account are fetched, not created. */
  lemma {:induction false} SeedAccountsOfKnown(db: Db, data: seq<(string, AccountType)>, i: nat)
    requires i <= |data| && forall k :: i <= k < |data| ==> NameCount(db, data[k].0) == 1
    ensures SeedAccounts(db, data, i) == (Success(()), db)
    decreases |data| - i
  {
    if i < |data| {
      SeedAccountsOfKnown(db, data, i + 1);
    }
  }

  // ---------------------------------------------------------------- the whole command

  /** `handle()`: the accounts, then the catalogue; an error is one the command raises. */
  function Populate(db: Db): (Result<(), DbError>, Db)
  {
    var accounts := SeedAccounts(db, AccountsData, 0);
    if accounts.0.Failure? then accounts else SeedCatalogue(accounts.1, CategoriesData)
  }

  /** A run keeps the constraints; afterwards every listed account exists once, under its
      listed type where it was new, and every catalogue entry is seeded. */
  lemma PopulateEstablishes(db: Db)
    requires Valid(db)
    ensures var r := Populate(db);
      && Valid(r.1)
      && (r.0.Success? ==> forall k :: 0 <= k < |AccountsData| ==> NameCount(r.1, AccountsData[k].0) == 1)
      && (r.0.Success? ==> forall k :: 0 <= k < |CategoriesData| ==> Seeded(r.1, CategoriesData[k]))
  {
    var accounts := SeedAccounts(db, AccountsData, 0);
    SeedAccountsKeepsValid(db, AccountsData, 0);
    if accounts.0.Success? {
      var r := SeedCatalogue(accounts.1, CategoriesData);
      SeedCatalogueKeepsValid(accounts.1, CategoriesData, 0);
      forall k | 0 <= k < |AccountsData| ensures NameCount(r.1, AccountsData[k].0) == 1 {
        SeedAccountsEstablishes(db, AccountsData, 0, k);
        assert r.1.accounts == accounts.1.accounts;
      }
      forall k | 0 <= k < |CategoriesData| ensures r.0.Success? ==> Seeded(r.1, CategoriesData[k]) {
        SeedCatalogueEstablishes(accounts.1, CategoriesData, 0, k);
      }
    }
  }

  /** On a database where no listed account name is shared and no two subcategories of
      one category share a name, the command does not raise. */
  lemma PopulateSucceeds(db: Db)
    requires Valid(db) && SubCategoryKeysDistinct(db.subcategories)
    requires forall k :: 0 <= k < |AccountsData| ==> NameCount(db, AccountsData[k].0) <= 1
    ensures Populate(db).0.Success?
  {
    AccountsDataDistinct();
    SeedAccountsSucceeds(db, AccountsData, 0);
    SeedAccountsKeepsValid(db, AccountsData, 0);
    SeedCatalogueSucceeds(SeedAccounts(db, AccountsData, 0).1, CategoriesData, 0);
  }

  /** Running the command a second time adds nothing. */
  lemma PopulateIdempotent(db: Db)
    requires Valid(db) && Populate(db).0.Success?
    ensures var db' := Populate(db).1; Populate(db') == (Success(()), db')
  {
    var db' := Populate(db).1;
    PopulateEstablishes(db);
    SeedAccountsOfKnown(db', AccountsData, 0);
    var accounts := SeedAccounts(db, AccountsData, 0);
    SeedAccountsKeepsValid(db, AccountsData, 0);
    SeedCatalogueIdempotent(accounts.1, CategoriesData);
  }

  /** Where none of the listed account names is taken, the accounts are created with
      their listed types, and they stay so to the end of the command. */
  lemma PopulateCreatesAccounts(db: Db, k: nat)
    requires Valid(db) && k < |AccountsData| && NameCount(db, AccountsData[k].0) == 0
    ensures var r := Populate(db);
      r.0.Success? ==> exists a :: a in r.1.accounts && a.name == AccountsData[k].0 && a.kind == AccountsData[k].1
  {
    AccountsDataDistinct();
    var accounts := SeedAccounts(db, AccountsData, 0);
    SeedAccountsCreatesWithKind(db, AccountsData, 0, k);
    if accounts.0.Success? {
      SeedAccountsKeepsValid(db, AccountsData, 0);
      SeedCatalogueKeepsValid(accounts.1, CategoriesData, 0);
      assert Populate(db).1.accounts == accounts.1.accounts;
    }
  }

  /** On an empty database the command does not raise and creates the seven accounts with
      their listed types. */
  lemma PopulateOnEmpty(k: nat)
    requires k < |AccountsData|
    ensures var r := Populate(EmptyDb);
      r.0.Success? && exists a :: a in r.1.accounts && a.name == AccountsData[k].0 && a.kind == AccountsData[k].1
  {
    EmptyDbIsValid();
    assert NameCount(EmptyDb, AccountsData[k].0) == 0;
    PopulateSucceeds(EmptyDb);
    PopulateCreatesAccounts(EmptyDb, k);
  }

  // ---------------------------------------------------------------- the methods

  /** The accounts loop of `handle()`. */
  method SeedAccountsInto(store: Store, data: seq<(string, AccountType)>) returns (r: Result<(), DbError>)
    requires store.Valid()
    modifies store
    ensures store.Valid()
    ensures (r, store.State()) == SeedAccounts(old(store.State()), data, 0)
  {
    ghost var total := SeedAccounts(store.State(), data, 0);
    var i := 0;
    while i < |data|
      invariant 0 <= i <= |data|
      invariant store.Valid()
      invariant SeedAccounts(store.State(), data, i) == total
    {
      var (name, kind) := data[i];
      var got := store.GetOrCreateAccount(name, kind);
      if got.Failure? {
        return Failure(got.error);
      }
      i := i + 1;
    }
    return Success(());
  }

  method Handle(store: Store) returns (r: Result<(), DbError>)
    requires store.Valid()
    modifies store
    ensures store.Valid()
    ensures (r, store.State()) == Populate(old(store.State()))
  {
    r := SeedAccountsInto(store, AccountsData);
    if r.Failure? {
      return r;
    }
    r := SeedCatalogueInto(store, CategoriesData);
  }
}
