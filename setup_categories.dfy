/**
 * Seeding the category catalogue (orcamento_2026/core/management/commands/setup_categories.py):
 * every entry's category is fetched or created by name, and each of its
 * subcategory names is then fetched or created under that category.
 * `popular.py` runs the same loop over a fixed catalogue.
 */
module SetupCategories {
  import opened Wrappers
  import opened Seqs
  import opened Models
  import opened Database

  /** One entry of `categories.json`: `{"category": ..., "subcategories": [...]}`. */
  datatype Entry = Entry(category: string, subcategories: seq<string>)

  /** `db'` is `db` with rows appended to the category and subcategory tables and nothing else changed. */
  predicate Grows(db: Db, db': Db)
  {
    && db' == db.(categories := db'.categories, subcategories := db'.subcategories)
    && |db.categories| <= |db'.categories| && db'.categories[..|db.categories|] == db.categories
    && |db.subcategories| <= |db'.subcategories| && db'.subcategories[..|db.subcategories|] == db.subcategories
  }

  lemma GrowsTransitive(a: Db, b: Db, c: Db)
    requires Grows(a, b) && Grows(b, c)
    ensures Grows(a, c)
  {
    assert c.categories[..|a.categories|] == c.categories[..|b.categories|][..|a.categories|];
    assert c.subcategories[..|a.subcategories|] == c.subcategories[..|b.subcategories|][..|a.subcategories|];
  }

  // ---------------------------------------------------------------- one run

  /** `SubCategory.objects.get_or_create(name=name, category=category)`, keeping only
      whether it raised. */
  function SubcategoryStep(db: Db, category: Id, name: string): (Result<(), DbError>, Db)
  {
    var got := GetOrCreateSubCategory(db, name, category);
    (if got.0.Failure? then Failure(got.0.error) else Success(()), got.1)
  }

  /** `Category.objects.get_or_create(name=name)`, keeping the id of the category. */
  function CategoryStep(db: Db, name: string): (Result<Id, DbError>, Db)
  {
    var got := GetOrCreateCategory(db, name);
    (if got.0.Failure? then Failure(got.0.error) else Success(got.0.value.0.id), got.1)
  }

  /** The inner loop from name `j` on: `get_or_create` of each subcategory name under
      `category`, stopping at the first error, which is raised out of the command. */
  function SeedSubcategories(db: Db, category: Id, names: seq<string>, j: nat): (Result<(), DbError>, Db)
    requires j <= |names|
    decreases |names| - j
  {
    if j == |names| then (Success(()), db)
    else
      var step := SubcategoryStep(db, category, names[j]);
      if step.0.Failure? then step else SeedSubcategories(step.1, category, names, j + 1)
  }

  /** One pass of the outer loop. */
  function SeedEntry(db: Db, entry: Entry): (Result<(), DbError>, Db)
  {
    var got := CategoryStep(db, entry.category);
    if got.0.Failure? then (Failure(got.0.error), got.1)
    else SeedSubcategories(got.1, got.0.value, entry.subcategories, 0)
  }

  /** The outer loop from entry `i` on, stopping at the first error. */
  function SeedCatalogueFrom(db: Db, entries: seq<Entry>, i: nat): (Result<(), DbError>, Db)
    requires i <= |entries|
    decreases |entries| - i
  {
    if i == |entries| then (Success(()), db)
    else
      var step := SeedEntry(db, entries[i]);
      if step.0.Failure? then step else SeedCatalogueFrom(step.1, entries, i + 1)
  }

  /** The whole outer loop. */
  function SeedCatalogue(db: Db, entries: seq<Entry>): (Result<(), DbError>, Db)
  {
    SeedCatalogueFrom(db, entries, 0)
  }

  // ---------------------------------------------------------------- constraints and growth

  lemma SubcategoryStepKeepsValid(db: Db, category: Id, name: string)
    requires Valid(db) && category < |db.categories|
    ensures var r := SubcategoryStep(db, category, name);
      Valid(r.1) && Grows(db, r.1) && r.1.categories == db.categories
  {
    var r := SubcategoryStep(db, category, name);
    assert r.1.subcategories[..|db.subcategories|] == db.subcategories;
  }

  lemma {:induction false} SeedSubcategoriesKeepsValid(db: Db, category: Id, names: seq<string>, j: nat)
    requires Valid(db) && category < |db.categories| && j <= |names|
    ensures var r := SeedSubcategories(db, category, names, j);
      Valid(r.1) && Grows(db, r.1) && r.1.categories == db.categories
    decreases |names| - j
  {
    if j < |names| {
      var step := SubcategoryStep(db, category, names[j]);
      SubcategoryStepKeepsValid(db, category, names[j]);
      if step.0.Success? {
        SeedSubcategoriesKeepsValid(step.1, category, names, j + 1);
        GrowsTransitive(db, step.1, SeedSubcategories(step.1, category, names, j + 1).1);
      }
    }
  }

  /** A named category is found or created, and its id indexes the category table. */
  lemma CategoryStepKeepsValid(db: Db, name: string)
    requires Valid(db)
    ensures var r := CategoryStep(db, name);
      Valid(r.1) && Grows(db, r.1) &&
      (r.0.Success? ==> r.0.value < |r.1.categories| && r.1.categories[r.0.value].name == name)
  {
    var got := GetOrCreateCategory(db, name);
    var r := CategoryStep(db, name);
    assert r.1.categories[..|db.categories|] == db.categories;
    if got.0.Success? {
      var c := got.0.value.0;
      var i :| 0 <= i < |got.1.categories| && got.1.categories[i] == c;
    }
  }

  lemma SeedEntryKeepsValid(db: Db, entry: Entry)
    requires Valid(db)
    ensures var r := SeedEntry(db, entry); Valid(r.1) && Grows(db, r.1)
  {
    var got := CategoryStep(db, entry.category);
    CategoryStepKeepsValid(db, entry.category);
    if got.0.Success? {
      SeedSubcategoriesKeepsValid(got.1, got.0.value, entry.subcategories, 0);
      GrowsTransitive(db, got.1, SeedEntry(db, entry).1);
    }
  }

  /** A run keeps the database's constraints and only appends categories and subcategories:
      rows already there, and every other table, are left as they were. */
  lemma {:induction false} SeedCatalogueKeepsValid(db: Db, entries: seq<Entry>, i: nat)
    requires Valid(db) && i <= |entries|
    ensures var r := SeedCatalogueFrom(db, entries, i); Valid(r.1) && Grows(db, r.1)
    decreases |entries| - i
  {
    if i < |entries| {
      var step := SeedEntry(db, entries[i]);
      SeedEntryKeepsValid(db, entries[i]);
      if step.0.Success? {
        SeedCatalogueKeepsValid(step.1, entries, i + 1);
        GrowsTransitive(db, step.1, SeedCatalogueFrom(step.1, entries, i + 1).1);
      }
    }
  }

  // ---------------------------------------------------------------- what a run leaves behind

  /** The entry's category exists by name, and each of its subcategory names exists
      exactly once under that category. */
  ghost predicate Seeded(db: Db, entry: Entry)
  {
    exists c :: 0 <= c < |db.categories| && db.categories[c].name == entry.category &&
      forall name :: name in entry.subcategories ==> Count(db.subcategories, SubCategoryKey(name, c)) == 1
  }

  /** A key found once stays found once, and a step that does not raise leaves its own key
      found once. */
  lemma SubcategoryStepCounts(db: Db, category: Id, name: string, n: string, c: Id)
    ensures var r := SubcategoryStep(db, category, name);
      && (Count(db.subcategories, SubCategoryKey(n, c)) == 1 ==> Count(r.1.subcategories, SubCategoryKey(n, c)) == 1)
      && (r.0.Success? ==> Count(r.1.subcategories, SubCategoryKey(name, category)) == 1)
      && r.1.categories == db.categories
  {
    var found := Filter(db.subcategories, SubCategoryKey(name, category));
    if |found| == 0 {
      var s := SubCategory(|db.subcategories|, category, name);
      FilterAppend(db.subcategories, s, SubCategoryKey(n, c));
      FilterAppend(db.subcategories, s, SubCategoryKey(name, category));
    }
  }

  lemma {:induction false} SeedSubcategoriesKeepCounts(db: Db, category: Id, names: seq<string>, j: nat, n: string, c: Id)
    requires j <= |names| && Count(db.subcategories, SubCategoryKey(n, c)) == 1
    ensures var r := SeedSubcategories(db, category, names, j);
      Count(r.1.subcategories, SubCategoryKey(n, c)) == 1 && r.1.categories == db.categories
    decreases |names| - j
  {
    if j < |names| {
      var step := SubcategoryStep(db, category, names[j]);
      SubcategoryStepCounts(db, category, names[j], n, c);
      if step.0.Success? {
        SeedSubcategoriesKeepCounts(step.1, category, names, j + 1, n, c);
      }
    }
  }

  /** A run of the inner loop that does not raise leaves each of its names found once. */
  lemma {:induction false} SeedSubcategoriesStores(db: Db, category: Id, names: seq<string>, j: nat, k: nat)
    requires j <= k < |names|
    ensures var r := SeedSubcategories(db, category, names, j);
      r.0.Success? ==> Count(r.1.subcategories, SubCategoryKey(names[k], category)) == 1
    decreases |names| - j
  {
    var step := SubcategoryStep(db, category, names[j]);
    SubcategoryStepCounts(db, category, names[j], names[k], category);
    if step.0.Success? {
      if k == j {
        SeedSubcategoriesKeepCounts(step.1, category, names, j + 1, names[k], category);
      } else {
        SeedSubcategoriesStores(step.1, category, names, j + 1, k);
      }
    }
  }

  /** A successful pass leaves its entry seeded. */
  lemma SeedEntryEstablishes(db: Db, entry: Entry)
    requires Valid(db)
    ensures var r := SeedEntry(db, entry); r.0.Success? ==> Seeded(r.1, entry)
  {
    var got := CategoryStep(db, entry.category);
    var r := SeedEntry(db, entry);
    CategoryStepKeepsValid(db, entry.category);
    if r.0.Success? {
      var c := got.0.value;
      SeedSubcategoriesKeepsValid(got.1, c, entry.subcategories, 0);
      forall name | name in entry.subcategories
        ensures Count(r.1.subcategories, SubCategoryKey(name, c)) == 1
      {
        var k :| 0 <= k < |entry.subcategories| && entry.subcategories[k] == name;
        SeedSubcategoriesStores(got.1, c, entry.subcategories, 0, k);
      }
      assert r.1.categories[c].name == entry.category;
    }
  }

  /** Any pass keeps what was seeded. */
  lemma SeedEntryKeepsSeeded(db: Db, entry: Entry, other: Entry)
    requires Valid(db) && Seeded(db, other)
    ensures Seeded(SeedEntry(db, entry).1, other)
  {
    var got := CategoryStep(db, entry.category);
    var r := SeedEntry(db, entry);
    SeedEntryKeepsValid(db, entry);
    var c :| 0 <= c < |db.categories| && db.categories[c].name == other.category &&
      forall name :: name in other.subcategories ==> Count(db.subcategories, SubCategoryKey(name, c)) == 1;
    assert r.1.categories[c] == r.1.categories[..|db.categories|][c];
    forall name | name in other.subcategories
      ensures Count(r.1.subcategories, SubCategoryKey(name, c)) == 1
    {
      if got.0.Failure? {
      } else {
        assert Count(got.1.subcategories, SubCategoryKey(name, c)) == 1;
        SeedSubcategoriesKeepCounts(got.1, got.0.value, entry.subcategories, 0, name, c);
      }
    }
  }

  /** An entry already seeded is fetched, not created. */
  lemma SeedEntryOfSeeded(db: Db, entry: Entry)
    requires Valid(db) && Seeded(db, entry)
    ensures SeedEntry(db, entry) == (Success(()), db)
  {
    var c :| 0 <= c < |db.categories| && db.categories[c].name == entry.category &&
      forall name :: name in entry.subcategories ==> Count(db.subcategories, SubCategoryKey(name, c)) == 1;
    CategoryNamesUnique(db, entry.category);
    assert db.categories[c] in Filter(db.categories, CategoryNamed(entry.category));
    SeedSubcategoriesOfKnown(db, c, entry.subcategories, 0);
  }

  /** Names already found once under the category are fetched, not created. */
  lemma {:induction false} SeedSubcategoriesOfKnown(db: Db, category: Id, names: seq<string>, j: nat)
    requires j <= |names|
    requires forall name :: name in names ==> Count(db.subcategories, SubCategoryKey(name, category)) == 1
    ensures SeedSubcategories(db, category, names, j) == (Success(()), db)
    decreases |names| - j
  {
    if j < |names| {
      assert names[j] in names;
      SeedSubcategoriesOfKnown(db, category, names, j + 1);
    }
  }

  /** Any run keeps what was seeded. */
  lemma {:induction false} SeedCatalogueKeepsSeeded(db: Db, entries: seq<Entry>, i: nat, other: Entry)
    requires Valid(db) && i <= |entries| && Seeded(db, other)
    ensures Seeded(SeedCatalogueFrom(db, entries, i).1, other)
    decreases |entries| - i
  {
    if i < |entries| {
      var step := SeedEntry(db, entries[i]);
      SeedEntryKeepsSeeded(db, entries[i], other);
      if step.0.Success? {
        SeedEntryKeepsValid(db, entries[i]);
        SeedCatalogueKeepsSeeded(step.1, entries, i + 1, other);
      }
    }
  }

  /** After a run without error every entry is seeded. */
  lemma {:induction false} SeedCatalogueEstablishes(db: Db, entries: seq<Entry>, i: nat, k: nat)
    requires Valid(db) && i <= k < |entries|
    ensures var r := SeedCatalogueFrom(db, entries, i); r.0.Success? ==> Seeded(r.1, entries[k])
    decreases |entries| - i
  {
    var step := SeedEntry(db, entries[i]);
    if step.0.Success? {
      SeedEntryKeepsValid(db, entries[i]);
      if k == i {
        SeedEntryEstablishes(db, entries[i]);
        SeedCatalogueKeepsSeeded(step.1, entries, i + 1, entries[k]);
      } else {
        SeedCatalogueEstablishes(step.1, entries, i + 1, k);
      }
    }
  }

  /** A catalogue already seeded is left as it is. */
  lemma {:induction false} SeedCatalogueOfSeeded(db: Db, entries: seq<Entry>, i: nat)
    requires Valid(db) && i <= |entries| && forall k :: i <= k < |entries| ==> Seeded(db, entries[k])
    ensures SeedCatalogueFrom(db, entries, i) == (Success(()), db)
    decreases |entries| - i
  {
    if i < |entries| {
      SeedEntryOfSeeded(db, entries[i]);
      SeedCatalogueOfSeeded(db, entries, i + 1);
    }
  }

  /** Running the command a second time on the same data adds nothing. */
  lemma SeedCatalogueIdempotent(db: Db, entries: seq<Entry>)
    requires Valid(db) && SeedCatalogue(db, entries).0.Success?
    ensures var db' := SeedCatalogue(db, entries).1;
      SeedCatalogue(db', entries) == (Success(()), db')
  {
    var db' := SeedCatalogue(db, entries).1;
    SeedCatalogueKeepsValid(db, entries, 0);
    forall k | 0 <= k < |entries| ensures Seeded(db', entries[k]) {
      SeedCatalogueEstablishes(db, entries, 0, k);
    }
    SeedCatalogueOfSeeded(db', entries, 0);
  }

  // ---------------------------------------------------------------- when a run raises

  /** No two subcategories share a name inside one category. Nothing in the schema demands it,
      so `get_or_create` can meet two matches and raise `MultipleObjectsReturned`. */
  ghost predicate SubCategoryKeysDistinct(subcategories: seq<SubCategory>)
  {
    forall i, j :: 0 <= i < j < |subcategories| ==>
      !(subcategories[i].name == subcategories[j].name && subcategories[i].category == subcategories[j].category)
  }

  lemma SubcategoryStepKeepsKeysDistinct(db: Db, category: Id, name: string)
    requires SubCategoryKeysDistinct(db.subcategories)
    ensures var r := SubcategoryStep(db, category, name);
      r.0.Success? && SubCategoryKeysDistinct(r.1.subcategories) && r.1.categories == db.categories
  {
    FilterUnique(db.subcategories, SubCategoryKey(name, category));
    var found := Filter(db.subcategories, SubCategoryKey(name, category));
    if |found| == 0 {
      forall i | 0 <= i < |db.subcategories|
        ensures !(db.subcategories[i].name == name && db.subcategories[i].category == category)
      {
        assert db.subcategories[i] !in found;
      }
    }
  }

  lemma {:induction false} SeedSubcategoriesSucceeds(db: Db, category: Id, names: seq<string>, j: nat)
    requires j <= |names| && SubCategoryKeysDistinct(db.subcategories)
    ensures var r := SeedSubcategories(db, category, names, j);
      r.0.Success? && SubCategoryKeysDistinct(r.1.subcategories)
    decreases |names| - j
  {
    if j < |names| {
      SubcategoryStepKeepsKeysDistinct(db, category, names[j]);
      SeedSubcategoriesSucceeds(SubcategoryStep(db, category, names[j]).1, category, names, j + 1);
    }
  }

  /** Categories are unique by name, so a run raises only where two subcategories of one
      category already share a name. */
  lemma {:induction false} SeedCatalogueSucceeds(db: Db, entries: seq<Entry>, i: nat)
    requires Valid(db) && i <= |entries| && SubCategoryKeysDistinct(db.subcategories)
    ensures var r := SeedCatalogueFrom(db, entries, i);
      r.0.Success? && SubCategoryKeysDistinct(r.1.subcategories)
    decreases |entries| - i
  {
    if i < |entries| {
      var entry := entries[i];
      CategoryNamesUnique(db, entry.category);
      var got := CategoryStep(db, entry.category);
      SeedSubcategoriesSucceeds(got.1, got.0.value, entry.subcategories, 0);
      SeedEntryKeepsValid(db, entry);
      SeedCatalogueSucceeds(SeedEntry(db, entry).1, entries, i + 1);
    }
  }

  // ---------------------------------------------------------------- the command

  /** The inner loop of `handle()`: each subcategory name under one category. */
  method SeedSubcategoriesInto(store: Store, category: Id, names: seq<string>) returns (r: Result<(), DbError>)
    requires store.Valid() && category < |store.categories|
    modifies store
    ensures store.Valid()
    ensures (r, store.State()) == SeedSubcategories(old(store.State()), category, names, 0)
  {
    ghost var total := SeedSubcategories(store.State(), category, names, 0);
    var j := 0;
    while j < |names|
      invariant 0 <= j <= |names|
      invariant store.Valid() && category < |store.categories|
      invariant SeedSubcategories(store.State(), category, names, j) == total
    {
      var sub := store.GetOrCreateSubCategory(names[j], category);
      if sub.Failure? {
        return Failure(sub.error);
      }
      j := j + 1;
    }
    return Success(());
  }

  /** The outer loop of `handle()`: each entry's category, then its subcategory names. */
  method SeedCatalogueInto(store: Store, entries: seq<Entry>) returns (r: Result<(), DbError>)
    requires store.Valid()
    modifies store
    ensures store.Valid()
    ensures (r, store.State()) == SeedCatalogue(old(store.State()), entries)
  {
    ghost var total := SeedCatalogue(store.State(), entries);
    var i := 0;
    while i < |entries|
      invariant 0 <= i <= |entries|
      invariant store.Valid()
      invariant SeedCatalogueFrom(store.State(), entries, i) == total
    {
      CategoryStepKeepsValid(store.State(), entries[i].category);
      var got := store.GetOrCreateCategory(entries[i].category);
      if got.Failure? {
        return Failure(got.error);
      }
      var sub := SeedSubcategoriesInto(store, got.value.0.id, entries[i].subcategories);
      if sub.Failure? {
        return sub;
      }
      i := i + 1;
    }
    return Success(());
  }

  /** `handle()`, with `data` the parsed `categories.json`, or `None` where the file does
      not exist; an error is one the command raises. */
  method Handle(store: Store, data: Option<seq<Entry>>) returns (r: Result<(), DbError>)
    requires store.Valid()
    modifies store
    ensures store.Valid()
    ensures data.None? ==> r == Success(()) && store.State() == old(store.State())
    ensures data.Some? ==> (r, store.State()) == SeedCatalogue(old(store.State()), data.value)
  {
    if data.None? {
      return Success(());
    }
    r := SeedCatalogueInto(store, data.value);
  }
}
