/**
 * Case-insensitive lookups (orcamento_2026/core/services/utils/db_utils.py):
 * the names typed by a user or returned by the language model are matched to
 * stored names after lower-casing both sides, accents included.
 */
module DbUtils {
  import opened Wrappers
  import opened Text
  import opened Seqs
  import opened Models

  /** `Lower(field) == value.lower()`. */
  function SameIgnoringCase<T>(field: T -> string, value: string): T -> bool
  {
    (x: T) => Lower(field(x)) == Lower(value)
  }

  /** `case_insensitive_lookup(queryset, field_name, value)`. */
  function CaseInsensitiveLookup<T(!new)>(qs: seq<T>, field: T -> string, value: Option<string>): (r: seq<T>)
    ensures value.None? ==> r == []
    ensures value.Some? ==> forall x :: x in r <==> x in qs && Lower(field(x)) == Lower(value.value)
    ensures IsSubsequence(r, qs)
  {
    match value
    case None => []
    case Some(v) =>
      FilterIsSubsequence(qs, SameIgnoringCase(field, v));
      Filter(qs, SameIgnoringCase(field, v))
  }

  /** The lookup depends on the value only through its lower case. */
  lemma LookupIgnoresCase<T(!new)>(qs: seq<T>, field: T -> string, a: string, b: string)
    requires Lower(a) == Lower(b)
    ensures CaseInsensitiveLookup(qs, field, Some(a)) == CaseInsensitiveLookup(qs, field, Some(b))
  {
    FilterAgree(qs, SameIgnoringCase(field, a), SameIgnoringCase(field, b));
  }

  predicate AllHold<T>(filters: seq<T -> bool>, x: T)
  {
    forall k :: 0 <= k < |filters| ==> filters[k](x)
  }

  function AllOf<T>(filters: seq<T -> bool>): T -> bool
  {
    (x: T) => AllHold(filters, x)
  }

  /** `for key, val in kwargs.items(): filtered = filtered.filter(**{key: val})`. */
  function ApplyFilters<T(!new)>(qs: seq<T>, filters: seq<T -> bool>): (r: seq<T>)
    ensures forall x :: x in r <==> x in qs && AllHold(filters, x)
    decreases |filters|
  {
    if filters == [] then qs
    else
      var r := ApplyFilters(Filter(qs, filters[0]), filters[1..]);
      assert forall x :: AllHold(filters, x) <==> filters[0](x) && AllHold(filters[1..], x) by {
        forall x ensures AllHold(filters, x) <==> filters[0](x) && AllHold(filters[1..], x) {
          assert forall k :: 1 <= k < |filters| ==> filters[k] == filters[1..][k - 1];
        }
      }
      r
  }

  /** Filtering one condition after another keeps the rows, in order, that meet all of them. */
  lemma {:induction false} ApplyFiltersIsOneFilter<T(!new)>(qs: seq<T>, filters: seq<T -> bool>)
    ensures ApplyFilters(qs, filters) == Filter(qs, AllOf(filters))
    decreases |filters|
  {
    if filters == [] {
      FilterTrue(qs, AllOf(filters));
    } else {
      var rest := filters[1..];
      ApplyFiltersIsOneFilter(Filter(qs, filters[0]), rest);
      forall x ensures AllOf(filters)(x) == (filters[0](x) && AllOf(rest)(x)) {
        assert forall k :: 1 <= k < |filters| ==> filters[k] == rest[k - 1];
      }
      FilterFilter(qs, filters[0], AllOf(rest), AllOf(filters));
    }
  }

  /** The row `case_insensitive_get` looks for: the name matches and every extra filter holds. */
  predicate Selected<T>(field: T -> string, value: string, filters: seq<T -> bool>, x: T)
  {
    Lower(field(x)) == Lower(value) && AllHold(filters, x)
  }

  function SelectedBy<T>(field: T -> string, value: string, filters: seq<T -> bool>): T -> bool
  {
    (x: T) => Selected(field, value, filters, x)
  }

  /** `case_insensitive_get(queryset, field_name, value, **kwargs)`: the first
      selected row in primary-key order, as `.first()` returns it, or `None`. */
  function CaseInsensitiveGet<T(!new)>(qs: seq<T>, field: T -> string, value: Option<string>,
                                       filters: seq<T -> bool>): (r: Option<T>)
    ensures value.None? ==> r.None?
    ensures r.None? <==> value.None? || forall i :: 0 <= i < |qs| ==> !Selected(field, value.value, filters, qs[i])
    ensures r.Some? ==> exists i :: 0 <= i < |qs| && qs[i] == r.value &&
                          Selected(field, value.value, filters, qs[i]) &&
                          forall j :: 0 <= j < i ==> !Selected(field, value.value, filters, qs[j])
  {
    match value
    case None => None
    case Some(v) =>
      var found := ApplyFilters(CaseInsensitiveLookup(qs, field, value), filters);
      var sel := SelectedBy(field, v, filters);
      assert found == Filter(qs, sel) by {
        ApplyFiltersIsOneFilter(Filter(qs, SameIgnoringCase(field, v)), filters);
        FilterFilter(qs, SameIgnoringCase(field, v), AllOf(filters), sel);
      }
      if found == [] then
        assert forall i :: 0 <= i < |qs| ==> !sel(qs[i]) by {
          assert forall i :: 0 <= i < |qs| ==> qs[i] in qs;
        }
        None
      else
        FilterFirst(qs, sel);
        Some(found[0])
  }

  /** When every row that matches the name also meets the filters, just that row is returned. */
  lemma GetFindsTheOnlyMatch<T(!new)>(qs: seq<T>, field: T -> string, value: string,
                                      filters: seq<T -> bool>, i: nat)
    requires i < |qs| && Selected(field, value, filters, qs[i])
    requires forall j :: 0 <= j < |qs| && j != i ==> !Selected(field, value, filters, qs[j])
    ensures CaseInsensitiveGet(qs, field, Some(value), filters) == Some(qs[i])
  {
  }

  lemma AccentedCapitalsMatch()
    ensures Lower("ALIMENTAÇÃO") == Lower("Alimentação") == Lower("alimentação") == Lower("AlImEnTaÇÃO")
  {
  }

  /** `case_insensitive_get(Category.objects.all(), "name", name)`. */
  function FindCategory(db: Db, name: Option<string>): (r: Option<Category>)
    ensures r.None? <==> (name.None? ||
      forall i :: 0 <= i < |db.categories| ==> Lower(db.categories[i].name) != Lower(name.value))
    ensures r.Some? ==> name.Some? && r.value in db.categories && Lower(r.value.name) == Lower(name.value)
  {
    var r := CaseInsensitiveGet(db.categories, CategoryName, name, []);
    assert forall c, v :: Selected(CategoryName, v, [], c) <==> Lower(c.name) == Lower(v);
    r
  }

  /** `Category.objects.all()` has no ordering of its own, so it is read in id order:
      of several categories whose names differ only in case, the one with the lowest id is found. */
  lemma FindCategoryIsFirst(db: Db, name: string, i: nat)
    requires i < |db.categories| && Lower(db.categories[i].name) == Lower(name)
    requires forall j :: 0 <= j < i ==> Lower(db.categories[j].name) != Lower(name)
    ensures FindCategory(db, Some(name)) == Some(db.categories[i])
  {
    assert forall c, v :: Selected(CategoryName, v, [], c) <==> Lower(c.name) == Lower(v);
  }

  /** `category.subcategories.all()`, equivalently `SubCategory.objects.filter(category=category)`. */
  function InCategory(category: Id): SubCategory -> bool
  {
    (s: SubCategory) => s.category == category
  }

  /** `case_insensitive_get(category.subcategories.all(), "name", name)`. */
  function FindSubCategory(db: Db, category: Id, name: Option<string>): (r: Option<SubCategory>)
    ensures r.None? <==> (name.None? || forall i :: 0 <= i < |db.subcategories| ==>
      !(db.subcategories[i].category == category && Lower(db.subcategories[i].name) == Lower(name.value)))
    ensures r.Some? ==> name.Some? && r.value in db.subcategories && r.value.category == category &&
                        Lower(r.value.name) == Lower(name.value)
  {
    var inCategory := Filter(db.subcategories, InCategory(category));
    var r := CaseInsensitiveGet(inCategory, SubCategoryName, name, []);
    assert forall s, v :: Selected(SubCategoryName, v, [], s) <==> Lower(s.name) == Lower(v);
    assert forall i :: 0 <= i < |db.subcategories| ==> db.subcategories[i] in db.subcategories;
    assert forall i :: 0 <= i < |inCategory| ==> inCategory[i] in inCategory;
    r
  }

  /** Subcategory names carry no uniqueness constraint, so a category may hold
      several whose names match ignoring case: the one with the lowest id is found. */
  lemma FindSubCategoryIsFirst(db: Db, category: Id, name: string, i: nat)
    requires i < |db.subcategories| && db.subcategories[i].category == category
    requires Lower(db.subcategories[i].name) == Lower(name)
    requires forall j :: 0 <= j < i ==>
      !(db.subcategories[j].category == category && Lower(db.subcategories[j].name) == Lower(name))
    ensures FindSubCategory(db, category, Some(name)) == Some(db.subcategories[i])
  {
    var inCategory := Filter(db.subcategories, InCategory(category));
    var sel := SelectedBy(SubCategoryName, name, []);
    var both := (s: SubCategory) => s.category == category && Lower(s.name) == Lower(name);
    assert forall s :: sel(s) <==> Lower(s.name) == Lower(name);
    FilterFilter(db.subcategories, InCategory(category), sel, both);
    FilterFirstIs(db.subcategories, both, i);
    var r := CaseInsensitiveGet(inCategory, SubCategoryName, Some(name), []);
    assert db.subcategories[i] in inCategory;
    var k :| 0 <= k < |inCategory| && inCategory[k] == r.value && Selected(SubCategoryName, name, [], inCategory[k]) &&
             forall j :: 0 <= j < k ==> !Selected(SubCategoryName, name, [], inCategory[j]);
    FilterFirstIs(inCategory, sel, k);
  }
}
