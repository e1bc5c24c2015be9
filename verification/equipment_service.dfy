/** The equipment catalogue of `equipmentService.js`: the mock `getAll`
    filter and `getById`. The catalogue is never changed by these reads. */
module EquipmentService {
  import opened Results
  import opened Records
  import opened Text
  import opened Seqs

  type Catalogue = seq<Equipment>

  const NotFound := "Equipment not found"

  /** The `available_only` filter as the page may send it: absent, a boolean,
      or the text of a query parameter. */
  datatype AvailableFlag = Unset | BoolFlag(b: bool) | TextFlag(text: string)

  /** The filters `getAll` reads; an empty text is no filter, as the service
      skips falsy filters. */
  datatype Filters = Filters(category: string, condition: string, availableOnly: AvailableFlag, search: string)

  const NoFilters := Filters("", "", Unset, "")

  /** `available_only === 'true' || available_only === true`. */
  predicate AvailableOnly(flag: AvailableFlag) {
    flag == BoolFlag(true) || flag == TextFlag("true")
  }

  predicate CategoryMatches(text: string, item: Equipment) {
    Includes(Lower(item.category), Lower(text))
  }

  predicate ConditionMatches(condition: string, item: Equipment) {
    item.condition == condition
  }

  predicate InStock(item: Equipment) {
    item.availableQuantity > 0
  }

  predicate SearchMatches(text: string, item: Equipment) {
    Includes(Lower(item.name), Lower(text)) || Includes(Lower(item.description), Lower(text))
  }

  /** The reference meaning of a filter set: an item is listed exactly when
      it passes every filter that is switched on. */
  predicate Admits(filters: Filters, item: Equipment) {
    && (filters.category != "" ==> CategoryMatches(filters.category, item))
    && (filters.condition != "" ==> ConditionMatches(filters.condition, item))
    && (AvailableOnly(filters.availableOnly) ==> InStock(item))
    && (filters.search != "" ==> SearchMatches(filters.search, item))
  }

  predicate NoneActive(filters: Filters) {
    filters.category == "" && filters.condition == "" && !AvailableOnly(filters.availableOnly) && filters.search == ""
  }

  /** Each filter step as a test on one item, true for every item when
      the step is switched off. */
  function CategoryTest(text: string): Equipment -> bool {
    item => text != "" ==> CategoryMatches(text, item)
  }

  function ConditionTest(condition: string): Equipment -> bool {
    item => condition != "" ==> ConditionMatches(condition, item)
  }

  function StockTest(flag: AvailableFlag): Equipment -> bool {
    item => AvailableOnly(flag) ==> InStock(item)
  }

  function SearchTest(text: string): Equipment -> bool {
    item => text != "" ==> SearchMatches(text, item)
  }

  function AdmitsTest(filters: Filters): Equipment -> bool {
    item => Admits(filters, item)
  }

  function ByCategory(items: Catalogue, text: string): Catalogue {
    if text != "" then Filter(items, CategoryTest(text)) else items
  }

  function ByCondition(items: Catalogue, condition: string): Catalogue {
    if condition != "" then Filter(items, ConditionTest(condition)) else items
  }

  function ByStock(items: Catalogue, flag: AvailableFlag): Catalogue {
    if AvailableOnly(flag) then Filter(items, StockTest(flag)) else items
  }

  function BySearch(items: Catalogue, text: string): Catalogue {
    if text != "" then Filter(items, SearchTest(text)) else items
  }

  /** `getAll(filters)`: category, condition, stock and search filters
      applied one after another, each only when set. */
  function GetAll(catalogue: Catalogue, filters: Filters): (r: Catalogue)
    ensures forall x :: x in r <==> x in catalogue && Admits(filters, x)
    ensures NoneActive(filters) ==> r == catalogue
  {
    BySearch(ByStock(ByCondition(ByCategory(catalogue, filters.category), filters.condition), filters.availableOnly), filters.search)
  }

  /** A switched-off step is a filter by an always-true test. */
  lemma StepsAreFilters(items: Catalogue, filters: Filters)
    ensures ByCategory(items, filters.category) == Filter(items, CategoryTest(filters.category))
    ensures ByCondition(items, filters.condition) == Filter(items, ConditionTest(filters.condition))
    ensures ByStock(items, filters.availableOnly) == Filter(items, StockTest(filters.availableOnly))
    ensures BySearch(items, filters.search) == Filter(items, SearchTest(filters.search))
  {
    if filters.category == "" { FilterKeepsAll(items, CategoryTest(filters.category)); }
    if filters.condition == "" { FilterKeepsAll(items, ConditionTest(filters.condition)); }
    if !AvailableOnly(filters.availableOnly) { FilterKeepsAll(items, StockTest(filters.availableOnly)); }
    if filters.search == "" { FilterKeepsAll(items, SearchTest(filters.search)); }
  }

  /** `getAll` is the four step tests applied as filters, switched-off
      steps included. */
  lemma GetAllIsFourFilters(catalogue: Catalogue, filters: Filters)
    ensures GetAll(catalogue, filters)
      == Filter(Filter(Filter(Filter(catalogue, CategoryTest(filters.category)), ConditionTest(filters.condition)),
                       StockTest(filters.availableOnly)), SearchTest(filters.search))
  {
    var s1 := ByCategory(catalogue, filters.category);
    var s2 := ByCondition(s1, filters.condition);
    var s3 := ByStock(s2, filters.availableOnly);
    StepsAreFilters(catalogue, filters);
    StepsAreFilters(s1, filters);
    StepsAreFilters(s2, filters);
    StepsAreFilters(s3, filters);
  }

  /** The four steps together are one filter by `Admits`; hence the result
      is an order-preserving subsequence of the catalogue. */
  lemma GetAllIsOneFilter(catalogue: Catalogue, filters: Filters)
    ensures GetAll(catalogue, filters) == Filter(catalogue, AdmitsTest(filters))
    ensures IsSubsequence(GetAll(catalogue, filters), catalogue)
    ensures forall x :: multiset(GetAll(catalogue, filters))[x] == if Admits(filters, x) then multiset(catalogue)[x] else 0
  {
    var t1, t2 := CategoryTest(filters.category), ConditionTest(filters.condition);
    var t3, t4 := StockTest(filters.availableOnly), SearchTest(filters.search);
    GetAllIsFourFilters(catalogue, filters);
    FilterFour(catalogue, t1, t2, t3, t4);
    FilterAgree(catalogue, Both(Both(Both(t1, t2), t3), t4), AdmitsTest(filters));
    FilterIsSubsequence(catalogue, AdmitsTest(filters));
  }

  /** The steps in the opposite order are the four step tests applied as
      filters in that order. */
  lemma ReversedStepsAreFourFilters(catalogue: Catalogue, filters: Filters)
    ensures ByCategory(ByCondition(ByStock(BySearch(catalogue, filters.search), filters.availableOnly), filters.condition), filters.category)
      == Filter(Filter(Filter(Filter(catalogue, SearchTest(filters.search)), StockTest(filters.availableOnly)),
                       ConditionTest(filters.condition)), CategoryTest(filters.category))
  {
    var s1 := BySearch(catalogue, filters.search);
    var s2 := ByStock(s1, filters.availableOnly);
    var s3 := ByCondition(s2, filters.condition);
    StepsAreFilters(catalogue, filters);
    StepsAreFilters(s1, filters);
    StepsAreFilters(s2, filters);
    StepsAreFilters(s3, filters);
  }

  /** Taking the steps in the opposite order, search first and category
      last, lists the same items in the same order: the result does not
      depend on the order of the filter steps. */
  lemma GetAllStepOrderIrrelevant(catalogue: Catalogue, filters: Filters)
    ensures ByCategory(ByCondition(ByStock(BySearch(catalogue, filters.search), filters.availableOnly), filters.condition), filters.category)
      == GetAll(catalogue, filters)
  {
    var t1, t2 := CategoryTest(filters.category), ConditionTest(filters.condition);
    var t3, t4 := StockTest(filters.availableOnly), SearchTest(filters.search);
    ReversedStepsAreFourFilters(catalogue, filters);
    FilterFour(catalogue, t4, t3, t2, t1);
    FilterAgree(catalogue, Both(Both(Both(t4, t3), t2), t1), AdmitsTest(filters));
    GetAllIsOneFilter(catalogue, filters);
  }

  /** Filtering a filtered list again with the same filters changes nothing. */
  lemma GetAllIdempotent(catalogue: Catalogue, filters: Filters)
    ensures GetAll(GetAll(catalogue, filters), filters) == GetAll(catalogue, filters)
  {
    GetAllIsOneFilter(catalogue, filters);
    GetAllIsOneFilter(GetAll(catalogue, filters), filters);
    FilterIdempotent(catalogue, AdmitsTest(filters));
  }

  /** With no filter set, `getAll` lists the whole catalogue in order. */
  lemma GetAllUnfiltered(catalogue: Catalogue)
    ensures GetAll(catalogue, NoFilters) == catalogue
  {
  }

  /** The category and search filters are case-insensitive substring
      tests: the lower-cased text occurs somewhere in the lower-cased
      field. */
  lemma MatchesAreSubstrings(text: string, item: Equipment)
    ensures CategoryMatches(text, item) <==> exists i :: OccursAt(Lower(item.category), Lower(text), i)
    ensures SearchMatches(text, item) <==>
      || (exists i :: OccursAt(Lower(item.name), Lower(text), i))
      || (exists i :: OccursAt(Lower(item.description), Lower(text), i))
  {
    IncludesIffOccurs(Lower(item.category), Lower(text));
    IncludesIffOccurs(Lower(item.name), Lower(text));
    IncludesIffOccurs(Lower(item.description), Lower(text));
  }

  /** In particular the category filter is not an equality: "equipment"
      selects every category containing that word. */
  lemma CategoryIsSubstring(item: Equipment)
    requires item.category == "Lab Equipment"
    ensures CategoryMatches("equipment", item)
  {
    var lowered := Lower(item.category);
    assert lowered[4..13] == Lower("Equipment") by {
      assert item.category[4..13] == "Equipment";
    }
    assert Lower("equipment") == "equipment" by {
      LowerOfLowerCase("equipment");
    }
    assert Lower("Equipment") == "equipment" by {
      assert LowerChar('E') == 'e';
      LowerOfLowerCase("quipment");
      assert "Equipment" == ['E'] + "quipment";
    }
    assert OccursAt(lowered, Lower("equipment"), 4);
    MatchesAreSubstrings("equipment", item);
  }

  /** The test `find` applies: the item carries `id`. */
  function IdTest(id: int): Equipment -> bool {
    (item: Equipment) => item.id == id
  }

  /** `getById(id)`: the first item with `id`, or "Equipment not found". */
  function GetById(catalogue: Catalogue, id: int): (r: Result<Equipment>)
    ensures r.Err? <==> forall j :: 0 <= j < |catalogue| ==> catalogue[j].id != id
    ensures r.Err? ==> r.message == NotFound
    ensures r.Ok? ==> r.value in catalogue && r.value.id == id
    ensures forall i :: IsFirst(catalogue, i, IdTest(id)) ==> r == Ok(catalogue[i])
  {
    match FindIndex(catalogue, IdTest(id))
    case None => Err(NotFound)
    case Some(i) => Ok(catalogue[i])
  }
}
