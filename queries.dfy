/**
 * Text search and criteria filtering of vehicles (server/storage.ts `searchInventoryItems`
 * and `filterInventoryItems`, in the in-memory and in the database store).
 */
module Queries {
  import opened Wrappers
  import opened Text
  import opened Seqs
  import opened Items

  /** The in-memory store's match: the lowercased query occurs in one of eight lowercased fields. */
  predicate MemMatches(q: string, item: Item) {
    var lq := Lower(q);
    Includes(Lower(item.category), lq) ||
    Includes(Lower(item.engineCapacity), lq) ||
    Includes(Lower(item.exteriorColor), lq) ||
    Includes(Lower(item.interiorColor), lq) ||
    Includes(Lower(item.status), lq) ||
    Includes(Lower(item.importType), lq) ||
    Includes(Lower(item.manufacturer), lq) ||
    Includes(Lower(item.chassisNumber), lq)
  }

  /**
   * The database store's match: the same eight fields, then the location, the notes when they
   * are a non-empty string, and the year's decimal text against the query as typed (not
   * lowercased).
   */
  predicate DbMatches(q: string, item: Item) {
    MemMatches(q, item) ||
    Includes(Lower(item.location), Lower(q)) ||
    (item.notes.Some? && item.notes.value != "" && Includes(Lower(item.notes.value), Lower(q))) ||
    Includes(IntToString(item.year), q)
  }

  /** `searchInventoryItems` of the in-memory store over its items in table order. */
  function SearchMem(items: seq<Item>, q: string): (r: seq<Item>)
    ensures forall x :: x in r <==> x in items && MemMatches(q, x)
  {
    Filter(items, x => MemMatches(q, x))
  }

  /** `searchInventoryItems` of the database store over the rows read. */
  function SearchDb(items: seq<Item>, q: string): (r: seq<Item>)
    ensures forall x :: x in r <==> x in items && DbMatches(q, x)
  {
    Filter(items, x => DbMatches(q, x))
  }

  /** The database search finds everything the in-memory search finds, and maybe more. */
  lemma SearchMemWithinDb(items: seq<Item>, q: string)
    ensures forall x :: x in SearchMem(items, q) ==> x in SearchDb(items, q)
    ensures |SearchMem(items, q)| <= |SearchDb(items, q)|
  {
    FilterMonotone(items, x => MemMatches(q, x), x => DbMatches(q, x));
  }

  /** Searching for a vehicle's own chassis number finds it, in either store. */
  lemma SearchFindsChassis(items: seq<Item>, item: Item)
    requires item in items
    ensures item in SearchMem(items, item.chassisNumber)
    ensures item in SearchDb(items, item.chassisNumber)
  {
    IncludesSelf(Lower(item.chassisNumber));
  }

  /** The empty query matches every vehicle. */
  lemma SearchEmptyQuery(items: seq<Item>)
    ensures SearchMem(items, "") == items
    ensures SearchDb(items, "") == items
  {
    assert Lower("") == "";
    FilterAll(items, x => MemMatches("", x));
    FilterAll(items, x => DbMatches("", x));
  }

  /** Only the database search looks at the location. */
  lemma SearchLocationOnlyInDb(item: Item, q: string)
    requires Includes(Lower(item.location), Lower(q)) && !MemMatches(q, item)
    ensures SearchMem([item], q) == [] && SearchDb([item], q) == [item]
  {
    FilterSnoc([], item, x => MemMatches(q, x));
    FilterSnoc([], item, x => DbMatches(q, x));
  }

  /** The filter object: each field present only when the query parameter was given. */
  datatype Criteria = Criteria(
    category: Option<string>,
    status: Option<string>,
    year: Option<JsInt>,
    manufacturer: Option<string>,
    importType: Option<string>,
    location: Option<string>)

  const NoCriteria: Criteria := Criteria(None, None, None, None, None, None)

  /** A criterion constrains only when present and truthy (a non-empty string). */
  predicate TextCriterion(c: Option<string>, value: string) {
    c.None? || c.value == "" || value == c.value
  }

  /** The year constrains only when present and truthy (neither 0 nor NaN). */
  predicate YearCriterion(c: Option<JsInt>, year: int) {
    c.None? || !c.value.Truthy() || year == c.value.n
  }

  /** Both stores' per-item test; `location` is accepted but never looked at. */
  predicate MatchesCriteria(f: Criteria, item: Item) {
    TextCriterion(f.category, item.category) &&
    TextCriterion(f.status, item.status) &&
    YearCriterion(f.year, item.year) &&
    TextCriterion(f.manufacturer, item.manufacturer) &&
    TextCriterion(f.importType, item.importType)
  }

  /** `filterInventoryItems`, identical in both stores. */
  function FilterItems(items: seq<Item>, f: Criteria): (r: seq<Item>)
    ensures |r| <= |items|
    ensures forall x :: x in r <==> x in items && MatchesCriteria(f, x)
  {
    Filter(items, x => MatchesCriteria(f, x))
  }

  /**
   * A vehicle passes exactly when it equals every present, truthy criterion: the category,
   * status, manufacturer and import type as given and the parsed year.
   */
  lemma FilterItemsExact(items: seq<Item>, f: Criteria, x: Item)
    ensures x in FilterItems(items, f) <==>
      x in items &&
      (f.category.Some? && f.category.value != "" ==> x.category == f.category.value) &&
      (f.status.Some? && f.status.value != "" ==> x.status == f.status.value) &&
      (f.year.Some? && f.year.value.Num? && f.year.value.n != 0 ==> x.year == f.year.value.n) &&
      (f.manufacturer.Some? && f.manufacturer.value != "" ==> x.manufacturer == f.manufacturer.value) &&
      (f.importType.Some? && f.importType.value != "" ==> x.importType == f.importType.value)
  {
  }

  /** Without criteria every vehicle is returned, in order. */
  lemma FilterNoCriteria(items: seq<Item>)
    ensures FilterItems(items, NoCriteria) == items
  {
    FilterAll(items, x => MatchesCriteria(NoCriteria, x));
  }

  /** The location criterion changes nothing. */
  lemma FilterIgnoresLocation(items: seq<Item>, f: Criteria, loc: Option<string>)
    ensures FilterItems(items, f.(location := loc)) == FilterItems(items, f)
  {
    var g := f.(location := loc);
    assert FilterItems(items, g) == Filter(items, x => MatchesCriteria(g, x));
    assert FilterItems(items, f) == Filter(items, x => MatchesCriteria(f, x));
    FilterCongruent(items, x => MatchesCriteria(g, x), x => MatchesCriteria(f, x));
  }

  /** A vehicle always passes the criteria built from its own fields. */
  lemma FilterFindsSelf(items: seq<Item>, x: Item)
    requires x in items
    ensures x in FilterItems(items, Criteria(Some(x.category), Some(x.status), Some(Num(x.year)),
                                             Some(x.manufacturer), Some(x.importType), None))
  {
  }
}
