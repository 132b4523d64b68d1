/** lib/database/repositories/item.repository.ts: the filter the item repository builds. */
module ItemRepository {
  import opened Wrappers
  import opened JsValue
  import opened MongoQuery
  import opened BaseRepository

  const CollectionName: string := "Item"

  /** `ItemFilters`: each field optional. */
  datatype ItemFilters = ItemFilters(itemType: Option<string>, search: Option<string>)

  /**
   * The filter `findWithFilters` sends: one `$or`, the type one when a type is
   * given, else the search one when a search is given, else nothing.
   */
  function FiltersQuery(f: ItemFilters): Query
  {
    if IsGiven(f.itemType) then LocaleQuery("type", f.itemType.value)
    else if IsGiven(f.search) then SearchQuery(f.search.value)
    else map[]
  }

  /** `findWithFilters`'s construction: start empty and `Object.assign` each given part in turn. */
  method BuildFiltersQuery(f: ItemFilters) returns (q: Query)
    ensures q == FiltersQuery(f)
  {
    q := map[];
    if f.search.Some? && f.search.value != "" {
      q := Assign(q, map[OrKey := AnyOf(SearchClauses(f.search.value))]);
    }
    if f.itemType.Some? && f.itemType.value != "" {
      q := Assign(q, map[OrKey := AnyOf(LocaleClauses("type", f.itemType.value))]);
    }
  }

  /** The filter has at most the one key `$or`, present iff a search or a type is given. */
  lemma FiltersQueryKeys(f: ItemFilters)
    ensures FiltersQuery(f).Keys == if IsGiven(f.itemType) || IsGiven(f.search) then {OrKey} else {}
  {
  }

  /** A type overwrites the search `$or`: with both given only the type constrains. */
  lemma TypeOverridesSearch(f: ItemFilters)
    requires IsGiven(f.itemType)
    ensures FiltersQuery(f)[OrKey] == AnyOf(LocaleClauses("type", f.itemType.value))
    ensures FiltersQuery(f) == FiltersQuery(f.(search := None))
  {
  }

  /** Without a type the `$or` holds the four search clauses, the term used verbatim. */
  lemma SearchClausesWithoutType(f: ItemFilters)
    requires !IsGiven(f.itemType) && IsGiven(f.search)
    ensures FiltersQuery(f)[OrKey] == AnyOf(SearchClauses(f.search.value))
  {
  }

  /** `findWithFilters(filters)`: the built filter, errors rethrown unchanged. */
  function FindWithFilters(c: Collection, f: ItemFilters): (r: Result<seq<Document>>)
    ensures c.fault.Some? ==> r == Err(c.fault.value)
    ensures c.fault.None? ==> r == Ok(SerializeAll(Select(c.docs, FiltersQuery(f), c.matches)))
  {
    FindByFilter(c, FiltersQuery(f))
  }

  /** Empty filters fetch the whole collection when the empty filter matches every document. */
  lemma NoFiltersFetchAll(c: Collection, f: ItemFilters)
    requires c.fault.None? && forall d :: c.matches(d, map[])
    requires !IsGiven(f.itemType) && !IsGiven(f.search)
    ensures FindWithFilters(c, f) == FindAll(c, None)
  {
    EmptyFilterSelectsAll(c.docs, c.matches);
  }
}
