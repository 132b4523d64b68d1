/** lib/database/repositories/creature.repository.ts: the filter the creature repository builds. */
module CreatureRepository {
  import opened Wrappers
  import opened JsValue
  import opened MongoQuery
  import opened BaseRepository

  const CollectionName: string := "Creature"

  /** `CreatureFilters`: each field optional. */
  datatype CreatureFilters = CreatureFilters(race: Option<string>, search: Option<string>)

  /**
   * The filter `findWithFilters` sends: one `$or`, the race one when a race is
   * given, else the search one when a search is given, else nothing.
   */
  function FiltersQuery(f: CreatureFilters): Query
  {
    if IsGiven(f.race) then LocaleQuery("race", f.race.value)
    else if IsGiven(f.search) then SearchQuery(f.search.value)
    else map[]
  }

  /** `findWithFilters`'s construction: start empty and `Object.assign` each given part in turn. */
  method BuildFiltersQuery(f: CreatureFilters) returns (q: Query)
    ensures q == FiltersQuery(f)
  {
    q := map[];
    if f.search.Some? && f.search.value != "" {
      q := Assign(q, map[OrKey := AnyOf(SearchClauses(f.search.value))]);
    }
    if f.race.Some? && f.race.value != "" {
      q := Assign(q, map[OrKey := AnyOf(LocaleClauses("race", f.race.value))]);
    }
  }

  /** The filter has at most the one key `$or`, present iff a search or a race is given. */
  lemma FiltersQueryKeys(f: CreatureFilters)
    ensures FiltersQuery(f).Keys == if IsGiven(f.race) || IsGiven(f.search) then {OrKey} else {}
  {
  }

  /** A race overwrites the search `$or`: with both given only the race constrains. */
  lemma RaceOverridesSearch(f: CreatureFilters)
    requires IsGiven(f.race)
    ensures FiltersQuery(f)[OrKey] == AnyOf(LocaleClauses("race", f.race.value))
    ensures FiltersQuery(f) == FiltersQuery(f.(search := None))
  {
  }

  /** Without a race the `$or` holds the four search clauses, the term used verbatim. */
  lemma SearchClausesWithoutRace(f: CreatureFilters)
    requires !IsGiven(f.race) && IsGiven(f.search)
    ensures FiltersQuery(f)[OrKey] == AnyOf(SearchClauses(f.search.value))
  {
  }

  /** `findWithFilters(filters)`: the built filter, errors rethrown unchanged. */
  function FindWithFilters(c: Collection, f: CreatureFilters): (r: Result<seq<Document>>)
    ensures c.fault.Some? ==> r == Err(c.fault.value)
    ensures c.fault.None? ==> r == Ok(SerializeAll(Select(c.docs, FiltersQuery(f), c.matches)))
  {
    FindByFilter(c, FiltersQuery(f))
  }

  /** Empty filters fetch the whole collection when the empty filter matches every document. */
  lemma NoFiltersFetchAll(c: Collection, f: CreatureFilters)
    requires c.fault.None? && forall d :: c.matches(d, map[])
    requires !IsGiven(f.race) && !IsGiven(f.search)
    ensures FindWithFilters(c, f) == FindAll(c, None)
  {
    EmptyFilterSelectsAll(c.docs, c.matches);
  }
}
