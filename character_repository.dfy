/** lib/database/repositories/character.repository.ts: the filters the character repository builds. */
module CharacterRepository {
  import opened Wrappers
  import opened JsValue
  import opened MongoQuery
  import opened BaseRepository

  const CollectionName: string := "Character"

  /** The path of a character's world reference id. */
  const WorldRefPath: string := "world.$id.$oid"

  /** `CharacterFilters`: each field optional. */
  datatype CharacterFilters = CharacterFilters(worldId: Option<string>, race: Option<string>, search: Option<string>)

  /** `findByWorld(worldId)`'s filter. */
  function ByWorldQuery(worldId: string): (q: Query)
    ensures q.Keys == {WorldRefPath} && q[WorldRefPath] == Equals(Str(worldId))
  {
    map[WorldRefPath := Equals(Str(worldId))]
  }

  /**
   * The filter `findWithFilters` sends, key by key: the world reference when
   * a world id is given, and one `$or`, the race one when a race is given,
   * else the search one when a search is given.
   */
  function FiltersQuery(f: CharacterFilters): Query
  {
    var world: Query := if IsGiven(f.worldId) then ByWorldQuery(f.worldId.value) else map[];
    var or: Query :=
      if IsGiven(f.race) then LocaleQuery("race", f.race.value)
      else if IsGiven(f.search) then SearchQuery(f.search.value)
      else map[];
    world + or
  }

  /** `findWithFilters`'s construction: start empty and `Object.assign` each given part in turn. */
  method BuildFiltersQuery(f: CharacterFilters) returns (q: Query)
    ensures q == FiltersQuery(f)
  {
    q := map[];
    if f.worldId.Some? && f.worldId.value != "" {
      q := Assign(q, map[WorldRefPath := Equals(Str(f.worldId.value))]);
    }
    if f.search.Some? && f.search.value != "" {
      q := Assign(q, map[OrKey := AnyOf(SearchClauses(f.search.value))]);
    }
    if f.race.Some? && f.race.value != "" {
      q := Assign(q, map[OrKey := AnyOf(LocaleClauses("race", f.race.value))]);
    }
  }

  /** The filter's keys: the world reference iff a world id is given, `$or` iff a search or a race is. */
  lemma FiltersQueryKeys(f: CharacterFilters)
    ensures WorldRefPath in FiltersQuery(f) <==> IsGiven(f.worldId)
    ensures OrKey in FiltersQuery(f) <==> IsGiven(f.race) || IsGiven(f.search)
    ensures FiltersQuery(f).Keys <= {WorldRefPath, OrKey}
    ensures IsGiven(f.worldId) ==> FiltersQuery(f)[WorldRefPath] == Equals(Str(f.worldId.value))
  {
    assert WorldRefPath != OrKey by { assert WorldRefPath[0] != OrKey[0]; }
  }

  /** With nothing set the filter is empty. */
  lemma NoFiltersEmptyQuery(f: CharacterFilters)
    requires !IsGiven(f.worldId) && !IsGiven(f.race) && !IsGiven(f.search)
    ensures FiltersQuery(f) == map[]
  {
  }

  /** A race overwrites the search `$or`: with both given only the race (and the world) constrain. */
  lemma RaceOverridesSearch(f: CharacterFilters)
    requires IsGiven(f.race)
    ensures FiltersQuery(f)[OrKey] == AnyOf(LocaleClauses("race", f.race.value))
    ensures FiltersQuery(f) == FiltersQuery(f.(search := None))
  {
  }

  /** Without a race the search `$or` holds the four search clauses, the term used verbatim. */
  lemma SearchClausesWithoutRace(f: CharacterFilters)
    requires !IsGiven(f.race) && IsGiven(f.search)
    ensures FiltersQuery(f)[OrKey] == AnyOf(SearchClauses(f.search.value))
  {
  }

  /** `findByWorld(worldId)`. */
  function FindByWorld(c: Collection, worldId: string): (r: Result<seq<Document>>)
    ensures c.fault.Some? ==> r == Err(c.fault.value)
    ensures c.fault.None? ==> r == Ok(SerializeAll(Select(c.docs, ByWorldQuery(worldId), c.matches)))
  {
    FindByFilter(c, ByWorldQuery(worldId))
  }

  /** `findWithFilters(filters)`: the built filter, errors rethrown unchanged. */
  function FindWithFilters(c: Collection, f: CharacterFilters): (r: Result<seq<Document>>)
    ensures c.fault.Some? ==> r == Err(c.fault.value)
    ensures c.fault.None? ==> r == Ok(SerializeAll(Select(c.docs, FiltersQuery(f), c.matches)))
  {
    FindByFilter(c, FiltersQuery(f))
  }

  /** Empty filters fetch the whole collection when the empty filter matches every document. */
  lemma NoFiltersFetchAll(c: Collection, f: CharacterFilters)
    requires c.fault.None? && forall d :: c.matches(d, map[])
    requires !IsGiven(f.worldId) && !IsGiven(f.race) && !IsGiven(f.search)
    ensures FindWithFilters(c, f) == FindAll(c, None)
  {
    NoFiltersEmptyQuery(f);
    EmptyFilterSelectsAll(c.docs, c.matches);
  }
}
