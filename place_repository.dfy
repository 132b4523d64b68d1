/** lib/database/repositories/place.repository.ts: the filters the place repository builds. */
module PlaceRepository {
  import opened Wrappers
  import opened JsValue
  import opened JsStrings
  import opened MongoQuery
  import opened BaseRepository

  const CollectionName: string := "Place"

  /** `PlaceFilters`: each field optional. */
  datatype PlaceFilters = PlaceFilters(worldId: Option<string>, search: Option<string>)

  /** `findByIds(ids)`'s filter: `_id` among the ids, as strings, with no ObjectId conversion. */
  function ByIdsQuery(ids: seq<string>): (q: Query)
    ensures q.Keys == {"_id"} && q["_id"].InList?
    ensures |q["_id"].vs| == |ids| && forall i :: 0 <= i < |ids| ==> q["_id"].vs[i] == Str(ids[i])
  {
    map["_id" := InList(seq(|ids|, i requires 0 <= i < |ids| => Str(ids[i])))]
  }

  /** `findByIds(ids)`: the matching places in the store's order. */
  function FindByIds(c: Collection, ids: seq<string>): (r: Result<seq<Document>>)
    ensures c.fault.Some? ==> r == Err(c.fault.value)
    ensures c.fault.None? ==> r == Ok(SerializeAll(Select(c.docs, ByIdsQuery(ids), c.matches)))
  {
    FindByFilter(c, ByIdsQuery(ids))
  }

  /** `{ _id: { $in: ids.map((id) => new ObjectId(id)) } }`: the ids as the ObjectIds `findById` would build. */
  function ByObjectIdsQuery(ids: seq<string>): (q: Query)
    ensures q.Keys == {"_id"} && q["_id"].InList?
    ensures |q["_id"].vs| == |ids| && forall i :: 0 <= i < |ids| ==> q["_id"].vs[i] == ObjectId(ToLowerCase(ids[i]))
  {
    map["_id" := InList(seq(|ids|, i requires 0 <= i < |ids| => ObjectId(ToLowerCase(ids[i]))))]
  }

  /**
   * `findByIds` with the ids converted to ObjectIds, as the stored `_id`s
   * are: a malformed id throws the ObjectId constructor's error.
   */
  function FindByObjectIds(c: Collection, ids: seq<string>): (r: Result<seq<Document>>)
    ensures (exists i :: 0 <= i < |ids| && !IsObjectIdText(Str(ids[i]))) ==> r == Err(Error(InvalidObjectIdMessage))
    ensures (forall i :: 0 <= i < |ids| ==> IsObjectIdText(Str(ids[i]))) ==> r == FindByFilter(c, ByObjectIdsQuery(ids))
  {
    if exists i :: 0 <= i < |ids| && !IsObjectIdText(Str(ids[i])) then Err(Error(InvalidObjectIdMessage))
    else FindByFilter(c, ByObjectIdsQuery(ids))
  }

  /** The filter `findWithFilters` sends: the search `$or` when a search is given, else nothing. */
  function FiltersQuery(f: PlaceFilters): Query
  {
    if IsGiven(f.search) then SearchQuery(f.search.value) else map[]
  }

  /** `findWithFilters`'s construction: start empty and `Object.assign` the search when given. */
  method BuildFiltersQuery(f: PlaceFilters) returns (q: Query)
    ensures q == FiltersQuery(f)
  {
    q := map[];
    if f.search.Some? && f.search.value != "" {
      q := Assign(q, map[OrKey := AnyOf(SearchClauses(f.search.value))]);
    }
  }

  /** `worldId` is never read: the filter depends on the search alone. */
  lemma FiltersIgnoreWorld(f: PlaceFilters, worldId: Option<string>)
    ensures FiltersQuery(f.(worldId := worldId)) == FiltersQuery(f)
  {
  }

  /** The filter is empty without a search, and the four search clauses with one. */
  lemma FiltersQueryShape(f: PlaceFilters)
    ensures !IsGiven(f.search) ==> FiltersQuery(f) == map[]
    ensures IsGiven(f.search) ==>
      (FiltersQuery(f).Keys == {OrKey} && FiltersQuery(f)[OrKey] == AnyOf(SearchClauses(f.search.value)))
  {
  }

  /** `findWithFilters(filters)`: the built filter, errors rethrown unchanged. */
  function FindWithFilters(c: Collection, f: PlaceFilters): (r: Result<seq<Document>>)
    ensures c.fault.Some? ==> r == Err(c.fault.value)
    ensures c.fault.None? ==> r == Ok(SerializeAll(Select(c.docs, FiltersQuery(f), c.matches)))
  {
    FindByFilter(c, FiltersQuery(f))
  }
}
