/** lib/services/place.service.ts: places, and a place enriched with its world. */
module PlaceService {
  import opened Wrappers
  import opened JsValue
  import opened JsStrings
  import opened BaseRepository
  import opened PlaceRepository
  import opened ServiceErrors

  const FetchPlaceFailed: string := "Failed to fetch place"

  /** `getAllPlaces()`. */
  function GetAllPlaces(places: Collection): (r: Result<seq<Document>>)
    ensures places.fault.Some? ==> r == Err(Error("Failed to fetch places"))
    ensures places.fault.None? ==> r == Ok(SerializeAll(places.docs))
  {
    Translated(FindAll(places, None), "Failed to fetch places")
  }

  /** `{ identifier, name, mainColor }` of a world: no image. */
  function WorldSummary(world: Document): (r: Value)
    ensures r.Obj? && r.fields.Keys == {"identifier", "name", "mainColor"}
    ensures forall k :: k in r.fields ==> r.fields[k] == Prop(Obj(world), k)
  {
    Obj(map["identifier" := Prop(Obj(world), "identifier"),
            "name" := Prop(Obj(world), "name"),
            "mainColor" := Prop(Obj(world), "mainColor")])
  }

  /** The place, with its world attached when its `worldId` is truthy and names a stored world. */
  function WithWorld(worlds: Collection, place: Document): (r: Result<Option<Document>>)
    ensures !Truthy(Prop(Obj(place), "worldId")) ==> r == Ok(Some(place))
    ensures r.Ok? ==> r.value.Some? && forall k :: k in place && k != "world" ==> k in r.value.value && r.value.value[k] == place[k]
  {
    var worldId := Prop(Obj(place), "worldId");
    if !Truthy(worldId) then Ok(Some(place))
    else
      var world := FindById(worlds, worldId);
      if world.Err? then Err(world.thrown)
      else if world.value.None? then Ok(Some(place))
      else Ok(Some(place["world" := WorldSummary(world.value.value)]))
  }

  /** `getPlaceByIdentifier(identifier)`. */
  function GetPlaceByIdentifier(places: Collection, worlds: Collection, identifier: string): (r: Result<Option<Document>>)
    ensures r.Err? ==> r.thrown == Error(FetchPlaceFailed)
    ensures identifier == "" || places.fault.Some? ==> r == Err(Error(FetchPlaceFailed))
    ensures identifier != "" && FindByIdentifier(places, identifier) == Ok(None) ==> r == Ok(None)
  {
    if identifier == "" then Translated(Err(Error(IdentifierRequired)), FetchPlaceFailed)
    else
      var place := FindByIdentifier(places, identifier);
      if place.Err? then Translated(Err(place.thrown), FetchPlaceFailed)
      else if place.value.None? then Ok(None)
      else Translated(WithWorld(worlds, place.value.value), FetchPlaceFailed)
  }

  /** The guard answers before either collection is reached. */
  lemma GuardIgnoresRepositories(p1: Collection, w1: Collection, p2: Collection, w2: Collection)
    ensures GetPlaceByIdentifier(p1, w1, "") == GetPlaceByIdentifier(p2, w2, "")
  {
  }

  /**
   * A found place whose world is found comes back with every one of its
   * fields, `worldId` included, plus `world` = { identifier, name, mainColor }.
   */
  lemma PlaceWithFoundWorld(places: Collection, worlds: Collection, identifier: string, place: Document, world: Document)
    requires identifier != "" && FindByIdentifier(places, identifier) == Ok(Some(place))
    requires Truthy(Prop(Obj(place), "worldId"))
    requires FindById(worlds, Prop(Obj(place), "worldId")) == Ok(Some(world))
    ensures var r := GetPlaceByIdentifier(places, worlds, identifier);
      && r.Ok? && r.value.Some?
      && r.value.value.Keys == place.Keys + {"world"}
      && (forall k :: k in place && k != "world" ==> r.value.value[k] == place[k])
      && r.value.value["world"] == WorldSummary(world)
      && "image" !in r.value.value["world"].fields
    ensures var worldId := Prop(Obj(place), "worldId");
      worldId.Str? && exists i :: 0 <= i < |worlds.docs| && HasField(worlds.docs[i], "_id", ObjectId(ToLowerCase(worldId.s)))
                                  && world == Serialized(worlds.docs[i])
  {
  }

  /** Without a truthy `worldId`, or with one naming no stored world, the place comes back unchanged. */
  lemma PlaceWithoutWorld(places: Collection, worlds: Collection, identifier: string, place: Document)
    requires identifier != "" && FindByIdentifier(places, identifier) == Ok(Some(place))
    requires !Truthy(Prop(Obj(place), "worldId")) || FindById(worlds, Prop(Obj(place), "worldId")) == Ok(None)
    ensures GetPlaceByIdentifier(places, worlds, identifier) == Ok(Some(place))
  {
  }

  /** A `worldId` that is not 24 hexadecimal digits fails the whole lookup. */
  lemma MalformedWorldIdFails(places: Collection, worlds: Collection, identifier: string, place: Document)
    requires identifier != "" && FindByIdentifier(places, identifier) == Ok(Some(place))
    requires worlds.fault.None?
    requires Truthy(Prop(Obj(place), "worldId")) && !IsObjectIdText(Prop(Obj(place), "worldId"))
    ensures GetPlaceByIdentifier(places, worlds, identifier) == Err(Error(FetchPlaceFailed))
  {
  }

  /** `searchPlaces(filters)`: the filters go to the repository unchanged. */
  function SearchPlaces(places: Collection, f: PlaceFilters): (r: Result<seq<Document>>)
    ensures places.fault.Some? ==> r == Err(Error("Failed to search places"))
    ensures places.fault.None? ==> r == FindWithFilters(places, f)
  {
    Translated(FindWithFilters(places, f), "Failed to search places")
  }

  /** `countPlaces()`. */
  function CountPlaces(places: Collection): (r: Result<nat>)
    ensures places.fault.Some? ==> r == Err(Error("Failed to count places"))
    ensures places.fault.None? ==> r == Ok(|Select(places.docs, map[], places.matches)|)
  {
    Translated(Count(places, map[]), "Failed to count places")
  }
}
