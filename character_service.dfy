/** lib/services/character.service.ts: guards and error translation over the character repository. */
module CharacterService {
  import opened Wrappers
  import opened JsValue
  import opened MongoQuery
  import opened BaseRepository
  import opened CharacterRepository
  import opened ServiceErrors

  /** `getAllCharacters()`. */
  function GetAllCharacters(c: Collection): (r: Result<seq<Document>>)
    ensures c.fault.Some? ==> r == Err(Error("Failed to fetch characters"))
    ensures c.fault.None? ==> r == Ok(SerializeAll(c.docs))
  {
    Translated(FindAll(c, None), "Failed to fetch characters")
  }

  /** `getCharacterByIdentifier(identifier)`. */
  function GetCharacterByIdentifier(c: Collection, identifier: string): (r: Result<Option<Document>>)
    ensures identifier == "" || c.fault.Some? ==> r == Err(Error("Failed to fetch character"))
    ensures identifier != "" && c.fault.None? ==> r == FindByIdentifier(c, identifier)
  {
    Guarded(identifier, FindByIdentifier(c, identifier), "Failed to fetch character")
  }

  /** `getCharactersByWorld(worldId)`: guarded by "World ID is required". */
  function GetCharactersByWorld(c: Collection, worldId: string): (r: Result<seq<Document>>)
    ensures worldId == "" || c.fault.Some? ==> r == Err(Error("Failed to fetch characters by world"))
    ensures worldId != "" && c.fault.None? ==> r == Ok(SerializeAll(Select(c.docs, ByWorldQuery(worldId), c.matches)))
  {
    Translated(if worldId == "" then Err(Error("World ID is required")) else FindByWorld(c, worldId),
               "Failed to fetch characters by world")
  }

  /** `searchCharacters(filters)`: the filters go to the repository unchanged. */
  function SearchCharacters(c: Collection, f: CharacterFilters): (r: Result<seq<Document>>)
    ensures c.fault.Some? ==> r == Err(Error("Failed to search characters"))
    ensures c.fault.None? ==> r == FindWithFilters(c, f)
  {
    Translated(FindWithFilters(c, f), "Failed to search characters")
  }

  /** `countCharacters()`: the repository's `count()` with the empty filter. */
  function CountCharacters(c: Collection): (r: Result<nat>)
    ensures c.fault.Some? ==> r == Err(Error("Failed to count characters"))
    ensures c.fault.None? ==> r == Ok(|Select(c.docs, map[], c.matches)|)
  {
    Translated(Count(c, map[]), "Failed to count characters")
  }

  /** The guards answer before the repository is reached: the collection plays no part. */
  lemma GuardsIgnoreRepository(c1: Collection, c2: Collection)
    ensures GetCharacterByIdentifier(c1, "") == GetCharacterByIdentifier(c2, "")
    ensures GetCharactersByWorld(c1, "") == GetCharactersByWorld(c2, "")
  {
  }

  /** An unknown identifier is an absent character, not an error. */
  lemma UnknownCharacterIsNull(c: Collection, identifier: string)
    requires identifier != "" && c.fault.None?
    requires forall i :: 0 <= i < |c.docs| ==> !HasField(c.docs[i], "identifier", Str(identifier))
    ensures GetCharacterByIdentifier(c, identifier) == Ok(None)
  {
  }
}
