/** lib/services/creature.service.ts: guards and error translation over the creature repository. */
module CreatureService {
  import opened Wrappers
  import opened JsValue
  import opened BaseRepository
  import opened CreatureRepository
  import opened ServiceErrors

  /** `getAllCreatures()`. */
  function GetAllCreatures(c: Collection): (r: Result<seq<Document>>)
    ensures c.fault.Some? ==> r == Err(Error("Failed to fetch creatures"))
    ensures c.fault.None? ==> r == Ok(SerializeAll(c.docs))
  {
    Translated(FindAll(c, None), "Failed to fetch creatures")
  }

  /** `getCreatureByIdentifier(identifier)`. */
  function GetCreatureByIdentifier(c: Collection, identifier: string): (r: Result<Option<Document>>)
    ensures identifier == "" || c.fault.Some? ==> r == Err(Error("Failed to fetch creature"))
    ensures identifier != "" && c.fault.None? ==> r == FindByIdentifier(c, identifier)
  {
    Guarded(identifier, FindByIdentifier(c, identifier), "Failed to fetch creature")
  }

  /** `searchCreatures(filters)`: the filters go to the repository unchanged. */
  function SearchCreatures(c: Collection, f: CreatureFilters): (r: Result<seq<Document>>)
    ensures c.fault.Some? ==> r == Err(Error("Failed to search creatures"))
    ensures c.fault.None? ==> r == FindWithFilters(c, f)
  {
    Translated(FindWithFilters(c, f), "Failed to search creatures")
  }

  /** `countCreatures()`: the repository's `count()` with the empty filter. */
  function CountCreatures(c: Collection): (r: Result<nat>)
    ensures c.fault.Some? ==> r == Err(Error("Failed to count creatures"))
    ensures c.fault.None? ==> r == Ok(|Select(c.docs, map[], c.matches)|)
  {
    Translated(Count(c, map[]), "Failed to count creatures")
  }

  /** The guard answers before the repository is reached: the collection plays no part. */
  lemma GuardIgnoresRepository(c1: Collection, c2: Collection)
    ensures GetCreatureByIdentifier(c1, "") == GetCreatureByIdentifier(c2, "")
  {
  }
}
