/** lib/services/item.service.ts: guards and error translation over the item repository. */
module ItemService {
  import opened Wrappers
  import opened JsValue
  import opened BaseRepository
  import opened ItemRepository
  import opened ServiceErrors

  /** `getAllItems()`. */
  function GetAllItems(c: Collection): (r: Result<seq<Document>>)
    ensures c.fault.Some? ==> r == Err(Error("Failed to fetch items"))
    ensures c.fault.None? ==> r == Ok(SerializeAll(c.docs))
  {
    Translated(FindAll(c, None), "Failed to fetch items")
  }

  /** `getItemByIdentifier(identifier)`. */
  function GetItemByIdentifier(c: Collection, identifier: string): (r: Result<Option<Document>>)
    ensures identifier == "" || c.fault.Some? ==> r == Err(Error("Failed to fetch item"))
    ensures identifier != "" && c.fault.None? ==> r == FindByIdentifier(c, identifier)
  {
    Guarded(identifier, FindByIdentifier(c, identifier), "Failed to fetch item")
  }

  /** `searchItems(filters)`: the filters go to the repository unchanged. */
  function SearchItems(c: Collection, f: ItemFilters): (r: Result<seq<Document>>)
    ensures c.fault.Some? ==> r == Err(Error("Failed to search items"))
    ensures c.fault.None? ==> r == FindWithFilters(c, f)
  {
    Translated(FindWithFilters(c, f), "Failed to search items")
  }

  /** `countItems()`: the repository's `count()` with the empty filter. */
  function CountItems(c: Collection): (r: Result<nat>)
    ensures c.fault.Some? ==> r == Err(Error("Failed to count items"))
    ensures c.fault.None? ==> r == Ok(|Select(c.docs, map[], c.matches)|)
  {
    Translated(Count(c, map[]), "Failed to count items")
  }

  /** The guard answers before the repository is reached: the collection plays no part. */
  lemma GuardIgnoresRepository(c1: Collection, c2: Collection)
    ensures GetItemByIdentifier(c1, "") == GetItemByIdentifier(c2, "")
  {
  }
}
