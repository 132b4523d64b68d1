/** lib/database/repositories/world.repository.ts: the sorted full fetch of worlds. */
module WorldRepository {
  import opened Wrappers
  import opened JsValue
  import opened Sorting
  import opened BaseRepository

  const CollectionName: string := "World"

  /** The sort key `{ "name.en": 1 }`. */
  const EnglishNamePath: seq<string> := ["name", "en"]

  /** `findAllSorted()`: `findAll` sorted on the English name, errors rethrown unchanged. */
  function FindAllSorted(c: Collection): (r: Result<seq<Document>>)
    ensures c.fault.Some? ==> r == Err(c.fault.value)
    ensures c.fault.None? ==> r.Ok? && |r.value| == |c.docs|
  {
    FindAll(c, Some(EnglishNamePath))
  }

  /**
   * Every world comes back once, serialized, in ascending order of the
   * store's comparison of English names.
   */
  lemma FindAllSortedOrder(c: Collection)
    requires c.fault.None? && TotalPreorder(c.valueLe)
    ensures exists s: seq<Document> ::
      && FindAllSorted(c) == Ok(SerializeAll(s))
      && multiset(s) == multiset(c.docs)
      && forall i, j :: 0 <= i < j < |s| ==> c.valueLe(FieldAt(s[i], EnglishNamePath), FieldAt(s[j], EnglishNamePath))
  {
    FindAllOrdered(c, EnglishNamePath);
  }
}
