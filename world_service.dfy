/** lib/services/world.service.ts: worlds, and a world with its places resolved. */
module WorldService {
  import opened Wrappers
  import opened JsValue
  import opened JsStrings
  import opened MongoQuery
  import opened BaseRepository
  import opened WorldRepository
  import opened PlaceRepository
  import opened ServiceErrors

  const FetchWithPlacesFailed: string := "Failed to fetch world with places"

  /** What a property read on `null`/`undefined`, or `.map` on a non-array, throws. */
  const TypeErrorThrown: Thrown := Error("TypeError")

  /** `getAllWorlds()`: the sorted fetch. */
  function GetAllWorlds(worlds: Collection): (r: Result<seq<Document>>)
    ensures worlds.fault.Some? ==> r == Err(Error("Failed to fetch worlds"))
    ensures worlds.fault.None? ==> r == FindAllSorted(worlds)
  {
    Translated(FindAllSorted(worlds), "Failed to fetch worlds")
  }

  /** `getWorldByIdentifier(identifier)`. */
  function GetWorldByIdentifier(worlds: Collection, identifier: string): (r: Result<Option<Document>>)
    ensures identifier == "" || worlds.fault.Some? ==> r == Err(Error("Failed to fetch world"))
    ensures identifier != "" && worlds.fault.None? ==> r == FindByIdentifier(worlds, identifier)
  {
    Guarded(identifier, FindByIdentifier(worlds, identifier), "Failed to fetch world")
  }

  /** `countWorlds()`. */
  function CountWorlds(worlds: Collection): (r: Result<nat>)
    ensures worlds.fault.Some? ==> r == Err(Error("Failed to count worlds"))
    ensures worlds.fault.None? ==> r == Ok(|Select(worlds.docs, map[], worlds.matches)|)
  {
    Translated(Count(worlds, map[]), "Failed to count worlds")
  }

  // ---------------------------------------------------------------------
  // Place ids of a world
  // ---------------------------------------------------------------------

  /** The `map` callback: a string is kept, else `p.$id?.$oid || p.$id`. */
  function PlaceIdOf(p: Value): (r: Result<Value>)
    ensures r.Err? <==> p.Null? || p.Undefined?
    ensures p.Str? ==> r == Ok(p)
    ensures r.Ok? && !p.Str? && Truthy(Prop(Prop(p, "$id"), "$oid")) ==> r.value == Prop(Prop(p, "$id"), "$oid")
    ensures r.Ok? && !p.Str? && !Truthy(Prop(Prop(p, "$id"), "$oid")) ==> r.value == Prop(p, "$id")
  {
    if p.Str? then Ok(p)
    else if p.Null? || p.Undefined? then Err(TypeErrorThrown)
    else
      var oid := Prop(Prop(p, "$id"), "$oid");
      Ok(if Truthy(oid) then oid else Prop(p, "$id"))
  }

  /** `places.map(...)`: stops at the first element whose callback throws. */
  function MappedIds(items: seq<Value>): (r: Result<seq<Value>>)
    ensures r.Ok? <==> forall i :: 0 <= i < |items| ==> PlaceIdOf(items[i]).Ok?
    ensures r.Ok? ==> |r.value| == |items| && forall i :: 0 <= i < |items| ==> r.value[i] == PlaceIdOf(items[i]).value
  {
    if items == [] then Ok([])
    else
      var head := PlaceIdOf(items[0]);
      var tail := MappedIds(items[1..]);
      if head.Err? then Err(head.thrown)
      else if tail.Err? then Err(tail.thrown)
      else Ok([head.value] + tail.value)
  }

  /** `.filter((id) => typeof id === "string")`. */
  function StringsOf(vs: seq<Value>): (r: seq<string>)
    ensures |r| <= |vs|
    ensures forall s :: s in r <==> Str(s) in vs
  {
    if vs == [] then []
    else
      assert vs == [vs[0]] + vs[1..];
      (if vs[0].Str? then [vs[0].s] else []) + StringsOf(vs[1..])
  }

  /** The filter keeps order: filtering a concatenation concatenates the filtered parts. */
  lemma {:induction false} StringsOfConcat(a: seq<Value>, b: seq<Value>)
    ensures StringsOf(a + b) == StringsOf(a) + StringsOf(b)
  {
    if a == [] {
      assert a + b == b;
    } else {
      assert (a + b)[0] == a[0];
      assert (a + b)[1..] == a[1..] + b;
      StringsOfConcat(a[1..], b);
    }
  }

  /** An all-string list of places passes through unchanged. */
  lemma {:induction false} StringsOfStrings(ids: seq<string>)
    ensures StringsOf(seq(|ids|, i requires 0 <= i < |ids| => Str(ids[i]))) == ids
  {
    if ids != [] {
      var vs := seq(|ids|, i requires 0 <= i < |ids| => Str(ids[i]));
      assert vs[1..] == seq(|ids[1..]|, i requires 0 <= i < |ids[1..]| => Str(ids[1..][i]));
      StringsOfStrings(ids[1..]);
      assert ids == [ids[0]] + ids[1..];
    }
  }

  /** The ids `getWorldWithPlaces` passes to `findByIds`; a non-array `places` throws. */
  function PlaceIds(places: Value): (r: Result<seq<string>>)
    ensures r.Ok? <==> places.Arr? && forall i :: 0 <= i < |places.items| ==> !places.items[i].Null? && !places.items[i].Undefined?
  {
    if !places.Arr? then Err(TypeErrorThrown)
    else
      var mapped := MappedIds(places.items);
      if mapped.Err? then Err(mapped.thrown) else Ok(StringsOf(mapped.value))
  }

  /**
   * On a world as the store returns it, serialized: a string id is kept, a
   * DBRef has already become the string of its `$id` (so a `$id` holding
   * `{ $oid }` becomes "[object Object]"), and `{ oid }` its `oid`.
   */
  lemma SerializedPlaceRefs(world: Document)
    requires world == map["places" := Arr([Str("p1"), Obj(map["$id" := Obj(map["$oid" := Str("p2")])]), Obj(map["oid" := Str("p3")])])]
    ensures "places" in Serialized(world)
    ensures PlaceIds(Serialized(world)["places"]) == Ok(["p1", "[object Object]", "p3"])
  {
    var items := world["places"].items;
    SerializedField(world, "places");
    SerializedRefItems(items);
    var ids := ["p1", "[object Object]", "p3"];
    StringIdsKept(ids);
    assert seq(|ids|, i requires 0 <= i < |ids| => Str(ids[i])) == ElementsSerialized(items);
  }

  lemma SerializedRefItems(items: seq<Value>)
    requires items == [Str("p1"), Obj(map["$id" := Obj(map["$oid" := Str("p2")])]), Obj(map["oid" := Str("p3")])]
    ensures ElementsSerialized(items) == [Str("p1"), Str("[object Object]"), Str("p3")]
  {
    assert ElementSerialized(items[1]) == Str("[object Object]");
    assert ElementSerialized(items[2]) == Str("p3");
  }

  /** A `places` array of strings yields exactly those ids. */
  lemma StringIdsKept(ids: seq<string>)
    ensures PlaceIds(Arr(seq(|ids|, i requires 0 <= i < |ids| => Str(ids[i])))) == Ok(ids)
  {
    var vs := seq(|ids|, i requires 0 <= i < |ids| => Str(ids[i]));
    assert forall i :: 0 <= i < |vs| ==> PlaceIdOf(vs[i]) == Ok(vs[i]);
    assert MappedIds(vs).value == vs;
    StringsOfStrings(ids);
  }

  // ---------------------------------------------------------------------
  // getWorldWithPlaces
  // ---------------------------------------------------------------------

  /** `{ identifier: place.identifier, name: place.name.en }`; reading `en` of a missing name throws. */
  function PlaceSummary(place: Document): (r: Result<Value>)
    ensures r.Err? <==> Prop(Obj(place), "name").Null? || Prop(Obj(place), "name").Undefined?
    ensures r.Ok? ==> r.value.Obj? && r.value.fields.Keys == {"identifier", "name"}
    ensures r.Ok? ==>
      (r.value.fields["identifier"] == Prop(Obj(place), "identifier") && r.value.fields["name"] == Prop(Prop(Obj(place), "name"), "en"))
  {
    var name := Prop(Obj(place), "name");
    if name.Null? || name.Undefined? then Err(TypeErrorThrown)
    else Ok(Obj(map["identifier" := Prop(Obj(place), "identifier"), "name" := Prop(name, "en")]))
  }

  /** `places.map(...)` to summaries: one per place, in the same order. */
  function PlaceSummaries(places: seq<Document>): (r: Result<seq<Value>>)
    ensures r.Ok? <==> forall i :: 0 <= i < |places| ==> PlaceSummary(places[i]).Ok?
    ensures r.Ok? ==> |r.value| == |places| && forall i :: 0 <= i < |places| ==> r.value[i] == PlaceSummary(places[i]).value
  {
    if places == [] then Ok([])
    else
      var head := PlaceSummary(places[0]);
      var tail := PlaceSummaries(places[1..]);
      if head.Err? then Err(head.thrown)
      else if tail.Err? then Err(tail.thrown)
      else Ok([head.value] + tail.value)
  }

  /**
   * `getWorldWithPlaces(identifier)`: the world, with `places` replaced by
   * summaries of what `findByIds` returns for its place ids; any failure on
   * the way is reported as "Failed to fetch world with places".
   */
  function GetWorldWithPlaces(worlds: Collection, places: Collection, identifier: string): (r: Result<Option<Document>>)
    ensures r.Err? ==> r.thrown == Error(FetchWithPlacesFailed)
    ensures identifier == "" || worlds.fault.Some? ==> r == Err(Error(FetchWithPlacesFailed))
    ensures GetWorldByIdentifier(worlds, identifier) == Ok(None) ==> r == Ok(None)
  {
    var world := GetWorldByIdentifier(worlds, identifier);
    if world.Err? then Err(Error(FetchWithPlacesFailed))
    else if world.value.None? then Ok(None)
    else
      var w := world.value.value;
      var ids := PlaceIds(Prop(Obj(w), "places"));
      if ids.Err? then Err(Error(FetchWithPlacesFailed))
      else
        var found := FindByIds(places, ids.value);
        if found.Err? then Err(Error(FetchWithPlacesFailed))
        else
          var summaries := PlaceSummaries(found.value);
          if summaries.Err? then Err(Error(FetchWithPlacesFailed))
          else Ok(Some(w["places" := Arr(summaries.value)]))
  }

  /**
   * When every step succeeds, the result is the world with every other field
   * unchanged and `places` holding one summary per place `findByIds`
   * returned, in that order.
   */
  lemma WorldWithPlacesResult(worlds: Collection, places: Collection, identifier: string,
                              w: Document, ids: seq<string>, found: seq<Document>)
    requires GetWorldByIdentifier(worlds, identifier) == Ok(Some(w))
    requires PlaceIds(Prop(Obj(w), "places")) == Ok(ids)
    requires FindByIds(places, ids) == Ok(found)
    requires forall i :: 0 <= i < |found| ==> PlaceSummary(found[i]).Ok?
    ensures var r := GetWorldWithPlaces(worlds, places, identifier);
      && r.Ok? && r.value.Some?
      && r.value.value.Keys == w.Keys + {"places"}
      && (forall k :: k in w && k != "places" ==> r.value.value[k] == w[k])
      && r.value.value["places"].Arr? && |r.value.value["places"].items| == |found|
      && forall i :: 0 <= i < |found| ==>
           r.value.value["places"].items[i] == Obj(map["identifier" := Prop(Obj(found[i]), "identifier"),
                                                        "name" := Prop(Prop(Obj(found[i]), "name"), "en")])
  {
  }

  /** The store compares `_id` with a `$in` list by plain equality. */
  ghost predicate IdsMatchByEquality(c: Collection)
  {
    forall d: Document, vs: seq<Value> ::
      c.matches(d, map["_id" := InList(vs)]) <==> ("_id" in d && d["_id"] in vs)
  }

  /**
   * `findByIds` sends the ids as strings: against places whose `_id` is an
   * ObjectId, and a store that compares by equality, it finds nothing.
   */
  lemma StringIdsMissObjectIds(places: Collection, ids: seq<string>)
    requires places.fault.None? && IdsMatchByEquality(places)
    requires forall i :: 0 <= i < |places.docs| ==> "_id" in places.docs[i] && places.docs[i]["_id"].ObjectId?
    ensures FindByIds(places, ids) == Ok([])
  {
    var q := ByIdsQuery(ids);
    forall d | d in places.docs ensures !places.matches(d, q) {
      assert q == map["_id" := InList(q["_id"].vs)];
    }
    SelectNone(places.docs, q, places.matches);
  }

  /** The document's `_id` is the ObjectId of one of the ids. */
  predicate HasObjectIdAmong(d: Document, ids: seq<string>)
  {
    "_id" in d && exists j :: 0 <= j < |ids| && d["_id"] == ObjectId(ToLowerCase(ids[j]))
  }

  /**
   * With the ids converted to ObjectIds, the same store finds exactly the
   * places whose `_id` is one of them.
   */
  lemma ObjectIdsFindStoredPlaces(places: Collection, ids: seq<string>)
    requires places.fault.None? && IdsMatchByEquality(places)
    requires forall i :: 0 <= i < |ids| ==> IsObjectIdText(Str(ids[i]))
    ensures FindByObjectIds(places, ids).Ok?
    ensures forall d :: d in places.docs && HasObjectIdAmong(d, ids) ==> Serialized(d) in FindByObjectIds(places, ids).value
    ensures forall e :: e in FindByObjectIds(places, ids).value ==>
      exists d :: d in places.docs && HasObjectIdAmong(d, ids) && e == Serialized(d)
  {
    var q := ByObjectIdsQuery(ids);
    assert q == map["_id" := InList(q["_id"].vs)];
    var sel := Select(places.docs, q, places.matches);
    var r := SerializeAll(sel);
    assert FindByObjectIds(places, ids) == Ok(r);
    forall d | d in places.docs && HasObjectIdAmong(d, ids)
      ensures Serialized(d) in r
    {
      var j :| 0 <= j < |ids| && d["_id"] == ObjectId(ToLowerCase(ids[j]));
      assert q["_id"].vs[j] == d["_id"];
      assert places.matches(d, q);
      var k :| 0 <= k < |sel| && sel[k] == d;
      assert r[k] == Serialized(d);
    }
    forall e | e in r
      ensures exists d :: d in places.docs && HasObjectIdAmong(d, ids) && e == Serialized(d)
    {
      var k :| 0 <= k < |r| && r[k] == e;
      var d := sel[k];
      assert d in sel;
      assert places.matches(d, q);
      var j :| 0 <= j < |ids| && q["_id"].vs[j] == d["_id"];
      assert HasObjectIdAmong(d, ids);
    }
  }
}
