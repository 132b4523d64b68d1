/** app/characters/page.tsx: joining each character with its world, or a placeholder. */
module CharactersPage {
  import opened Wrappers
  import opened JsValue
  import opened BaseRepository
  import opened UseFilters

  /** `world._id`, the lookup key of a world. */
  function WorldKey(world: Document): Value
  {
    Prop(Obj(world), "_id")
  }

  /** `new Map(worlds.map((world) => [world._id, world]))`: a later world replaces an earlier one with the same key. */
  function WorldsMap(worlds: seq<Document>): (r: map<Value, Document>)
    ensures forall k :: k in r <==> exists i :: 0 <= i < |worlds| && WorldKey(worlds[i]) == k
    decreases |worlds|
  {
    if worlds == [] then map[]
    else
      var front := worlds[..|worlds| - 1];
      var last := worlds[|worlds| - 1];
      var r := WorldsMap(front)[WorldKey(last) := last];
      assert forall i :: 0 <= i < |front| ==> front[i] == worlds[i];
      r
  }

  /** With duplicate keys the last world in the list is the one found. */
  lemma {:induction false} WorldsMapLastWins(worlds: seq<Document>, i: int)
    requires 0 <= i < |worlds|
    requires forall j :: i < j < |worlds| ==> WorldKey(worlds[j]) != WorldKey(worlds[i])
    ensures WorldsMap(worlds)[WorldKey(worlds[i])] == worlds[i]
    decreases |worlds|
  {
    if i < |worlds| - 1 {
      var front := worlds[..|worlds| - 1];
      assert front[i] == worlds[i];
      forall j | i < j < |front| ensures WorldKey(front[j]) != WorldKey(front[i]) {
        assert front[j] == worlds[j];
      }
      WorldsMapLastWins(front, i);
    }
  }

  /** The world reference: a string as it is, else a truthy `world?.$id?.$oid`, else none. */
  function WorldRef(character: Document): (r: Value)
    ensures var w := Prop(Obj(character), "world");
      && (w.Str? ==> r == w)
      && (!w.Str? && Truthy(Prop(Prop(w, "$id"), "$oid")) ==> r == Prop(Prop(w, "$id"), "$oid"))
      && (!w.Str? && !Truthy(Prop(Prop(w, "$id"), "$oid")) ==> r == Undefined)
  {
    var w := Prop(Obj(character), "world");
    if w.Str? then w
    else
      var oid := Prop(Prop(w, "$id"), "$oid");
      if Truthy(oid) then oid else Undefined
  }

  /** The world shown for a character whose world is unknown. */
  const UnknownWorld: Value := Obj(map[
    "identifier" := Str("unknown"),
    "name" := Obj(map["en" := Str("Unknown"), "es" := Str("Desconocido"), "de" := Str("Unbekannt")]),
    "mainColor" := Str("#888888"),
    "image" := Str("")])

  /** `{ identifier, name, mainColor, image }` of a found world. */
  function WorldSummary(world: Document): (r: Value)
    ensures r.Obj? && r.fields.Keys == {"identifier", "name", "mainColor", "image"}
    ensures forall k :: k in r.fields ==> r.fields[k] == Prop(Obj(world), k)
  {
    Obj(map["identifier" := Prop(Obj(world), "identifier"),
            "name" := Prop(Obj(world), "name"),
            "mainColor" := Prop(Obj(world), "mainColor"),
            "image" := Prop(Obj(world), "image")])
  }

  /** The world a character is shown with. */
  function JoinedWorld(character: Document, byId: map<Value, Document>): (r: Value)
    ensures r == UnknownWorld || exists k :: k in byId && k == WorldRef(character) && r == WorldSummary(byId[k])
  {
    var id := WorldRef(character);
    if !Truthy(id) || id !in byId then UnknownWorld else WorldSummary(byId[id])
  }

  /** `mapCharactersWithWorlds(characters, worlds)`. */
  function MapCharactersWithWorlds(characters: seq<Document>, worlds: seq<Document>): (r: seq<Document>)
    ensures |r| == |characters|
    ensures forall i :: 0 <= i < |r| ==> r[i] == characters[i]["world" := JoinedWorld(characters[i], WorldsMap(worlds))]
  {
    var byId := WorldsMap(worlds);
    seq(|characters|, i requires 0 <= i < |characters| => characters[i]["world" := JoinedWorld(characters[i], byId)])
  }

  /** Every field other than `world` is copied unchanged, and `world` is always set. */
  lemma OtherFieldsCopied(characters: seq<Document>, worlds: seq<Document>, i: int)
    requires 0 <= i < |characters|
    ensures var r := MapCharactersWithWorlds(characters, worlds)[i];
      && r.Keys == characters[i].Keys + {"world"}
      && forall k :: k in characters[i] && k != "world" ==> r[k] == characters[i][k]
  {
  }

  /** No reference (including "") or a reference to no stored world gives the placeholder. */
  lemma UnknownWorldPlaceholder(characters: seq<Document>, worlds: seq<Document>, i: int)
    requires 0 <= i < |characters|
    requires var id := WorldRef(characters[i]);
      !Truthy(id) || forall j :: 0 <= j < |worlds| ==> WorldKey(worlds[j]) != id
    ensures MapCharactersWithWorlds(characters, worlds)[i]["world"] == UnknownWorld
  {
  }

  /** A `{ oid }` reference is not understood: the character gets the placeholder. */
  lemma OidReferenceIgnored(character: Document, worlds: seq<Document>, oid: string)
    requires "world" in character && character["world"] == Obj(map["oid" := Str(oid)])
    ensures MapCharactersWithWorlds([character], worlds)[0]["world"] == UnknownWorld
  {
    assert WorldRef(character) == Undefined;
  }

  /**
   * A character as `getAllCharacters` delivers it: serialization has already
   * turned a `{ oid }` world reference into its string, which the page then
   * looks up like any other.
   */
  lemma SerializedOidReferenceResolves(character: Document, oid: string)
    requires "world" in character && character["world"] == Obj(map["oid" := Str(oid)]) && oid != ""
    ensures WorldRef(Serialized(character)) == Str(oid)
  {
    SerializedScalarField(character, "world");
  }

  /** A reference to the last world with that `_id` gives exactly that world's summary. */
  lemma FoundWorldSummary(characters: seq<Document>, worlds: seq<Document>, i: int, j: int)
    requires 0 <= i < |characters| && 0 <= j < |worlds|
    requires Truthy(WorldRef(characters[i])) && WorldKey(worlds[j]) == WorldRef(characters[i])
    requires forall k :: j < k < |worlds| ==> WorldKey(worlds[k]) != WorldKey(worlds[j])
    ensures MapCharactersWithWorlds(characters, worlds)[i]["world"] == WorldSummary(worlds[j])
  {
    WorldsMapLastWins(worlds, j);
  }

  /** The "world.name" filter path reads the joined world's localized name. */
  lemma WorldNamePathResolves(characters: seq<Document>, worlds: seq<Document>, i: int)
    requires 0 <= i < |characters|
    ensures var r := MapCharactersWithWorlds(characters, worlds)[i];
      GetNestedValue(Obj(r), "world.name") == Prop(JoinedWorld(characters[i], WorldsMap(worlds)), "name")
  {
    var r := Obj(MapCharactersWithWorlds(characters, worlds)[i]);
    var world, name := "world", "name";
    assert forall k :: 0 <= k < |world| ==> world[k] != '.' by {
      assert world == ['w', 'o', 'r', 'l', 'd'];
    }
    assert forall k :: 0 <= k < |name| ==> name[k] != '.' by {
      assert name == ['n', 'a', 'm', 'e'];
    }
    NestedTwoSegments(r, world, name);
    assert world + "." + name == "world.name";
    assert Prop(r, world) == JoinedWorld(characters[i], WorldsMap(worlds));
  }
}
