/**
 * lib/database/repositories/base.repository.ts: the serialization of stored
 * documents and the operations every repository shares, against a collection
 * given as data.
 */
module BaseRepository {
  import opened Wrappers
  import opened JsValue
  import opened JsStrings
  import opened MongoQuery
  import opened Sorting

  /**
   * One collection as a repository sees it: its name, its documents in
   * natural order, the error every access raises when the database cannot be
   * reached, how the store decides that a document matches a filter, and the
   * store's ordering of field values for `sort`.
   */
  datatype Collection = Collection(
    name: string,
    docs: seq<Document>,
    fault: Option<Thrown>,
    matches: (Document, Query) -> bool,
    valueLe: (Value, Value) -> bool)

  // ---------------------------------------------------------------------
  // serializeDocument
  // ---------------------------------------------------------------------

  /** `v && typeof v === "object"`. */
  predicate IsObject(v: Value)
  {
    Truthy(v) && IsObjectType(v)
  }

  /** The rewrite of one element of an array field. */
  function ElementSerialized(item: Value): (r: Value)
    ensures r == item || r.Str?
  {
    if IsObject(item) && Truthy(Prop(item, "$id")) then Str(ToJsString(Prop(item, "$id")))
    else if IsObject(item) && Truthy(Prop(item, "oid")) then Str(ToJsString(Prop(item, "oid")))
    else if IsObject(item) && Prop(item, "_bsontype") == Str("ObjectId") then Str(ToJsString(item))
    else item
  }

  /** `value.map(...)` over an array field: one result per element, in order. */
  function ElementsSerialized(items: seq<Value>): (r: seq<Value>)
    ensures |r| == |items|
    ensures forall i :: 0 <= i < |items| ==> r[i] == ElementSerialized(items[i])
  {
    seq(|items|, i requires 0 <= i < |items| => ElementSerialized(items[i]))
  }

  /** The rewrite of one top-level field value. */
  function FieldSerialized(value: Value): (r: Value)
    ensures value.Arr? ==> r.Arr? && |r.items| == |value.items|
    ensures !value.Arr? ==> r == value || r.Str?
  {
    if value.Arr? then Arr(ElementsSerialized(value.items))
    else if IsObject(value) && Truthy(Prop(value, "$id")) then Str(ToJsString(Prop(value, "$id")))
    else if IsObject(value) && Prop(value, "_bsontype") == Str("ObjectId") then Str(ToJsString(value))
    else if IsObject(value) && Truthy(Prop(value, "oid")) then Str(ToJsString(Prop(value, "oid")))
    else value
  }

  /** The copy after `_id` has been turned into its string form (when truthy). */
  function WithIdString(m: Document): Document
  {
    if "_id" in m && Truthy(m["_id"]) then m["_id" := Str(ToJsString(m["_id"]))] else m
  }

  /** The serialized form of a stored document. */
  function Serialized(m: Document): Document
  {
    var copy := WithIdString(m);
    map k | k in copy :: FieldSerialized(copy[k])
  }

  /** `serializeDocument(doc)` on a document or a falsy value. */
  function SerializedValue(doc: Value): Value
    requires doc.Obj? || !Truthy(doc)
  {
    if !Truthy(doc) then doc else Obj(Serialized(doc.fields))
  }

  /** `serializeDocument(doc)`: copy, stringify `_id`, then rewrite each key in turn. */
  method SerializeDocument(doc: Value) returns (r: Value)
    requires doc.Obj? || !Truthy(doc)
    ensures r == SerializedValue(doc)
  {
    if !Truthy(doc) {
      return doc;
    }
    var serialized := doc.fields;
    if "_id" in serialized && Truthy(serialized["_id"]) {
      serialized := serialized["_id" := Str(ToJsString(serialized["_id"]))];
    }
    ghost var copy := serialized;
    var pending := serialized.Keys;
    while pending != {}
      invariant pending <= copy.Keys
      invariant serialized.Keys == copy.Keys
      invariant forall k :: k in copy && k !in pending ==> serialized[k] == FieldSerialized(copy[k])
      invariant forall k :: k in pending ==> serialized[k] == copy[k]
      decreases pending
    {
      var key :| key in pending;
      var value := serialized[key];
      if value.Arr? {
        serialized := serialized[key := Arr(ElementsSerialized(value.items))];
      } else if IsObject(value) && Truthy(Prop(value, "$id")) {
        serialized := serialized[key := Str(ToJsString(Prop(value, "$id")))];
      } else if IsObject(value) && Prop(value, "_bsontype") == Str("ObjectId") {
        serialized := serialized[key := Str(ToJsString(value))];
      } else if IsObject(value) && Truthy(Prop(value, "oid")) {
        serialized := serialized[key := Str(ToJsString(Prop(value, "oid")))];
      }
      pending := pending - {key};
    }
    assert serialized == Serialized(doc.fields);
    r := Obj(serialized);
  }

  /** Serialization keeps exactly the document's keys, and a truthy `_id` becomes its string. */
  lemma SerializedKeysAndId(m: Document)
    ensures Serialized(m).Keys == m.Keys
    ensures "_id" in m && Truthy(m["_id"]) ==> Serialized(m)["_id"] == Str(ToJsString(m["_id"]))
  {
  }

  /** Every field other than `_id` is rewritten on its own. */
  lemma SerializedField(m: Document, k: string)
    requires k in m && k != "_id"
    ensures k in Serialized(m) && Serialized(m)[k] == FieldSerialized(m[k])
  {
  }

  /**
   * An array field keeps its length and order: each element with a truthy
   * `$id` becomes that id's string, else one with a truthy `oid` that
   * string, else an ObjectId its hexadecimal text; any other element stays.
   */
  lemma SerializedArrayField(m: Document, k: string, i: int)
    requires k in m && k != "_id" && m[k].Arr? && 0 <= i < |m[k].items|
    ensures Serialized(m)[k].Arr? && |Serialized(m)[k].items| == |m[k].items|
    ensures var item := m[k].items[i]; var r := Serialized(m)[k].items[i];
      && (IsObject(item) && Truthy(Prop(item, "$id")) ==> r == Str(ToJsString(Prop(item, "$id"))))
      && (IsObject(item) && !Truthy(Prop(item, "$id")) && Truthy(Prop(item, "oid")) ==> r == Str(ToJsString(Prop(item, "oid"))))
      && (item.ObjectId? ==> r == Str(item.hex))
      && (!IsObject(item) ==> r == item)
  {
  }

  /**
   * A non-array field: a DBRef (truthy `$id`) becomes its `$id` string, an
   * ObjectId its text, an object with a truthy `oid` that string; strings,
   * numbers and localized text stay as they are.
   */
  lemma SerializedScalarField(m: Document, k: string)
    requires k in m && k != "_id" && !m[k].Arr?
    ensures var v := m[k]; var r := Serialized(m)[k];
      && (IsObject(v) && Truthy(Prop(v, "$id")) ==> r == Str(ToJsString(Prop(v, "$id"))))
      && (v.ObjectId? ==> r == Str(v.hex))
      && ((v.Obj? && !Truthy(Prop(v, "$id")) && Prop(v, "_bsontype") != Str("ObjectId") && Truthy(Prop(v, "oid")))
            ==> r == Str(ToJsString(Prop(v, "oid"))))
      && (!IsObject(v) ==> r == v)
  {
  }

  /** A plain object with no reference marker of its own is copied unchanged, whatever it holds deeper down. */
  lemma SerializedOneLevel(m: Document, k: string)
    requires k in m && k != "_id" && m[k].Obj?
    requires !Truthy(Prop(m[k], "$id")) && !Truthy(Prop(m[k], "oid")) && Prop(m[k], "_bsontype") != Str("ObjectId")
    ensures Serialized(m)[k] == m[k]
  {
  }

  lemma ElementSerializedIdempotent(item: Value)
    ensures ElementSerialized(ElementSerialized(item)) == ElementSerialized(item)
  {
  }

  lemma FieldSerializedIdempotent(value: Value)
    ensures FieldSerialized(FieldSerialized(value)) == FieldSerialized(value)
  {
    if value.Arr? {
      var once := ElementsSerialized(value.items);
      forall i | 0 <= i < |once| ensures ElementSerialized(once[i]) == once[i] {
        ElementSerializedIdempotent(value.items[i]);
      }
      assert ElementsSerialized(once) == once;
    }
  }

  /** Serializing a serialized document changes nothing. */
  lemma SerializedIdempotent(m: Document)
    ensures Serialized(Serialized(m)) == Serialized(m)
  {
    var s := Serialized(m);
    assert WithIdString(s) == s;
    forall k | k in s ensures FieldSerialized(s[k]) == s[k] {
      FieldSerializedIdempotent(WithIdString(m)[k]);
    }
  }

  // ---------------------------------------------------------------------
  // Queries against the collection
  // ---------------------------------------------------------------------

  /** `documents.map(serializeDocument)`. */
  function SerializeAll(docs: seq<Document>): (r: seq<Document>)
    ensures |r| == |docs|
    ensures forall i :: 0 <= i < |docs| ==> r[i] == Serialized(docs[i])
  {
    seq(|docs|, i requires 0 <= i < |docs| => Serialized(docs[i]))
  }

  /** The value a dotted sort path reaches in a document. */
  function FieldAt(d: Document, path: seq<string>): Value
    decreases |path|
  {
    if path == [] then Obj(d)
    else if path[0] !in d then Undefined
    else if |path| == 1 then d[path[0]]
    else if d[path[0]].Obj? then FieldAt(d[path[0]].fields, path[1..])
    else Undefined
  }

  /** The documents in the store's ascending order of the value at `path`. */
  function SortedOn(c: Collection, path: seq<string>): seq<Document>
  {
    SortBy(c.docs, (a: Document, b: Document) => c.valueLe(FieldAt(a, path), FieldAt(b, path)))
  }

  /** `findAll(options)`: the whole collection, sorted when a sort path is given. */
  function FindAll(c: Collection, sortPath: Option<seq<string>>): (r: Result<seq<Document>>)
    ensures c.fault.Some? ==> r == Err(c.fault.value)
    ensures c.fault.None? ==> r.Ok? && |r.value| == |c.docs|
    ensures c.fault.None? && sortPath.None? ==> r == Ok(SerializeAll(c.docs))
  {
    if c.fault.Some? then Err(c.fault.value)
    else if sortPath.None? then Ok(SerializeAll(c.docs))
    else Ok(SerializeAll(SortedOn(c, sortPath.value)))
  }

  /** A sorted `findAll` returns every document, serialized, ordered on the sort path. */
  lemma FindAllOrdered(c: Collection, path: seq<string>)
    requires c.fault.None? && TotalPreorder(c.valueLe)
    ensures var r := FindAll(c, Some(path)); var s := SortedOn(c, path);
      && r == Ok(SerializeAll(s))
      && multiset(s) == multiset(c.docs)
      && forall i, j :: 0 <= i < j < |s| ==> c.valueLe(FieldAt(s[i], path), FieldAt(s[j], path))
  {
    var le := (a: Document, b: Document) => c.valueLe(FieldAt(a, path), FieldAt(b, path));
    assert TotalPreorder(le) by {
      forall a: Document, b: Document ensures le(a, b) || le(b, a) {
        assert c.valueLe(FieldAt(a, path), FieldAt(b, path)) || c.valueLe(FieldAt(b, path), FieldAt(a, path));
      }
      forall a: Document, b: Document, d: Document | le(a, b) && le(b, d) ensures le(a, d) {
        assert c.valueLe(FieldAt(a, path), FieldAt(b, path)) && c.valueLe(FieldAt(b, path), FieldAt(d, path));
      }
    }
    SortBySorted(c.docs, le);
  }

  /** The document has field `key` equal to `v`. */
  predicate HasField(d: Document, key: string, v: Value)
  {
    key in d && d[key] == v
  }

  /** `findOne({ [key]: v })`: the first document in natural order with that field. */
  function FirstWith(docs: seq<Document>, key: string, v: Value): (r: Option<Document>)
    ensures r.None? <==> forall i :: 0 <= i < |docs| ==> !HasField(docs[i], key, v)
    ensures r.Some? ==> exists i :: 0 <= i < |docs| && docs[i] == r.value && HasField(r.value, key, v)
                          && forall j :: 0 <= j < i ==> !HasField(docs[j], key, v)
  {
    if docs == [] then None
    else if HasField(docs[0], key, v) then Some(docs[0])
    else
      var r := FirstWith(docs[1..], key, v);
      assert r.Some? ==> exists i :: 0 <= i < |docs| && docs[i] == r.value && HasField(r.value, key, v)
                          && forall j :: 0 <= j < i ==> !HasField(docs[j], key, v) by {
        if r.Some? {
          var i :| 0 <= i < |docs| - 1 && docs[1..][i] == r.value && HasField(r.value, key, v)
                   && forall j :: 0 <= j < i ==> !HasField(docs[1..][j], key, v);
          assert docs[i + 1] == r.value;
          forall j | 0 <= j < i + 1 ensures !HasField(docs[j], key, v) {
            if j > 0 {
              assert docs[j] == docs[1..][j - 1];
            }
          }
        }
      }
      r
  }

  /** `findByIdentifier(identifier)`: the first document with that identifier, serialized, or null. */
  function FindByIdentifier(c: Collection, identifier: string): (r: Result<Option<Document>>)
    ensures c.fault.Some? ==> r == Err(c.fault.value)
    ensures c.fault.None? ==> r.Ok?
    ensures c.fault.None? ==>
      (r.value.None? <==> forall i :: 0 <= i < |c.docs| ==> !HasField(c.docs[i], "identifier", Str(identifier)))
    ensures c.fault.None? && r.value.Some? ==>
      exists i :: 0 <= i < |c.docs| && HasField(c.docs[i], "identifier", Str(identifier))
                  && r.value.value == Serialized(c.docs[i])
  {
    if c.fault.Some? then Err(c.fault.value)
    else
      var found := FirstWith(c.docs, "identifier", Str(identifier));
      if found.None? then Ok(None) else Ok(Some(Serialized(found.value)))
  }

  predicate IsHexDigit(ch: char)
  {
    ('0' <= ch <= '9') || ('a' <= ch <= 'f') || ('A' <= ch <= 'F')
  }

  /** What `new ObjectId(id)` accepts as text: 24 hexadecimal digits. */
  predicate IsObjectIdText(id: Value)
  {
    id.Str? && |id.s| == 24 && forall i :: 0 <= i < 24 ==> IsHexDigit(id.s[i])
  }

  /** The message the BSON library's `ObjectId` constructor throws for other input. */
  const InvalidObjectIdMessage: string :=
    "input must be a 24 character hex string, 12 byte Uint8Array, or an integer"

  /**
   * `findById(id)`: the collection is reached first, then `new ObjectId(id)`
   * is built, which throws for malformed text, then the first document whose
   * `_id` is that ObjectId (its text in lower case) is returned serialized.
   */
  function FindById(c: Collection, id: Value): (r: Result<Option<Document>>)
    ensures c.fault.Some? ==> r == Err(c.fault.value)
    ensures c.fault.None? && !IsObjectIdText(id) ==> r == Err(Error(InvalidObjectIdMessage))
    ensures c.fault.None? && IsObjectIdText(id) ==>
      (r.Ok? && (r.value.None? <==> forall i :: 0 <= i < |c.docs| ==> !HasField(c.docs[i], "_id", ObjectId(ToLowerCase(id.s)))))
    ensures c.fault.None? && IsObjectIdText(id) && r.Ok? && r.value.Some? ==>
      exists i :: 0 <= i < |c.docs| && HasField(c.docs[i], "_id", ObjectId(ToLowerCase(id.s)))
                  && r.value.value == Serialized(c.docs[i])
                  && forall j :: 0 <= j < i ==> !HasField(c.docs[j], "_id", ObjectId(ToLowerCase(id.s)))
  {
    if c.fault.Some? then Err(c.fault.value)
    else if !IsObjectIdText(id) then Err(Error(InvalidObjectIdMessage))
    else
      var found := FirstWith(c.docs, "_id", ObjectId(ToLowerCase(id.s)));
      if found.None? then Ok(None) else Ok(Some(Serialized(found.value)))
  }

  /** The documents the store reports as matching `q`, in natural order. */
  function Select(docs: seq<Document>, q: Query, matches: (Document, Query) -> bool): (r: seq<Document>)
    ensures |r| <= |docs|
    ensures forall d :: d in r <==> d in docs && matches(d, q)
  {
    if docs == [] then []
    else
      assert docs == [docs[0]] + docs[1..];
      (if matches(docs[0], q) then [docs[0]] else []) + Select(docs[1..], q, matches)
  }

  /** When no document matches, nothing is selected. */
  lemma {:induction false} SelectNone(docs: seq<Document>, q: Query, matches: (Document, Query) -> bool)
    requires forall d :: d in docs ==> !matches(d, q)
    ensures Select(docs, q, matches) == []
  {
    if docs != [] {
      assert docs[0] in docs;
      forall d | d in docs[1..] ensures !matches(d, q) {
        assert d in docs;
      }
      SelectNone(docs[1..], q, matches);
    }
  }

  /** `findByFilter(filter)`. */
  function FindByFilter(c: Collection, q: Query): (r: Result<seq<Document>>)
    ensures c.fault.Some? ==> r == Err(c.fault.value)
    ensures c.fault.None? ==> r == Ok(SerializeAll(Select(c.docs, q, c.matches)))
  {
    if c.fault.Some? then Err(c.fault.value) else Ok(SerializeAll(Select(c.docs, q, c.matches)))
  }

  /** `count(filter)`. */
  function Count(c: Collection, q: Query): (r: Result<nat>)
    ensures c.fault.Some? ==> r == Err(c.fault.value)
    ensures c.fault.None? ==> r == Ok(|Select(c.docs, q, c.matches)|)
  {
    if c.fault.Some? then Err(c.fault.value) else Ok(|Select(c.docs, q, c.matches)|)
  }

  /** `exists(filter)`: `count(filter) > 0`, and count's error when it fails. */
  function Exists(c: Collection, q: Query): (r: Result<bool>)
    ensures Count(c, q).Err? ==> r == Err(Count(c, q).thrown)
    ensures Count(c, q).Ok? ==> r == Ok(Count(c, q).value > 0)
  {
    var n := Count(c, q);
    if n.Err? then Err(n.thrown) else Ok(n.value > 0)
  }

  /** `exists` holds iff some document matches. */
  lemma ExistsIffSomeMatch(c: Collection, q: Query)
    requires c.fault.None?
    ensures Exists(c, q) == Ok(exists d :: d in c.docs && c.matches(d, q))
  {
    var s := Select(c.docs, q, c.matches);
    if |s| > 0 {
      assert s[0] in s;
    }
  }

  /** With a store where the empty filter matches everything, it selects the whole collection. */
  lemma EmptyFilterSelectsAll(docs: seq<Document>, matches: (Document, Query) -> bool)
    requires forall d :: matches(d, map[])
    ensures Select(docs, map[], matches) == docs
  {
    if docs != [] {
      EmptyFilterSelectsAll(docs[1..], matches);
      assert [docs[0]] + docs[1..] == docs;
    }
  }

  /** A missing identifier is an absent result, not an error. */
  lemma FindByIdentifierMissing(c: Collection, identifier: string)
    requires c.fault.None?
    requires forall i :: 0 <= i < |c.docs| ==> !HasField(c.docs[i], "identifier", Str(identifier))
    ensures FindByIdentifier(c, identifier) == Ok(None)
  {
  }
}
