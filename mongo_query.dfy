/**
 * The filter objects the repositories hand to the document store, as data.
 * How the store evaluates them (regular expressions, `$in`, dotted paths) is
 * not modelled: a collection carries its own matching relation.
 */
module MongoQuery {
  import opened Wrappers
  import opened JsValue

  /** `{ [path]: { $regex: pattern, $options: options } }`: one alternative of an `$or`. */
  datatype Clause = RegexClause(path: string, pattern: string, options: string)

  /** The condition stored under one key of a filter object. */
  datatype Condition =
    | Equals(v: Value)              // `{ key: v }`
    | InList(vs: seq<Value>)        // `{ key: { $in: vs } }`
    | AnyOf(clauses: seq<Clause>)   // `{ $or: clauses }`

  /** A filter object: its keys and the condition under each. */
  type Query = map<string, Condition>

  const OrKey: string := "$or"

  /** A filter option that is set: present and not the empty string. */
  predicate IsGiven(o: Option<string>)
  {
    o.Some? && o.value != ""
  }

  /** `Object.assign(target, source)`: every key of `source` overrides the same key of `target`. */
  function Assign(target: Query, source: Query): (r: Query)
    ensures r.Keys == target.Keys + source.Keys
    ensures forall k :: k in source ==> r[k] == source[k]
    ensures forall k :: k in target && k !in source ==> r[k] == target[k]
  {
    target + source
  }

  /** Case-insensitive clauses on the `es` and then the `en` locale of `field`. */
  function LocaleClauses(field: string, pattern: string): (r: seq<Clause>)
    ensures |r| == 2
    ensures r[0].path == field + ".es" && r[1].path == field + ".en"
    ensures forall i :: 0 <= i < 2 ==> r[i].pattern == pattern && r[i].options == "i"
  {
    [RegexClause(field + ".es", pattern, "i"), RegexClause(field + ".en", pattern, "i")]
  }

  /** The four search alternatives: name and description, each in es and en. */
  function SearchClauses(term: string): (r: seq<Clause>)
    ensures |r| == 4
    ensures r[0].path == "name.es" && r[1].path == "name.en"
    ensures r[2].path == "description.es" && r[3].path == "description.en"
    ensures forall i :: 0 <= i < 4 ==> r[i].pattern == term && r[i].options == "i"
  {
    LocaleClauses("name", term) + LocaleClauses("description", term)
  }

  /** `{ $or: SearchClauses(term) }`. */
  function SearchQuery(term: string): Query
  {
    map[OrKey := AnyOf(SearchClauses(term))]
  }

  /** `{ $or: LocaleClauses(field, term) }`: the race or type constraint. */
  function LocaleQuery(field: string, term: string): Query
  {
    map[OrKey := AnyOf(LocaleClauses(field, term))]
  }

  /** The search never looks at the German locale. */
  lemma SearchSkipsGerman(term: string)
    ensures forall c :: c in SearchClauses(term) ==> c.path != "name.de" && c.path != "description.de"
  {
    var r := SearchClauses(term);
    forall c | c in r ensures c.path != "name.de" && c.path != "description.de" {
      var i :| 0 <= i < 4 && r[i] == c;
      assert "name.de"[5] == 'd' && "description.de"[12] == 'd';
      assert r[i].path == "name.es" || r[i].path == "name.en"
          || r[i].path == "description.es" || r[i].path == "description.en";
    }
  }
}
