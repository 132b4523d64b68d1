/**
 * hooks/use-translations.ts: the per-language message tables and the
 * dot-path lookup. The tables themselves (the files locales/<lang>.json) are not part of
 * this model: they are a parameter.
 */
module UseTranslations {
  import opened JsValue
  import opened JsStrings
  import opened CommonTypes
  import opened UseFilters

  function LanguageCode(language: Language): string
  {
    match language
    case En => "en"
    case Es => "es"
  }

  /** `translations[language] || translations.en`. */
  function UseTranslationsTable(tables: map<string, Value>, language: Language): (r: Value)
    ensures LanguageCode(language) in tables && Truthy(tables[LanguageCode(language)]) ==> r == tables[LanguageCode(language)]
    ensures !(LanguageCode(language) in tables && Truthy(tables[LanguageCode(language)])) ==> r == Prop(Obj(tables), "en")
  {
    var own := Prop(Obj(tables), LanguageCode(language));
    if Truthy(own) then own else Prop(Obj(tables), "en")
  }

  /** What `t(key)` means: the string at the key's dot path, or the key itself. */
  function Translation(table: Value, key: string): (r: string)
  {
    var v := Walk(table, Split(key, '.'));
    if v.Str? then v.s else key
  }

  /** `useT()(key)`: walk one segment at a time, giving up on the first `undefined`. */
  method LookUp(table: Value, key: string) returns (r: string)
    ensures r == Translation(table, key)
  {
    var keys := Split(key, '.');
    var value := table;
    for i := 0 to |keys|
      invariant value != Undefined || (i == 0 && table == Undefined)
      invariant Walk(value, keys[i..]) == Walk(table, keys)
    {
      assert keys[i..][0] == keys[i] && keys[i..][1..] == keys[i + 1..];
      value := Prop(value, keys[i]);
      if value == Undefined {
        WalkUndefined(keys[i + 1..]);
        return key;
      }
    }
    assert keys[|keys|..] == [];
    r := if value.Str? then value.s else key;
  }

  /** A missing segment gives back the key. */
  lemma MissingSegmentGivesKey(table: Value, key: string, i: int)
    requires 0 <= i < |Split(key, '.')|
    requires Walk(table, Split(key, '.')[..i + 1]) == Undefined
    ensures Translation(table, key) == key
  {
    var keys := Split(key, '.');
    WalkConcat(table, keys[..i + 1], keys[i + 1..]);
    assert keys[..i + 1] + keys[i + 1..] == keys;
    WalkUndefined(keys[i + 1..]);
  }

  /** Walking a concatenated path walks the first part, then the second. */
  lemma {:induction false} WalkConcat(v: Value, a: seq<string>, b: seq<string>)
    ensures Walk(v, a + b) == Walk(Walk(v, a), b)
    decreases |a|
  {
    if a == [] {
      assert a + b == b;
    } else {
      assert (a + b)[0] == a[0] && (a + b)[1..] == a[1..] + b;
      WalkConcat(Prop(v, a[0]), a[1..], b);
    }
  }

  /**
   * A two-segment key such as "pages.title": the string stored two levels
   * down is the translation; anything else there (a missing entry, a
   * sub-object, a number) gives back the key.
   */
  lemma NestedKeyTranslation(table: Value, a: string, b: string)
    requires forall i :: 0 <= i < |a| ==> a[i] != '.'
    requires forall i :: 0 <= i < |b| ==> b[i] != '.'
    ensures Prop(Prop(table, a), b).Str? ==> Translation(table, a + "." + b) == Prop(Prop(table, a), b).s
    ensures !Prop(Prop(table, a), b).Str? ==> Translation(table, a + "." + b) == a + "." + b
  {
    NestedTwoSegments(table, a, b);
  }

  /** A key with no dot reads one entry of the table. */
  lemma FlatKeyTranslation(table: Value, key: string)
    requires forall i :: 0 <= i < |key| ==> key[i] != '.'
    ensures Prop(table, key).Str? ==> Translation(table, key) == Prop(table, key).s
    ensures !Prop(table, key).Str? ==> Translation(table, key) == key
  {
    NestedOneSegment(table, key);
  }
}
