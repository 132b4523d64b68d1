/**
 * The client-side filter engine of hooks/use-filters.ts: dot-path field
 * access, the text / select / multi-select checks, the filtered subsequence,
 * the options derived from the data, the enriched configurations and the
 * held filter values.
 */
module UseFilters {
  import opened Wrappers
  import opened JsValue
  import opened JsStrings
  import opened TextNormalize
  import opened CommonTypes
  import opened Sorting

  // ---------------------------------------------------------------------
  // getNestedValue
  // ---------------------------------------------------------------------

  /** `keys.reduce((current, key) => current?.[key], v)`. */
  function Walk(v: Value, keys: seq<string>): Value
    decreases |keys|
  {
    if keys == [] then v else Walk(Prop(v, keys[0]), keys[1..])
  }

  /** `getNestedValue(obj, path)`: follow the "."-separated segments of `path`. */
  function GetNestedValue(obj: Value, path: string): Value
  {
    Walk(obj, Split(path, '.'))
  }

  /** Once a segment is missing the walk stays `undefined`. */
  lemma {:induction false} WalkUndefined(keys: seq<string>)
    ensures Walk(Undefined, keys) == Undefined
  {
    if keys != [] {
      WalkUndefined(keys[1..]);
    }
  }

  lemma SplitCons(c: char, rest: string, sep: char)
    ensures c == sep ==> Split([c] + rest, sep) == [""] + Split(rest, sep)
    ensures c != sep ==> Split([c] + rest, sep) == [[c] + Split(rest, sep)[0]] + Split(rest, sep)[1..]
  {
    assert ([c] + rest)[1..] == rest;
  }

  /** A text with the separator exactly once splits into the two sides. */
  lemma {:induction false} SplitAtOnlySeparator(a: string, b: string, sep: char)
    requires forall i :: 0 <= i < |a| ==> a[i] != sep
    requires forall i :: 0 <= i < |b| ==> b[i] != sep
    ensures Split(a + [sep] + b, sep) == [a, b]
    decreases |a|
  {
    if a == [] {
      assert a + [sep] + b == [sep] + b;
      SplitCons(sep, b, sep);
      SplitNoSeparator(b, sep);
    } else {
      var t := a[1..] + [sep] + b;
      assert a + [sep] + b == [a[0]] + t;
      SplitAtOnlySeparator(a[1..], b, sep);
      SplitCons(a[0], t, sep);
      assert [a[0]] + a[1..] == a;
    }
  }

  /** A path without "." is one plain property access. */
  lemma NestedOneSegment(obj: Value, key: string)
    requires forall i :: 0 <= i < |key| ==> key[i] != '.'
    ensures GetNestedValue(obj, key) == Prop(obj, key)
  {
    SplitNoSeparator(key, '.');
    assert Walk(obj, [key]) == Walk(Prop(obj, key), []);
  }

  /** `a.b` reads property `b` of property `a`. */
  lemma NestedTwoSegments(obj: Value, a: string, b: string)
    requires forall i :: 0 <= i < |a| ==> a[i] != '.'
    requires forall i :: 0 <= i < |b| ==> b[i] != '.'
    ensures GetNestedValue(obj, a + "." + b) == Prop(Prop(obj, a), b)
  {
    SplitAtOnlySeparator(a, b, '.');
    assert [a, b][1..] == [b] && [b][1..] == [];
    assert Walk(obj, [a, b]) == Walk(Prop(obj, a), [b]);
    assert Walk(Prop(obj, a), [b]) == Walk(Prop(Prop(obj, a), b), []);
  }

  // ---------------------------------------------------------------------
  // Matching helpers
  // ---------------------------------------------------------------------

  /** `a || b`. */
  function OrElse(a: Value, b: Value): (r: Value)
    ensures Truthy(a) ==> r == a
    ensures !Truthy(a) ==> r == b
  {
    if Truthy(a) then a else b
  }

  /** `v && typeof v === "object" && "en" in v`: a value read as localized text. */
  predicate IsLocalized(v: Value)
  {
    Truthy(v) && IsObjectType(v) && HasProp(v, "en")
  }

  /** `multiLanguageTextMatches(v, searchTerm)`. */
  predicate MultiLanguageTextMatches(v: Value, searchTerm: string)
  {
    if !Truthy(v) || searchTerm == "" then false
    else if v.Str? then Includes(NormalizeString(v.s), NormalizeString(searchTerm))
    else
      var ns := NormalizeString(searchTerm);
      || Includes(NormalizeText(Prop(v, "en")), ns)
      || Includes(NormalizeText(Prop(v, "es")), ns)
      || Includes(NormalizeText(Prop(v, "de")), ns)
  }

  /** Some locale of localized text `v` normalizes to exactly `nf`. */
  predicate LocaleEquals(v: Value, nf: string)
  {
    || NormalizeText(Prop(v, "en")) == nf
    || NormalizeText(Prop(v, "es")) == nf
    || NormalizeText(OrElse(Prop(v, "de"), Str(""))) == nf
  }

  /** The text filter's check for a non-empty search value other than "all". */
  predicate TextCheck(item: Value, filterValue: string)
  {
    var term := NormalizeString(filterValue);
    if term == "" then true
    else if Truthy(Prop(item, "name")) then MultiLanguageTextMatches(Prop(item, "name"), term)
    else
      var ident := Prop(item, "identifier");
      Truthy(ident) && ident.Str? && Includes(NormalizeString(ident.s), term)
  }

  /** The select filter's check. */
  predicate SelectCheck(item: Value, id: string, filterValue: string)
  {
    var itemValue := GetNestedValue(item, id);
    var nf := NormalizeString(filterValue);
    if itemValue.Str? then NormalizeString(itemValue.s) == nf
    else if IsLocalized(itemValue) then LocaleEquals(itemValue, nf)
    else false
  }

  /** `filterValue.map(normalizeText)`. */
  function NormalizeAll(vs: seq<string>): (r: seq<string>)
    ensures |r| == |vs| && forall i :: 0 <= i < |vs| ==> r[i] == NormalizeString(vs[i])
  {
    seq(|vs|, i requires 0 <= i < |vs| => NormalizeString(vs[i]))
  }

  /** One element of an array field against the normalized chosen values. */
  predicate ElementMatches(e: Value, nfs: seq<string>)
  {
    if e.Str? then NormalizeString(e.s) in nfs
    else if IsLocalized(e) then exists fv :: fv in nfs && LocaleEquals(e, fv)
    else false
  }

  /** The multi-select filter's check. */
  predicate MultiSelectCheck(item: Value, id: string, chosen: seq<string>)
  {
    if |chosen| == 0 then true
    else
      var itemValue := GetNestedValue(item, id);
      var nfs := NormalizeAll(chosen);
      if itemValue.Str? then NormalizeString(itemValue.s) in nfs
      else if IsLocalized(itemValue) then exists fv :: fv in nfs && LocaleEquals(itemValue, fv)
      else if itemValue.Arr? then exists e :: e in itemValue.items && ElementMatches(e, nfs)
      else false
  }

  /** The callback of `enrichedConfigs.every(...)`: does `item` pass `config`? */
  predicate Passes(item: Value, config: FilterConfig, values: FilterValues)
  {
    if config.id !in values then true
    else
      var fv := values[config.id];
      if fv.Single? && (fv.s == "" || fv.s == "all") then true
      else if config.TextFilter? && fv.Single? then TextCheck(item, fv.s)
      else if config.SelectFilter? && fv.Single? then SelectCheck(item, config.id, fv.s)
      else if config.MultiSelectFilter? && fv.Many? then MultiSelectCheck(item, config.id, fv.vs)
      else true
  }

  /** An item is kept when it passes every configured filter. */
  predicate KeepItem(item: Value, configs: seq<FilterConfig>, values: FilterValues)
  {
    forall i :: 0 <= i < |configs| ==> Passes(item, configs[i], values)
  }

  /** `filteredData`: `data.filter(item => configs.every(...))`. */
  function FilteredData(data: seq<Value>, configs: seq<FilterConfig>, values: FilterValues): seq<Value>
  {
    if data == [] then []
    else (if KeepItem(data[0], configs, values) then [data[0]] else [])
         + FilteredData(data[1..], configs, values)
  }

  // ---------------------------------------------------------------------
  // Properties of filteredData
  // ---------------------------------------------------------------------

  /** `sub` is `s` with some elements left out, the rest in their order. */
  predicate IsSubsequence<T(==)>(sub: seq<T>, s: seq<T>)
  {
    if sub == [] then true
    else if s == [] then false
    else if sub[0] == s[0] then IsSubsequence(sub[1..], s[1..])
    else IsSubsequence(sub, s[1..])
  }

  lemma {:induction false} FilteredDataIsSubsequence(data: seq<Value>, configs: seq<FilterConfig>, values: FilterValues)
    ensures IsSubsequence(FilteredData(data, configs, values), data)
    decreases |data|
  {
    if data != [] {
      FilteredDataIsSubsequence(data[1..], configs, values);
      var rest := FilteredData(data[1..], configs, values);
      if KeepItem(data[0], configs, values) {
        assert FilteredData(data, configs, values) == [data[0]] + rest;
        assert ([data[0]] + rest)[1..] == rest;
      } else {
        assert FilteredData(data, configs, values) == rest;
        SubsequenceOfTail(rest, data);
      }
    }
  }

  lemma {:induction false} SubsequenceOfTail<T>(sub: seq<T>, s: seq<T>)
    requires s != [] && IsSubsequence(sub, s[1..])
    ensures IsSubsequence(sub, s)
    decreases |s|, 0
  {
    if sub != [] && sub[0] == s[0] {
      SubsequenceDropFirst(sub, s[1..]);
    }
  }

  lemma {:induction false} SubsequenceDropFirst<T>(sub: seq<T>, t: seq<T>)
    requires sub != [] && IsSubsequence(sub, t)
    ensures IsSubsequence(sub[1..], t)
    decreases |t|, 1
  {
    if sub[0] == t[0] {
      SubsequenceOfTail(sub[1..], t);
    } else {
      SubsequenceDropFirst(sub, t[1..]);
      SubsequenceOfTail(sub[1..], t);
    }
  }

  /** An item is in the result iff it is in the data and passes every filter. */
  lemma {:induction false} FilteredDataMembers(data: seq<Value>, configs: seq<FilterConfig>, values: FilterValues, x: Value)
    ensures x in FilteredData(data, configs, values) <==> x in data && KeepItem(x, configs, values)
    decreases |data|
  {
    if data != [] {
      FilteredDataMembers(data[1..], configs, values, x);
      assert data == [data[0]] + data[1..];
    }
  }

  /** When every item passes, nothing is removed. */
  lemma {:induction false} FilteredDataAllKept(data: seq<Value>, configs: seq<FilterConfig>, values: FilterValues)
    requires forall i :: 0 <= i < |data| ==> KeepItem(data[i], configs, values)
    ensures FilteredData(data, configs, values) == data
    decreases |data|
  {
    if data != [] {
      FilteredDataAllKept(data[1..], configs, values);
      assert [data[0]] + data[1..] == data;
    }
  }

  /** With no filter values at all (after clearFilters) the data comes back unchanged. */
  lemma FilteredDataNoValues(data: seq<Value>, configs: seq<FilterConfig>)
    ensures FilteredData(data, configs, map[]) == data
  {
    FilteredDataAllKept(data, configs, map[]);
  }

  /** The check of one filter only reads the value under that filter's own id. */
  lemma PassesReadsOwnValue(item: Value, config: FilterConfig, values: FilterValues, k: string, v: FilterValue)
    requires k != config.id
    ensures Passes(item, config, values[k := v]) == Passes(item, config, values)
    ensures Passes(item, config, values - {k}) == Passes(item, config, values)
  {
  }

  /** A value stored under an id that no configuration has is ignored. */
  lemma {:induction false} FilteredDataIgnoresUnconfigured(data: seq<Value>, configs: seq<FilterConfig>,
                                                          values: FilterValues, k: string, v: FilterValue)
    requires forall i :: 0 <= i < |configs| ==> configs[i].id != k
    ensures FilteredData(data, configs, values[k := v]) == FilteredData(data, configs, values)
    decreases |data|
  {
    if data != [] {
      FilteredDataIgnoresUnconfigured(data[1..], configs, values, k, v);
      forall i | 0 <= i < |configs|
        ensures Passes(data[0], configs[i], values[k := v]) == Passes(data[0], configs[i], values)
      {
        PassesReadsOwnValue(data[0], configs[i], values, k, v);
      }
      assert KeepItem(data[0], configs, values[k := v]) == KeepItem(data[0], configs, values);
    }
  }

  /**
   * An absent value, "" or "all" disables a filter of any kind (so a text
   * search for "all" matches everything), and so does an empty list for a
   * multi-select filter.
   */
  lemma DisabledValues(item: Value, config: FilterConfig, values: FilterValues)
    requires || config.id !in values
             || values[config.id] == Single("")
             || values[config.id] == Single("all")
             || (config.MultiSelectFilter? && values[config.id] == Many([]))
    ensures Passes(item, config, values)
  {
  }

  /** A value of the wrong shape for its filter (a list for a text or select filter, a string for a multi-select one) imposes nothing. */
  lemma ShapeMismatchPasses(item: Value, config: FilterConfig, values: FilterValues)
    requires config.id in values
    requires || (config.TextFilter? && values[config.id].Many?)
             || (config.SelectFilter? && values[config.id].Many?)
             || (config.MultiSelectFilter? && values[config.id].Single?)
    ensures Passes(item, config, values)
  {
  }

  /**
   * The text filter on an item whose name is localized text: it matches iff
   * the normalized term occurs in the normalized en, es or de name (or the
   * term normalizes to nothing).
   */
  lemma TextMatchesLocalizedName(item: Value, filterValue: string)
    requires Truthy(Prop(item, "name")) && !Prop(item, "name").Str?
    ensures TextCheck(item, filterValue) <==>
      var term := NormalizeString(filterValue);
      var name := Prop(item, "name");
      || term == ""
      || Includes(NormalizeText(Prop(name, "en")), term)
      || Includes(NormalizeText(Prop(name, "es")), term)
      || Includes(NormalizeText(Prop(name, "de")), term)
  {
    NormalizeIdempotent(filterValue);
  }

  /** A plain-string name is searched the same way: substring of its normal form. */
  lemma TextMatchesStringName(item: Value, filterValue: string)
    requires Prop(item, "name").Str? && Prop(item, "name").s != ""
    ensures TextCheck(item, filterValue) <==>
      var term := NormalizeString(filterValue);
      term == "" || Includes(NormalizeString(Prop(item, "name").s), term)
  {
    NormalizeIdempotent(filterValue);
  }

  /** Without a name the identifier is searched; without either the item is excluded. */
  lemma TextFallsBackToIdentifier(item: Value, filterValue: string)
    requires !Truthy(Prop(item, "name"))
    requires NormalizeString(filterValue) != ""
    ensures TextCheck(item, filterValue) <==>
      var ident := Prop(item, "identifier");
      ident.Str? && Includes(NormalizeString(ident.s), NormalizeString(filterValue))
  {
  }

  /** The text filter never reads the description. */
  lemma TextIgnoresDescription(fields: Document, d: Value, filterValue: string)
    ensures TextCheck(Obj(fields["description" := d]), filterValue) == TextCheck(Obj(fields), filterValue)
  {
    assert Prop(Obj(fields["description" := d]), "name") == Prop(Obj(fields), "name");
    assert Prop(Obj(fields["description" := d]), "identifier") == Prop(Obj(fields), "identifier");
  }

  /** A select filter excludes an item whose field is missing or neither a string nor localized text. */
  lemma SelectExcludesOtherShapes(item: Value, id: string, filterValue: string)
    requires !GetNestedValue(item, id).Str? && !IsLocalized(GetNestedValue(item, id))
    ensures !SelectCheck(item, id, filterValue)
  {
  }

  /** A multi-select filter keeps an array field iff some element matches a chosen value. */
  lemma MultiSelectArrayField(item: Value, id: string, chosen: seq<string>)
    requires |chosen| > 0 && GetNestedValue(item, id).Arr?
    ensures MultiSelectCheck(item, id, chosen) <==>
      exists e :: e in GetNestedValue(item, id).items && ElementMatches(e, NormalizeAll(chosen))
  {
  }

  /** A multi-select filter keeps a plain-string field iff it normalizes to one of the normalized choices. */
  lemma MultiSelectStringField(item: Value, id: string, chosen: seq<string>)
    requires |chosen| > 0 && GetNestedValue(item, id).Str?
    ensures MultiSelectCheck(item, id, chosen) <==>
      exists i :: 0 <= i < |chosen| && NormalizeString(chosen[i]) == NormalizeString(GetNestedValue(item, id).s)
  {
    var nfs := NormalizeAll(chosen);
    var x := NormalizeString(GetNestedValue(item, id).s);
    if x in nfs {
      var i :| 0 <= i < |nfs| && nfs[i] == x;
      assert NormalizeString(chosen[i]) == x;
    }
  }

  // ---------------------------------------------------------------------
  // generateDynamicOptions
  // ---------------------------------------------------------------------

  /** One entry of the `uniqueValuesMap`: a key and the labels stored under it. */
  datatype Entry = Entry(key: string, labels: Labels)

  /**
   * A value read as `MultiLanguageText` has string `en` and `es` and a string
   * or absent `de`, as the type declares (the source would fail on
   * `en.toLowerCase()` otherwise).
   */
  predicate WellTypedLocalized(v: Value)
  {
    IsLocalized(v) ==>
      v.Obj? && Prop(v, "en").Str? && Prop(v, "es").Str?
      && (Prop(v, "de").Str? || !Truthy(Prop(v, "de")))
  }

  predicate FieldWellTyped(data: seq<Value>, fieldId: string)
  {
    forall i :: 0 <= i < |data| ==> WellTypedLocalized(GetNestedValue(data[i], fieldId))
  }

  /** What one field value would put into the map, if its key is new. */
  function Contribution(v: Value): Option<Entry>
    requires WellTypedLocalized(v)
  {
    if !Truthy(v) then None
    else if v.Str? then Some(Entry(ToLowerCase(v.s), Labels(v.s, v.s, v.s)))
    else if IsObjectType(v) && HasProp(v, "en") then
      var en := Prop(v, "en").s;
      Some(Entry(ToLowerCase(en), Labels(en, Prop(v, "es").s, OrElse(Prop(v, "de"), Prop(v, "en")).s)))
    else None
  }

  function Keys(entries: seq<Entry>): set<string>
  {
    set e | e in entries :: e.key
  }

  /** `if (!map.has(key)) map.set(key, labels)`. */
  function AddEntry(entries: seq<Entry>, c: Option<Entry>): seq<Entry>
  {
    if c.None? || c.value.key in Keys(entries) then entries else entries + [c.value]
  }

  /** The map's entries, in insertion order, after the `forEach` over `data`. */
  function EntriesOf(data: seq<Value>, fieldId: string): seq<Entry>
    requires FieldWellTyped(data, fieldId)
  {
    if data == [] then []
    else
      var n := |data| - 1;
      assert FieldWellTyped(data[..n], fieldId) by {
        forall i | 0 <= i < n ensures data[..n][i] == data[i] { }
      }
      AddEntry(EntriesOf(data[..n], fieldId), Contribution(GetNestedValue(data[n], fieldId)))
  }

  /** `a[1][language] || a[1].en || ""`: the text entries are ordered by. */
  function SortLabel(l: Labels, language: Language): string
  {
    var inLanguage := if language == En then l.en else l.es;
    if inLanguage != "" then inLanguage else l.en
  }

  /** The comparator of the sort, given `le(a, b)` iff `a.localeCompare(b) <= 0`. */
  function ByLabel(language: Language, le: (string, string) -> bool): (Entry, Entry) -> bool
  {
    (a: Entry, b: Entry) => le(SortLabel(a.labels, language), SortLabel(b.labels, language))
  }

  function ToOptions(entries: seq<Entry>): (r: seq<SelectOption>)
    ensures |r| == |entries|
    ensures forall i :: 0 <= i < |entries| ==> r[i] == SelectOption(entries[i].key, entries[i].labels)
  {
    seq(|entries|, i requires 0 <= i < |entries| => SelectOption(entries[i].key, entries[i].labels))
  }

  /** The options `generateDynamicOptions` returns. */
  function DynamicOptions(data: seq<Value>, fieldId: string, language: Language,
                          le: (string, string) -> bool): seq<SelectOption>
    requires FieldWellTyped(data, fieldId)
  {
    ToOptions(SortBy(EntriesOf(data, fieldId), ByLabel(language, le)))
  }

  /** `generateDynamicOptions(data, fieldId, language)`: fill the map in one pass, then sort. */
  method GenerateDynamicOptions(data: seq<Value>, fieldId: string, language: Language,
                                le: (string, string) -> bool) returns (options: seq<SelectOption>)
    requires FieldWellTyped(data, fieldId)
    ensures options == DynamicOptions(data, fieldId, language, le)
  {
    var entries: seq<Entry> := [];
    var seen: set<string> := {};
    var i := 0;
    while i < |data|
      invariant 0 <= i <= |data|
      invariant entries == EntriesOf(data[..i], fieldId)
      invariant seen == Keys(entries)
    {
      assert data[..i + 1][..i] == data[..i];
      var value := GetNestedValue(data[i], fieldId);
      if Truthy(value) {
        if value.Str? {
          var key := ToLowerCase(value.s);
          if key !in seen {
            entries := entries + [Entry(key, Labels(value.s, value.s, value.s))];
            seen := seen + {key};
          }
        } else if IsObjectType(value) && HasProp(value, "en") {
          var en := Prop(value, "en").s;
          var key := ToLowerCase(en);
          if key !in seen {
            entries := entries + [Entry(key, Labels(en, Prop(value, "es").s, OrElse(Prop(value, "de"), Prop(value, "en")).s))];
            seen := seen + {key};
          }
        }
      }
      i := i + 1;
    }
    assert data[..|data|] == data;
    options := ToOptions(SortBy(entries, ByLabel(language, le)));
  }

  /** `item` makes key `k` wanted in the map. */
  predicate ContributesKey(item: Value, fieldId: string, k: string)
    requires WellTypedLocalized(GetNestedValue(item, fieldId))
  {
    var c := Contribution(GetNestedValue(item, fieldId));
    c.Some? && c.value.key == k
  }

  /** The map never holds a key twice. */
  lemma {:induction false} EntriesKeysUnique(data: seq<Value>, fieldId: string)
    requires FieldWellTyped(data, fieldId)
    ensures forall i, j :: 0 <= i < j < |EntriesOf(data, fieldId)| ==>
              EntriesOf(data, fieldId)[i].key != EntriesOf(data, fieldId)[j].key
    decreases |data|
  {
    if data != [] {
      var n := |data| - 1;
      assert FieldWellTyped(data[..n], fieldId) by {
        forall i | 0 <= i < n ensures data[..n][i] == data[i] { }
      }
      EntriesKeysUnique(data[..n], fieldId);
      var prev := EntriesOf(data[..n], fieldId);
      var c := Contribution(GetNestedValue(data[n], fieldId));
      if c.Some? && c.value.key !in Keys(prev) {
        forall i | 0 <= i < |prev| ensures prev[i].key != c.value.key {
          assert prev[i] in prev;
        }
      }
    }
  }

  /** There is an entry for key `k` iff some item contributes `k`. */
  lemma PrefixWellTyped(data: seq<Value>, fieldId: string, n: int)
    requires FieldWellTyped(data, fieldId) && 0 <= n <= |data|
    ensures FieldWellTyped(data[..n], fieldId)
  {
    forall i | 0 <= i < n ensures data[..n][i] == data[i] { }
  }

  /** Adding an entry adds its key, whether or not the key was there. */
  lemma KeysAddEntry(entries: seq<Entry>, c: Option<Entry>)
    ensures Keys(AddEntry(entries, c)) == Keys(entries) + (if c.Some? then {c.value.key} else {})
  {
    if c.Some? && c.value.key !in Keys(entries) {
      var grown := entries + [c.value];
      forall x | x in Keys(grown) ensures x in Keys(entries) + {c.value.key} {
        var e :| e in grown && e.key == x;
      }
      forall x | x in Keys(entries) ensures x in Keys(grown) {
        var e :| e in entries && e.key == x;
        assert e in grown;
      }
      assert c.value in grown;
    }
  }

  /** There is an entry for key `k` iff some item contributes `k`. */
  lemma {:induction false} EntriesKeysExactly(data: seq<Value>, fieldId: string, k: string)
    requires FieldWellTyped(data, fieldId)
    ensures k in Keys(EntriesOf(data, fieldId)) <==>
              exists i :: 0 <= i < |data| && ContributesKey(data[i], fieldId, k)
    decreases |data|
  {
    if data != [] {
      var n := |data| - 1;
      PrefixWellTyped(data, fieldId, n);
      var prefix := data[..n];
      EntriesKeysExactly(prefix, fieldId, k);
      var c := Contribution(GetNestedValue(data[n], fieldId));
      KeysAddEntry(EntriesOf(prefix, fieldId), c);
      assert k in Keys(EntriesOf(data, fieldId)) <==>
               k in Keys(EntriesOf(prefix, fieldId)) || ContributesKey(data[n], fieldId, k);
      if exists i :: 0 <= i < |data| && ContributesKey(data[i], fieldId, k) {
        var i :| 0 <= i < |data| && ContributesKey(data[i], fieldId, k);
        if i < n {
          assert prefix[i] == data[i];
        }
      }
      if exists i :: 0 <= i < n && ContributesKey(prefix[i], fieldId, k) {
        var i :| 0 <= i < n && ContributesKey(prefix[i], fieldId, k);
        assert prefix[i] == data[i];
      }
    }
  }

  /** The labels under each key are those of the first item that contributed it. */
  lemma {:induction false} EntriesFirstOccurrence(data: seq<Value>, fieldId: string, e: Entry)
    requires FieldWellTyped(data, fieldId)
    requires e in EntriesOf(data, fieldId)
    ensures exists i :: (0 <= i < |data|
      && Contribution(GetNestedValue(data[i], fieldId)) == Some(e)
      && forall j :: 0 <= j < i ==> !ContributesKey(data[j], fieldId, e.key))
    decreases |data|
  {
    var n := |data| - 1;
    assert FieldWellTyped(data[..n], fieldId) by {
      forall i | 0 <= i < n ensures data[..n][i] == data[i] { }
    }
    var prev := EntriesOf(data[..n], fieldId);
    if e in prev {
      EntriesFirstOccurrence(data[..n], fieldId, e);
      var i :| 0 <= i < n
        && Contribution(GetNestedValue(data[..n][i], fieldId)) == Some(e)
        && forall j :: 0 <= j < i ==> !ContributesKey(data[..n][j], fieldId, e.key);
      assert data[..n][i] == data[i];
      forall j | 0 <= j < i ensures !ContributesKey(data[j], fieldId, e.key) {
        assert data[..n][j] == data[j];
      }
    } else {
      var c := Contribution(GetNestedValue(data[n], fieldId));
      assert c == Some(e) && e.key !in Keys(prev);
      forall j | 0 <= j < n ensures !ContributesKey(data[j], fieldId, e.key) {
        if ContributesKey(data[j], fieldId, e.key) {
          assert data[..n][j] == data[j];
          EntriesKeysExactly(data[..n], fieldId, e.key);
        }
      }
    }
  }

  /** The comparator on entries is a total preorder when the label order is. */
  lemma ByLabelTotal(language: Language, le: (string, string) -> bool)
    requires TotalPreorder(le)
    ensures TotalPreorder(ByLabel(language, le))
  {
    var byLabel := ByLabel(language, le);
    forall a: Entry, b: Entry ensures byLabel(a, b) || byLabel(b, a) {
      assert le(SortLabel(a.labels, language), SortLabel(b.labels, language))
          || le(SortLabel(b.labels, language), SortLabel(a.labels, language));
    }
    forall a: Entry, b: Entry, c: Entry | byLabel(a, b) && byLabel(b, c) ensures byLabel(a, c) {
      var la, lb, lc := SortLabel(a.labels, language), SortLabel(b.labels, language), SortLabel(c.labels, language);
      assert le(la, lb) && le(lb, lc);
    }
  }

  /** The derived options are ordered by their label in the current language. */
  lemma DynamicOptionsSorted(data: seq<Value>, fieldId: string, language: Language,
                             le: (string, string) -> bool)
    requires FieldWellTyped(data, fieldId)
    requires TotalPreorder(le)
    ensures var opts := DynamicOptions(data, fieldId, language, le);
      forall i, j :: 0 <= i < j < |opts| ==>
        le(SortLabel(opts[i].caption, language), SortLabel(opts[j].caption, language))
  {
    ByLabelTotal(language, le);
    SortBySorted(EntriesOf(data, fieldId), ByLabel(language, le));
  }

  /** Keys(entries), as the values of the options. */
  function OptionValues(opts: seq<SelectOption>): set<string>
  {
    set o | o in opts :: o.value
  }

  /** No two derived options share a value. */
  lemma DynamicOptionsUnique(data: seq<Value>, fieldId: string, language: Language,
                             le: (string, string) -> bool)
    requires FieldWellTyped(data, fieldId)
    ensures var opts := DynamicOptions(data, fieldId, language, le);
      forall i, j :: 0 <= i < j < |opts| ==> opts[i].value != opts[j].value
  {
    var entries := EntriesOf(data, fieldId);
    EntriesKeysUnique(data, fieldId);
    PermutationKeepsKeysUnique(SortBy(entries, ByLabel(language, le)), entries);
  }

  /** There is an option with value `k` iff some item contributes key `k`. */
  lemma DynamicOptionsKeys(data: seq<Value>, fieldId: string, language: Language,
                           le: (string, string) -> bool, k: string)
    requires FieldWellTyped(data, fieldId)
    ensures k in OptionValues(DynamicOptions(data, fieldId, language, le)) <==>
              exists i :: 0 <= i < |data| && ContributesKey(data[i], fieldId, k)
  {
    var entries := EntriesOf(data, fieldId);
    var sorted := SortBy(entries, ByLabel(language, le));
    var opts := ToOptions(sorted);
    EntriesKeysExactly(data, fieldId, k);
    if k in OptionValues(opts) {
      var o :| o in opts && o.value == k;
      var i :| 0 <= i < |opts| && opts[i] == o;
      assert sorted[i] in multiset(entries);
    }
    if k in Keys(entries) {
      var e :| e in entries && e.key == k;
      assert e in multiset(sorted);
      var i :| 0 <= i < |sorted| && sorted[i] == e;
      assert opts[i] in opts;
    }
  }

  /** A reordering of entries with distinct keys still has distinct keys. */
  lemma PermutationKeepsKeysUnique(r: seq<Entry>, s: seq<Entry>)
    requires multiset(r) == multiset(s)
    requires forall i, j :: 0 <= i < j < |s| ==> s[i].key != s[j].key
    ensures forall i, j :: 0 <= i < j < |r| ==> r[i].key != r[j].key
  {
    forall i, j | 0 <= i < j < |r| ensures r[i].key != r[j].key {
      assert r[i] in multiset(s) && r[j] in multiset(s);
      var a :| 0 <= a < |s| && s[a] == r[i];
      var b :| 0 <= b < |s| && s[b] == r[j];
      if r[i].key == r[j].key {
        assert a == b;
        SameCountInSeqs(r, i, j);
        DistinctKeysHaveCountOne(s, a);
        assert false;
      }
    }
  }

  lemma SameCountInSeqs<T>(s: seq<T>, i: int, j: int)
    requires 0 <= i < j < |s| && s[i] == s[j]
    ensures multiset(s)[s[i]] >= 2
  {
    var x := s[i];
    assert s == s[..i] + [s[i]] + s[i + 1..j] + [s[j]] + s[j + 1..];
    assert multiset(s) == multiset(s[..i]) + multiset{x} + multiset(s[i + 1..j]) + multiset{x} + multiset(s[j + 1..]);
  }

  lemma DistinctKeysHaveCountOne(entries: seq<Entry>, a: int)
    requires 0 <= a < |entries|
    requires forall i, j :: 0 <= i < j < |entries| ==> entries[i].key != entries[j].key
    ensures multiset(entries)[entries[a]] == 1
  {
    var x := entries[a];
    assert entries == entries[..a] + [x] + entries[a + 1..];
    assert x !in multiset(entries[..a]);
    assert x !in multiset(entries[a + 1..]);
  }

  // ---------------------------------------------------------------------
  // enrichedConfigs
  // ---------------------------------------------------------------------

  /** A select or multi-select configuration with `dynamicOptions` set. */
  predicate IsDynamic(config: FilterConfig)
  {
    (config.SelectFilter? || config.MultiSelectFilter?) && config.dynamicOptions
  }

  /** `{ value: "all", label: config.placeholder || config.caption }`. */
  function AllOption(config: FilterConfig): (o: SelectOption)
    ensures o.value == "all"
  {
    SelectOption("all", config.placeholder.GetOr(config.caption))
  }

  predicate SameKind(a: FilterConfig, b: FilterConfig)
  {
    (a.TextFilter? <==> b.TextFilter?) && (a.SelectFilter? <==> b.SelectFilter?)
    && (a.MultiSelectFilter? <==> b.MultiSelectFilter?)
  }

  /** The data can be enriched for `configs`: dynamic fields are well typed. */
  predicate EnrichableFor(data: seq<Value>, configs: seq<FilterConfig>)
  {
    forall i :: 0 <= i < |configs| && IsDynamic(configs[i]) ==> FieldWellTyped(data, configs[i].id)
  }

  /** One element of `filterConfigs.map(...)` in `enrichedConfigs`. */
  function EnrichConfig(config: FilterConfig, data: seq<Value>, language: Language,
                        le: (string, string) -> bool): (r: FilterConfig)
    requires IsDynamic(config) ==> FieldWellTyped(data, config.id)
    ensures r.id == config.id && SameKind(r, config)
  {
    if IsDynamic(config) then
      config.(options := Some([AllOption(config)] + DynamicOptions(data, config.id, language, le)))
    else config
  }

  /** `enrichedConfigs`. */
  function EnrichedConfigs(configs: seq<FilterConfig>, data: seq<Value>, language: Language,
                           le: (string, string) -> bool): (r: seq<FilterConfig>)
    requires EnrichableFor(data, configs)
    ensures |r| == |configs|
    ensures forall i :: 0 <= i < |configs| ==> r[i] == EnrichConfig(configs[i], data, language, le)
  {
    seq(|configs|, i requires 0 <= i < |configs| && EnrichableFor(data, configs) =>
      EnrichConfig(configs[i], data, language, le))
  }

  /**
   * Enrichment keeps order, count, ids and kinds; it leaves every other
   * configuration unchanged and gives a dynamic one the "all" option first,
   * labelled by its placeholder or else its label, followed by the derived
   * options and nothing else changed.
   */
  lemma EnrichedConfigsShape(configs: seq<FilterConfig>, data: seq<Value>, language: Language,
                             le: (string, string) -> bool, i: int)
    requires EnrichableFor(data, configs)
    requires 0 <= i < |configs|
    ensures var r := EnrichedConfigs(configs, data, language, le)[i];
      && r.id == configs[i].id && SameKind(r, configs[i])
      && (!IsDynamic(configs[i]) ==> r == configs[i])
      && (IsDynamic(configs[i]) ==>
            && r.options.Some? && |r.options.value| >= 1
            && r.options.value[0] == SelectOption("all", configs[i].placeholder.GetOr(configs[i].caption))
            && r.options.value[1..] == DynamicOptions(data, configs[i].id, language, le)
            && r == configs[i].(options := r.options))
  {
    var r := EnrichedConfigs(configs, data, language, le)[i];
    if IsDynamic(configs[i]) {
      var opts := [AllOption(configs[i])] + DynamicOptions(data, configs[i].id, language, le);
      assert r.options == Some(opts);
      assert opts[1..] == DynamicOptions(data, configs[i].id, language, le);
    }
  }

  lemma PassesDependsOnIdAndKind(item: Value, a: FilterConfig, b: FilterConfig, values: FilterValues)
    requires a.id == b.id && SameKind(a, b)
    ensures Passes(item, a, values) == Passes(item, b, values)
  {
  }

  /** Filtering against the enriched configurations is filtering against the given ones. */
  lemma {:induction false} FilteredDataEnriched(data: seq<Value>, configs: seq<FilterConfig>,
                                                source: seq<Value>, language: Language,
                                                le: (string, string) -> bool, values: FilterValues)
    requires EnrichableFor(source, configs)
    ensures FilteredData(data, EnrichedConfigs(configs, source, language, le), values)
         == FilteredData(data, configs, values)
    decreases |data|
  {
    if data != [] {
      FilteredDataEnriched(data[1..], configs, source, language, le, values);
      var enriched := EnrichedConfigs(configs, source, language, le);
      forall i | 0 <= i < |configs|
        ensures Passes(data[0], enriched[i], values) == Passes(data[0], configs[i], values)
      {
        PassesDependsOnIdAndKind(data[0], enriched[i], configs[i], values);
      }
      assert KeepItem(data[0], enriched, values) == KeepItem(data[0], configs, values);
    }
  }

  // ---------------------------------------------------------------------
  // hasActiveFilters
  // ---------------------------------------------------------------------

  /**
   * `hasActiveFilters` as written: the callback of `.some(([value]) => ...)`
   * receives each entry's KEY, which is never an array, so the test is on the
   * filter ids and not on their values.
   */
  predicate HasActiveFiltersAsWritten(values: FilterValues)
  {
    exists k :: k in values && k != "" && k != "all"
  }

  /** What the callback evidently means: some entry holds a non-empty list, or a string other than "" and "all". */
  predicate IsActiveValue(v: FilterValue)
  {
    if v.Many? then |v.vs| > 0 else v.s != "" && v.s != "all"
  }

  predicate HasActiveFilters(values: FilterValues)
  {
    exists k :: k in values && IsActiveValue(values[k])
  }

  /** As written, an entry holding "" still reports an active filter, although it filters nothing. */
  lemma HasActiveFiltersAsWrittenCounterexample(data: seq<Value>, configs: seq<FilterConfig>)
    ensures HasActiveFiltersAsWritten(map["search" := Single("")])
    ensures !HasActiveFilters(map["search" := Single("")])
    ensures FilteredData(data, configs, map["search" := Single("")]) == data
  {
    var values := map["search" := Single("")];
    assert "search" in values;
    forall i | 0 <= i < |data| ensures KeepItem(data[i], configs, values) {
      forall j | 0 <= j < |configs| ensures Passes(data[i], configs[j], values) {
        DisabledValues(data[i], configs[j], values);
      }
    }
    FilteredDataAllKept(data, configs, values);
  }

  /** With the intended test, "no active filter" means the data passes through untouched. */
  lemma InactiveFiltersKeepAll(data: seq<Value>, configs: seq<FilterConfig>, values: FilterValues)
    requires !HasActiveFilters(values)
    ensures FilteredData(data, configs, values) == data
  {
    forall i | 0 <= i < |data| ensures KeepItem(data[i], configs, values) {
      forall j | 0 <= j < |configs| ensures Passes(data[i], configs[j], values) {
        var c := configs[j];
        if c.id in values {
          assert !IsActiveValue(values[c.id]);
        }
      }
    }
    FilteredDataAllKept(data, configs, values);
  }

  // ---------------------------------------------------------------------
  // The held filter state
  // ---------------------------------------------------------------------

  /** The `filterValues` state of one `useFilters` instance. */
  class FilterState {
    var values: FilterValues

    /** `useState<FilterValues>({})`. */
    constructor ()
      ensures values == map[]
    {
      values := map[];
    }

    /** `setFilterValue(filterId, value)`: only that id's entry changes. */
    method SetFilterValue(filterId: string, value: FilterValue)
      modifies this
      ensures values == old(values)[filterId := value]
      ensures forall k :: k != filterId ==> (k in values <==> k in old(values))
      ensures forall k :: k != filterId && k in values ==> values[k] == old(values)[k]
    {
      values := values[filterId := value];
    }

    /** `clearFilters()`: back to the empty map, which lets every item through. */
    method ClearFilters()
      modifies this
      ensures values == map[]
      ensures forall data: seq<Value>, configs: seq<FilterConfig> ::
                FilteredData(data, configs, values) == data
    {
      values := map[];
      forall data: seq<Value>, configs: seq<FilterConfig>
        ensures FilteredData(data, configs, values) == data
      {
        FilteredDataNoValues(data, configs);
      }
    }

    /** `hasActiveFilters`, as written (it tests the ids). */
    function HasActive(): (r: bool)
      reads this
      ensures r <==> exists k :: k in values && k != "" && k != "all"
    {
      HasActiveFiltersAsWritten(values)
    }

    /** `filteredData` for the held values. */
    function Filtered(data: seq<Value>, configs: seq<FilterConfig>): (r: seq<Value>)
      reads this
      ensures IsSubsequence(r, data)
      ensures forall x :: x in r <==> x in data && KeepItem(x, configs, values)
    {
      FilteredDataIsSubsequence(data, configs, values);
      forall x ensures x in FilteredData(data, configs, values) <==> x in data && KeepItem(x, configs, values) {
        FilteredDataMembers(data, configs, values, x);
      }
      FilteredData(data, configs, values)
    }
  }
}
