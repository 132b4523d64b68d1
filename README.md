# Heralds of Chaos — verified model of the filter engine and data layer

This project is a Dafny model of the core of *Heralds of Chaos*, a read-only
encyclopedia of Norse mythology. The site shows five kinds of entity:
characters, creatures, items, worlds and places. The model covers the following parts.

- **Filter engine** (`use_filters.dfy`, `filters_constants.dfy`). This is the `useFilters` hook.
  - Its helpers: `normalizeText`, `multiLanguageTextMatches` and the dot-path getter.
  - Dynamic option generation.
  - The enriched configs.
  - The held filter-value map, modelled as a class `FilterState`.
  - The filtered view.
  - The four concrete filter lists of the site.
- **Text folding** (`text_normalize.dfy`): lower-casing, then canonical decomposition, then removal of combining marks. `js_strings.dfy` holds the string primitives it uses.
- **Document serialisation and the base repository** (`base_repository.dfy`).
  - `serializeDocument` is an imperative method over the document's keys. It is proved equal to a declarative definition.
  - `findAll`, `findByIdentifier`, `findById`, `findByFilter`, `count` and `exists` run against an abstract collection. The collection holds documents, an optional failure, a matching relation and a value order.
- **Query construction** (`mongo_query.dfy` plus one file per entity repository). A Mongo filter object is a map from keys to conditions. The `Object.assign` steps of `findWithFilters` are modelled as successive map overrides in a method. That method is proved equal to a declarative query.
- **Services.** These are error-translating wrappers with fixed per-operation messages. For worlds and places they also join entities.
  - `world_service.dfy` extracts place ids and builds place summaries.
  - `place_service.dfy` enriches a place with a world summary.
- **The characters page join** (`characters_page.dfy`). Each character's world reference is replaced by a world summary, or by the `"unknown"` placeholder.
- **Small state machines and helpers.**
  - the fetch loading state (`use_fetch_data.dfy`);
  - the language and theme stores (`use_language.dfy`, `use_theme.dfy`);
  - the dot-path translation lookup (`use_translations.dfy`);
  - route builders and section titles (`routes_constants.dfy`).

JavaScript values are one datatype, `JsValue.Value`:
- undefined, null, booleans, integers, strings and arrays;
- objects, as maps from keys to values;
- BSON ObjectIds, carried by their hex text.

`Prop` models optional property access (`?.`). `Truthy` models JavaScript truthiness.

A thrown value is `Error(message)` or a non-`Error` value. Operations that may throw return a `Result`.

## Behaviour of the code worth knowing

- **`hasActiveFilters`** destructures each entry's *key*, not its value (hooks/use-filters.ts:180). So it reports "active" whenever some key other than `""` or `"all"` is set, even when that key holds `""`. See Findings.
- **Place-reference normalisation** in `getWorldWithPlaces` (lib/services/world.service.ts:53-59).
  - A `null` or `undefined` entry in `places` throws: the `map` callback reads `p.$id` on it. The error is then translated into the service's message.
  - `serializeDocument` has already turned a DBRef whose `$id` is a plain object into the text `"[object Object]"` (lib/database/repositories/base.repository.ts:47-48). Such a reference is then kept as that string.
- **The characters page** reads a string `world` or `world.$id.$oid`, but never `world.oid` (app/characters/page.tsx:28-34).
  - On a character document that has not been serialized, a `{oid}` reference therefore yields the unknown-world placeholder (CharactersPage.OidReferenceIgnored).
  - The page gets its characters from `getAllCharacters`, which serializes them. That step has already turned a non-array `{oid}` reference into its oid string (lib/database/repositories/base.repository.ts:58-60). The page then looks that string up like any other (CharactersPage.SerializedOidReferenceResolves).
- **`place.repository.findWithFilters`** never reads `worldId`.
- **Combined filters.** When both `race` (or `type`) and `search` are given, the later `$or` replaces the search clause.

## Model

| member | source | states |
|---|---|---|
| TextNormalize.NormalizeText | hooks/use-filters.ts:19-25 | a non-string (null, undefined, number, object) normalises to ""; a string is folded by lower-case → decompose → strip marks |
| TextNormalize.StripMarks | hooks/use-filters.ts:24 | no character in U+0300–U+036F remains, and the text does not grow |
| TextNormalize.StripMarksExactly | hooks/use-filters.ts:24 | removing marks gives back a text without marks unchanged, and turns a text of marks alone into "" |
| TextNormalize.StripMarksConcat | hooks/use-filters.ts:24 | removing marks distributes over concatenation, so with the single-character cases above exactly the marks are removed and every other character is kept in order |
| TextNormalize.Decompose | hooks/use-filters.ts:23 | a character decomposes to itself or to one base character followed by one combining mark |
| TextNormalize.NormalizeStringConcat | hooks/use-filters.ts:19-25 | folding distributes over concatenation, so it works character by character |
| TextNormalize.NormalizeStringIsNormal | hooks/use-filters.ts:19-25 | a folded string contains no upper-case Latin letter, no precomposed accented letter and no combining mark |
| TextNormalize.NormalizeIdempotent | hooks/use-filters.ts:19-25 | folding twice equals folding once |
| TextNormalize.NormalizeAsciiLetters | hooks/use-filters.ts:19-25 | on plain ASCII letters, folding is just lower-casing |
| TextNormalize.NormalizeOdin | hooks/use-filters.ts:19-25 | "ODIN" and "Odín" both fold to "odin"; null, undefined and a number fold to "" |
| JsStrings.ToLowerCase | hooks/use-filters.ts:22 | the length is kept and each character is lower-cased on its own |
| JsStrings.IncludesIffOccurs | hooks/use-filters.ts:48 | `includes` holds iff the needle occurs at some index of the haystack |
| JsStrings.JoinSplit | hooks/use-filters.ts:59 | joining the segments of `split(sep)` with `sep` gives back the input |
| JsStrings.SplitNoSeparator | hooks/use-filters.ts:59 | a key without a separator splits into the single segment itself |
| UseFilters.NestedTwoSegments | hooks/use-filters.ts:58-59 | `getNestedValue(obj, "a.b")` is `obj?.a?.b` for dot-free a and b |
| UseFilters.NestedOneSegment | hooks/use-filters.ts:58-59 | a dot-free path reads one property |
| UseFilters.WalkUndefined | hooks/use-filters.ts:59 | once the reduce reaches undefined, it stays undefined |
| UseFilters.FilteredDataIsSubsequence | hooks/use-filters.ts:191-193 | the filtered data is a subsequence of the data, in the original order |
| UseFilters.FilteredDataMembers | hooks/use-filters.ts:191-193 | an item is in the result iff it is in the data and passes every config |
| UseFilters.FilteredDataAllKept | hooks/use-filters.ts:191-193 | when every item passes, the result is the data itself |
| UseFilters.FilteredDataNoValues | hooks/use-filters.ts:191-199 | with the empty value map, nothing is filtered out |
| UseFilters.PassesReadsOwnValue | hooks/use-filters.ts:194 | a config's check reads only the value stored under its own id |
| UseFilters.FilteredDataIgnoresUnconfigured | hooks/use-filters.ts:193-194 | setting a value under an id that no config has leaves the result unchanged |
| UseFilters.DisabledValues | hooks/use-filters.ts:196-245 | an absent, "" or "all" value (a text search for "all" included), or an empty multi-select list, imposes no constraint |
| UseFilters.ShapeMismatchPasses | hooks/use-filters.ts:286 | a config/value shape mismatch (text or select with a list, multi-select with a string) imposes no constraint |
| UseFilters.TextMatchesLocalizedName | hooks/use-filters.ts:202-217 | with a localized name, the text check holds iff the folded term is in the folded en, es or de name |
| UseFilters.TextMatchesStringName | hooks/use-filters.ts:202-217 | with a non-empty string name, the text check is a folded-substring test on it |
| UseFilters.TextFallsBackToIdentifier | hooks/use-filters.ts:208-215 | with no name, the check is a folded-substring test on `identifier`, and it fails without one |
| UseFilters.TextIgnoresDescription | hooks/use-filters.ts:202-217 | changing `description` never changes the text check |
| UseFilters.SelectExcludesOtherShapes | hooks/use-filters.ts:220-239 | a select filter excludes an item whose field is missing or is neither a string nor a localized text |
| UseFilters.MultiSelectArrayField | hooks/use-filters.ts:265-281 | on an array field, a multi-select keeps the item iff some chosen value equals some element (string or any locale) |
| UseFilters.MultiSelectStringField | hooks/use-filters.ts:250-252 | on a string field, a multi-select keeps the item iff some folded chosen value equals the folded field |
| UseFilters.GenerateDynamicOptions | hooks/use-filters.ts:65-114 | the Map-filling loop yields exactly the options of the declarative definition (first occurrence per key, sorted by label) |
| UseFilters.EntriesKeysUnique | hooks/use-filters.ts:83-96 | no two collected entries share a key |
| UseFilters.EntriesKeysExactly | hooks/use-filters.ts:76-99 | a key is collected iff some item contributes it: the lower-cased string, or the lower-cased en of localized text |
| UseFilters.EntriesFirstOccurrence | hooks/use-filters.ts:83-96 | each entry's labels come from the first item that contributes its key |
| UseFilters.DynamicOptionsSorted | hooks/use-filters.ts:102-107 | the options are sorted by their label in the active language (en as fallback), under any total preorder |
| UseFilters.DynamicOptionsUnique | hooks/use-filters.ts:65-114 | the option values are pairwise distinct |
| UseFilters.DynamicOptionsKeys | hooks/use-filters.ts:65-114 | a value is an option iff some item contributes it |
| UseFilters.EnrichedConfigs | hooks/use-filters.ts:132-157 | the configs keep their order and count, each one enriched on its own |
| UseFilters.EnrichedConfigsShape | hooks/use-filters.ts:132-157 | a dynamic select or multi-select gets [all] + generated options, and any other config is unchanged |
| UseFilters.AllOption | hooks/use-filters.ts:147-150 | the prepended option has the value "all" and is labelled with the placeholder, or else the label |
| UseFilters.FilteredDataEnriched | hooks/use-filters.ts:191-193 | filtering with enriched configs equals filtering with the plain configs |
| UseFilters.HasActiveFiltersAsWrittenCounterexample | hooks/use-filters.ts:179-186 | `{search: ""}` counts as active as written, yet it filters nothing and is inactive by values |
| UseFilters.InactiveFiltersKeepAll | hooks/use-filters.ts:179-199 | when no value is active (by value), the filtered data is the data |
| UseFilters.FilterState.constructor | hooks/use-filters.ts:127 | the value map starts empty |
| UseFilters.FilterState.SetFilterValue | hooks/use-filters.ts:161-166 | only the given id's entry changes |
| UseFilters.FilterState.ClearFilters | hooks/use-filters.ts:171-173 | the map becomes empty, and the filtered data of any data set is then that data |
| UseFilters.FilterState.HasActive | hooks/use-filters.ts:179-186 | true iff some key other than "" or "all" is present (as written) |
| UseFilters.FilterState.Filtered | hooks/use-filters.ts:191-289 | the held view is a subsequence of the data, holding exactly the data items that pass every config |
| Sorting.SortBySorted | hooks/use-filters.ts:102-107 | the sort yields a sequence ordered by any total preorder |
| Sorting.SortBy | hooks/use-filters.ts:102-107 | sorting is a permutation |
| FiltersConstants.FilterListsShape | constants/filters.constants.ts:6-141 | character: search/race/world.name; creature: search/race; item: search/type; place: search — with their types, in that order |
| FiltersConstants.FilterListsWellFormed | constants/filters.constants.ts:6-141 | ids are unique in each list, no list uses multiSelect, and every select is dynamic with a placeholder |
| FiltersConstants.EnrichedSelectStartsWithAll | constants/filters.constants.ts:22-119 | each enriched select of the site's lists starts with "all" labelled by its placeholder |
| FiltersConstants.CharacterScenario | constants/filters.constants.ts:6-51 | for Thor (God/Dios) and Loki: search "lo" keeps only Loki, race "god" only Thor, both nothing, and race "go" nothing (select is exact) |
| FiltersConstants.ThorRace | hooks/use-filters.ts:220-239 | race {God, Dios} matches the select value "god" but not "go" |
| CommonTypes.TextValue | types/common.types.ts:4-8 | a multi-language text is an object with en and es, and de only when present |
| BaseRepository.SerializeDocument | lib/database/repositories/base.repository.ts:10-65 | the key-by-key rewrite loop yields the declarative serialised document, and null or undefined are returned unchanged |
| BaseRepository.SerializedKeysAndId | lib/database/repositories/base.repository.ts:13-18 | the output has exactly the input's keys, and a truthy `_id` becomes its string |
| BaseRepository.SerializedArrayField | lib/database/repositories/base.repository.ts:25-45 | an array keeps its length and order; an element becomes String($id), else String(oid), else an ObjectId's hex, else stays as it is |
| BaseRepository.SerializedScalarField | lib/database/repositories/base.repository.ts:47-61 | a non-array becomes String($id), else an ObjectId's hex, else String(oid), else stays as it is |
| BaseRepository.SerializedOneLevel | lib/database/repositories/base.repository.ts:21-62 | an object field without a reference shape, such as localized text, is left untouched |
| BaseRepository.SerializedIdempotent | lib/database/repositories/base.repository.ts:10-65 | serialising twice equals serialising once |
| BaseRepository.ElementsSerialized | lib/database/repositories/base.repository.ts:26-44 | the array map keeps every element, with none dropped and each rewritten on its own |
| BaseRepository.FindAll | lib/database/repositories/base.repository.ts:85-94 | a failure is rethrown unchanged; otherwise every document comes back serialised |
| BaseRepository.FindAllOrdered | lib/database/repositories/base.repository.ts:85-94 | with a sort, the result is the serialised permutation of the collection that is ordered on the sort path |
| BaseRepository.FirstWith | lib/database/repositories/base.repository.ts:102 | no match iff no document has the field value; otherwise a match exists |
| BaseRepository.FindByIdentifier | lib/database/repositories/base.repository.ts:99-108 | a failure is rethrown; null iff no document has the identifier; otherwise the serialised match |
| BaseRepository.FindByIdentifierMissing | lib/database/repositories/base.repository.ts:99-108 | an identifier that no document has gives null and no error |
| BaseRepository.FindById | lib/database/repositories/base.repository.ts:113-124 | a failure is rethrown; an id that is not 24 hex digits throws the ObjectId error; otherwise null iff no document has that ObjectId as `_id`, and a found result is the serialized first such document |
| BaseRepository.Select | lib/database/repositories/base.repository.ts:132 | the store selects exactly the documents that match, and never more |
| BaseRepository.FindByFilter | lib/database/repositories/base.repository.ts:129-138 | the serialised matching documents, or the rethrown failure |
| BaseRepository.Count | lib/database/repositories/base.repository.ts:143-151 | the number of matching documents, or the rethrown failure |
| BaseRepository.Exists | lib/database/repositories/base.repository.ts:156-159 | `exists` is `count > 0`, and a count failure propagates |
| BaseRepository.ExistsIffSomeMatch | lib/database/repositories/base.repository.ts:156-159 | exists holds iff some document matches |
| BaseRepository.EmptyFilterSelectsAll | lib/database/repositories/base.repository.ts:129-138 | the empty filter selects every document |
| MongoQuery.Assign | lib/database/repositories/character.repository.ts:36-60 | `Object.assign` gives the union of keys, where the later source wins and other target keys are kept |
| MongoQuery.SearchClauses | lib/database/repositories/character.repository.ts:42-51 | search is four case-insensitive regex clauses on name.es, name.en, description.es and description.en, with the term verbatim |
| MongoQuery.LocaleClauses | lib/database/repositories/character.repository.ts:53-60 | the race/type constraint is two case-insensitive clauses on field.es and field.en |
| MongoQuery.SearchSkipsGerman | lib/database/repositories/character.repository.ts:42-51 | no search clause looks at the de locale |
| CharacterRepository.ByWorldQuery | lib/database/repositories/character.repository.ts:18-20 | findByWorld queries exactly `{"world.$id.$oid": worldId}` |
| CharacterRepository.FindByWorld | lib/database/repositories/character.repository.ts:16-27 | the serialised documents matching that query, or the rethrown failure |
| CharacterRepository.BuildFiltersQuery | lib/database/repositories/character.repository.ts:32-62 | the step-by-step `Object.assign` construction yields the declarative query |
| CharacterRepository.FiltersQueryKeys | lib/database/repositories/character.repository.ts:34-60 | a world key iff worldId is given (equal to it), `$or` iff race or search is given, and no other key |
| CharacterRepository.NoFiltersEmptyQuery | lib/database/repositories/character.repository.ts:34-62 | with no filter set, the query is empty |
| CharacterRepository.RaceOverridesSearch | lib/database/repositories/character.repository.ts:53-60 | with race given, `$or` is the race clauses, and the query is the same as with no search |
| CharacterRepository.SearchClausesWithoutRace | lib/database/repositories/character.repository.ts:42-51 | search without race gives the four search clauses |
| CharacterRepository.FindWithFilters | lib/database/repositories/character.repository.ts:32-67 | the serialised documents matching the built query, or the rethrown failure |
| CharacterRepository.NoFiltersFetchAll | lib/database/repositories/character.repository.ts:34-62 | no filters behave as findAll |
| CreatureRepository.BuildFiltersQuery | lib/database/repositories/creature.repository.ts:16-40 | the `Object.assign` steps yield the declarative query |
| CreatureRepository.FiltersQueryKeys | lib/database/repositories/creature.repository.ts:18-40 | the query is `{$or}` iff race or search is given, else empty |
| CreatureRepository.RaceOverridesSearch | lib/database/repositories/creature.repository.ts:31-38 | race replaces the search `$or` |
| CreatureRepository.SearchClausesWithoutRace | lib/database/repositories/creature.repository.ts:20-29 | search alone is the four-clause `$or` |
| CreatureRepository.FindWithFilters | lib/database/repositories/creature.repository.ts:16-45 | the serialised matches of the query, or the rethrown failure |
| CreatureRepository.NoFiltersFetchAll | lib/database/repositories/creature.repository.ts:18-40 | empty filters behave as findAll |
| ItemRepository.BuildFiltersQuery | lib/database/repositories/item.repository.ts:16-40 | the `Object.assign` steps yield the declarative query |
| ItemRepository.FiltersQueryKeys | lib/database/repositories/item.repository.ts:18-40 | the query is `{$or}` iff type or search is given, else empty |
| ItemRepository.TypeOverridesSearch | lib/database/repositories/item.repository.ts:31-38 | type replaces the search `$or` |
| ItemRepository.SearchClausesWithoutType | lib/database/repositories/item.repository.ts:20-29 | search alone is the four-clause `$or` |
| ItemRepository.FindWithFilters | lib/database/repositories/item.repository.ts:16-45 | the serialised matches of the query, or the rethrown failure |
| ItemRepository.NoFiltersFetchAll | lib/database/repositories/item.repository.ts:18-40 | empty filters behave as findAll |
| PlaceRepository.ByIdsQuery | lib/database/repositories/place.repository.ts:18-20 | `{_id: {$in: ids}}` holds the ids as strings, in order, with no ObjectId conversion |
| PlaceRepository.FindByIds | lib/database/repositories/place.repository.ts:16-27 | the serialised matches of that query, or the rethrown failure |
| PlaceRepository.FindByObjectIds | lib/database/repositories/place.repository.ts:16-27 | corrected `findByIds`: any malformed id throws the ObjectId error; otherwise the lookup runs with every id converted to the ObjectId `findById` would build |
| PlaceRepository.BuildFiltersQuery | lib/database/repositories/place.repository.ts:32-47 | the `Object.assign` step yields the declarative query |
| PlaceRepository.FiltersIgnoreWorld | lib/database/repositories/place.repository.ts:32-47 | `worldId` never affects the query |
| PlaceRepository.FiltersQueryShape | lib/database/repositories/place.repository.ts:34-45 | an empty search gives the empty query; otherwise the four-clause `$or` |
| PlaceRepository.FindWithFilters | lib/database/repositories/place.repository.ts:32-52 | the serialised matches of the query, or the rethrown failure |
| WorldRepository.FindAllSorted | lib/database/repositories/world.repository.ts:15-22 | a failure is rethrown; otherwise all the worlds come back |
| WorldRepository.FindAllSortedOrder | lib/database/repositories/world.repository.ts:15-17 | the worlds are the serialised collection, permuted into ascending `name.en` order |
| ServiceErrors.Translated | lib/services/character.service.ts:15-18 | a success passes through, and any failure becomes `Error(message)` |
| ServiceErrors.Guarded | lib/services/character.service.ts:24-39 | an empty identifier fails with the operation's message whatever the store holds; otherwise the lookup, translated |
| CharacterService.GetAllCharacters | lib/services/character.service.ts:12-19 | the serialised list, or "Failed to fetch characters" |
| CharacterService.GetCharacterByIdentifier | lib/services/character.service.ts:24-40 | "" or a failure gives "Failed to fetch character"; otherwise the repository result, null included |
| CharacterService.GetCharactersByWorld | lib/services/character.service.ts:45-56 | "" or a failure gives "Failed to fetch characters by world"; otherwise the findByWorld result |
| CharacterService.SearchCharacters | lib/services/character.service.ts:61-68 | the filters are passed on unchanged; a failure gives "Failed to search characters" |
| CharacterService.CountCharacters | lib/services/character.service.ts:73-80 | the number of documents, or "Failed to count characters" |
| CharacterService.GuardsIgnoreRepository | lib/services/character.service.ts:24-56 | with an empty identifier, the result does not depend on the collection |
| CharacterService.UnknownCharacterIsNull | lib/services/character.service.ts:32 | an unknown identifier gives null and no error |
| CreatureService.GetAllCreatures | lib/services/creature.service.ts:12-19 | the serialised list, or "Failed to fetch creatures" |
| CreatureService.GetCreatureByIdentifier | lib/services/creature.service.ts:24-35 | "" or a failure gives "Failed to fetch creature"; otherwise the repository result |
| CreatureService.SearchCreatures | lib/services/creature.service.ts:40-47 | the filters are passed on unchanged; a failure gives "Failed to search creatures" |
| CreatureService.CountCreatures | lib/services/creature.service.ts:52-59 | the count, or "Failed to count creatures" |
| CreatureService.GuardIgnoresRepository | lib/services/creature.service.ts:26-28 | the empty-identifier failure does not depend on the collection |
| ItemService.GetAllItems | lib/services/item.service.ts:12-19 | the serialised list, or "Failed to fetch items" |
| ItemService.GetItemByIdentifier | lib/services/item.service.ts:24-35 | "" or a failure gives "Failed to fetch item"; otherwise the repository result |
| ItemService.SearchItems | lib/services/item.service.ts:40-47 | the filters are passed on unchanged; a failure gives "Failed to search items" |
| ItemService.CountItems | lib/services/item.service.ts:52-59 | the count, or "Failed to count items" |
| ItemService.GuardIgnoresRepository | lib/services/item.service.ts:26-28 | the empty-identifier failure does not depend on the collection |
| WorldService.GetAllWorlds | lib/services/world.service.ts:13-20 | the English-name-sorted list, or "Failed to fetch worlds" |
| WorldService.GetWorldByIdentifier | lib/services/world.service.ts:25-36 | "" or a failure gives "Failed to fetch world"; otherwise the repository result |
| WorldService.CountWorlds | lib/services/world.service.ts:80-87 | the count, or "Failed to count worlds" |
| WorldService.PlaceIdOf | lib/services/world.service.ts:53-59 | a string is kept; the callback throws exactly on null and undefined; otherwise `$id.$oid` when it is truthy and `$id` when it is not |
| WorldService.MappedIds | lib/services/world.service.ts:52-59 | the map succeeds iff every element does, and then maps pointwise |
| WorldService.StringsOf | lib/services/world.service.ts:60 | the filter keeps exactly the string ids, never adding any |
| WorldService.PlaceIds | lib/services/world.service.ts:52-60 | a place list yields ids iff it is an array with no null or undefined entry |
| WorldService.StringIdsKept | lib/services/world.service.ts:52-60 | a list of string ids is kept as it is, in order |
| WorldService.SerializedPlaceRefs | lib/services/world.service.ts:52-60 | after serialisation, `["p1", {$id:{$oid:"p2"}}, {oid:"p3"}]` yields the ids "p1", "[object Object]", "p3" |
| WorldService.PlaceSummary | lib/services/world.service.ts:64-69 | `{identifier, name: name.en}`, and it throws iff `name` is null or undefined |
| WorldService.PlaceSummaries | lib/services/world.service.ts:64-69 | summaries succeed iff each does, and keep the order of the places found |
| WorldService.GetWorldWithPlaces | lib/services/world.service.ts:41-75 | every failure, "" included, is "Failed to fetch world with places", and a missing world gives null |
| WorldService.WorldWithPlacesResult | lib/services/world.service.ts:62-70 | the world with `places` replaced by the summaries of the findByIds result, in its order, and all other fields unchanged |
| WorldService.StringIdsMissObjectIds | lib/services/world.service.ts:62 | when `_id`s are ObjectIds and matching is by equality, the string ids match no place |
| WorldService.ObjectIdsFindStoredPlaces | lib/services/world.service.ts:62 | with the ids converted, the same equality-matching store returns a place iff its `_id` is the ObjectId of one of the ids, serialized |
| PlaceService.GetAllPlaces | lib/services/place.service.ts:13-20 | the serialised list, or "Failed to fetch places" |
| PlaceService.WorldSummary | lib/services/place.service.ts:46-50 | exactly identifier, name and mainColor of the world |
| PlaceService.GetPlaceByIdentifier | lib/services/place.service.ts:25-61 | every failure is "Failed to fetch place", "" and a store failure fail, and an unknown identifier gives null |
| PlaceService.WithWorld | lib/services/place.service.ts:39-56 | a falsy `worldId` leaves the place as it is, and on success every field of the place other than `world` is kept |
| PlaceService.GuardIgnoresRepositories | lib/services/place.service.ts:29-31 | the empty-identifier failure does not depend on either collection |
| PlaceService.PlaceWithFoundWorld | lib/services/place.service.ts:40-52 | the original place's keys plus `world`, with its other fields unchanged, and with identifier/name/mainColor but no image; the world is the serialized stored document whose `_id` is the ObjectId of the place's `worldId` |
| PlaceService.PlaceWithoutWorld | lib/services/place.service.ts:56 | with no worldId, or an unknown one, the place is returned unchanged |
| PlaceService.MalformedWorldIdFails | lib/services/place.service.ts:41-60 | a worldId that is not an ObjectId text gives "Failed to fetch place" |
| PlaceService.SearchPlaces | lib/services/place.service.ts:66-73 | the filter result, or "Failed to search places" |
| PlaceService.CountPlaces | lib/services/place.service.ts:78-85 | the count, or "Failed to count places" |
| CharactersPage.WorldsMap | app/characters/page.tsx:21 | the map's keys are exactly the worlds' `_id`s |
| CharactersPage.WorldsMapLastWins | app/characters/page.tsx:21 | with duplicate `_id`s, the last world wins |
| CharactersPage.WorldRef | app/characters/page.tsx:26-34 | a string world is used as it is; otherwise a truthy `world.$id.$oid`; otherwise no id |
| CharactersPage.WorldSummary | app/characters/page.tsx:65-73 | exactly identifier, name, mainColor and image of the world |
| CharactersPage.MapCharactersWithWorlds | app/characters/page.tsx:16-75 | same length and order; each character with only `world` replaced |
| CharactersPage.JoinedWorld | app/characters/page.tsx:36-74 | the world shown is the placeholder, or the summary of the world stored under the character's own reference |
| CharactersPage.OtherFieldsCopied | app/characters/page.tsx:23-66 | all non-world fields are copied unchanged |
| CharactersPage.UnknownWorldPlaceholder | app/characters/page.tsx:36-62 | no id (or "") or an unmatched id gives the "unknown" placeholder (Unknown/Desconocido/Unbekannt, "#888888", "") |
| CharactersPage.OidReferenceIgnored | app/characters/page.tsx:26-34 | a `{oid}` reference gives the placeholder |
| CharactersPage.SerializedOidReferenceResolves | app/characters/page.tsx:28-34 | after serialization a `{oid}` world reference is its oid string, which the page takes as the world id |
| CharactersPage.FoundWorldSummary | app/characters/page.tsx:65-73 | a matched id gives that world's summary |
| CharactersPage.WorldNamePathResolves | constants/filters.constants.ts:37 | the "world.name" filter path reads the joined world's name |
| UseFetchData.ErrorMessage | hooks/use-fetch-data.ts:50-55 | an Error's message, otherwise "An error occurred" |
| UseFetchData.FetchData.constructor | hooks/use-fetch-data.ts:33-39 | data is the initial data, the state is idle with no error, and autoFetch defaults to true |
| UseFetchData.FetchData.IsLoading | hooks/use-fetch-data.ts:68 | loading iff the state is LOADING |
| UseFetchData.FetchData.Begin | hooks/use-fetch-data.ts:43-44 | the state becomes LOADING and the error is cleared, with data kept |
| UseFetchData.FetchData.Settle | hooks/use-fetch-data.ts:46-55 | success stores the data and SUCCESS; failure keeps the data and stores ERROR and the message |
| UseFetchData.FetchData.Fetch | hooks/use-fetch-data.ts:41-71 | a whole fetch ends in SUCCESS with the data or ERROR with the message, and is never left loading |
| UseFetchData.FetchData.Mount | hooks/use-fetch-data.ts:59-64 | with autoFetch a mount fetches, and without it nothing changes |
| UseLanguage.Toggled | hooks/use-language.ts:25-28 | toggling always changes the language |
| UseLanguage.ToggleTwice | hooks/use-language.ts:25-28 | toggling twice is the identity |
| UseLanguage.LanguageStore.constructor | hooks/use-language.ts:23 | the initial language is en |
| UseLanguage.LanguageStore.SetLanguage | hooks/use-language.ts:24 | the language becomes exactly the given one |
| UseLanguage.LanguageStore.ToggleLanguage | hooks/use-language.ts:25-28 | the language becomes the toggled one |
| UseLanguage.Translate | hooks/use-language.ts:43-50 | null gives ""; otherwise the text in the language if non-empty, else en |
| UseLanguage.TranslatePicksOwnText | hooks/use-language.ts:49 | the result is always one of the text's own en or es strings |
| UseTheme.Toggled | hooks/use-theme.ts:29-30 | toggling always changes the theme |
| UseTheme.ToggleTwice | hooks/use-theme.ts:29-30 | toggling twice is the identity |
| UseTheme.ThemeStore.constructor | hooks/use-theme.ts:28 | the initial theme is dark |
| UseTheme.ThemeStore.ToggleTheme | hooks/use-theme.ts:29-30 | the theme becomes the toggled one |
| UseTheme.ThemeStore.SetTheme | hooks/use-theme.ts:31 | the theme becomes exactly the given one |
| UseTranslations.UseTranslationsTable | hooks/use-translations.ts:11-24 | the current language's table, falling back to the en table |
| UseTranslations.LookUp | hooks/use-translations.ts:30-44 | the `for` loop that reads one segment at a time and returns the key on the first `undefined` gives exactly the string at the whole dot path, or the key when the path ends on a non-string |
| UseTranslations.MissingSegmentGivesKey | hooks/use-translations.ts:39 | if the walk is already `undefined` after any prefix of the segments, the key itself is returned |
| UseTranslations.NestedKeyTranslation | hooks/use-translations.ts:33-43 | for a key `a.b`, the string the table holds at `a` then `b` is returned; a missing entry, a sub-object or any other non-string there gives the key |
| UseTranslations.FlatKeyTranslation | hooks/use-translations.ts:33-43 | for a dot-free key, the string the table holds under it is returned, and otherwise the key |
| UseTranslations.WalkConcat | hooks/use-translations.ts:37-40 | walking a path in two parts equals walking it at once, so a walk that stops early at undefined stops for good |
| RoutesConstants.DetailRoute | constants/routes.constants.ts:7-15 | a detail path begins with its list route and is exactly one separator plus the identifier longer |
| RoutesConstants.DetailExtendsList | constants/routes.constants.ts:6-15 | every detail path starts with its own list route, then "/", then the identifier verbatim and unescaped |
| RoutesConstants.ListRoutesPrefixFree | constants/routes.constants.ts:6-14 | no list route is a prefix of another |
| RoutesConstants.DetailActiveSection | components/layout/header/header.tsx:32 | a detail path starts with a list route iff it is its own section's |
| RoutesConstants.ListRoute | constants/routes.constants.ts:6-14 | every list route is an absolute path |
| RoutesConstants.SectionTitle | constants/routes.constants.ts:21-42 | every section has non-empty es and en titles |

## Left out

- Connection handling and environment checks (`lib/database/mongodb.ts`) are not modelled: they are I/O and process-global state. Logging (`console.error`, `console.warn`) is left out too.
- The real Mongo semantics of `$regex`, `$in`, `sort` and ObjectId parsing are not modelled. Each collection carries its own matching relation and value order. Only the shape of the filter objects is modelled.
- ObjectId construction accepts only a 24-digit hex string. The constructor's integer and 12-byte-array forms are not modelled, and any non-string id is treated as malformed.
- The repositories are modelled as functions of an immutable collection value, not as methods on repository objects. The objects hold no state of their own.
- Async behaviour is not modelled: promises, `Promise.all` on the characters page, and React state and effect scheduling. Each hook's state is modelled explicitly.
- HTTP route handlers and status codes are not modelled, and neither are the page, card, layout, header and filter-bar components or styling. The filter bar never renders multi-select filters.
- Zustand `persist` storage is not modelled. Nor is the DOM work in `useThemeEffect` (hooks/use-theme.ts:43-63).
- TextNormalize.NormalizeText: lower-casing and decomposition cover ASCII and the Latin-1 letters only. Full Unicode NFD and case mapping are not modelled.
- UseFilters.DynamicOptionsSorted: `localeCompare` is an abstract total preorder, not ICU collation.
- UseFilters.GenerateDynamicOptions requires every localized value of the field to have a string `en` and `es`, and a string or falsy `de`. DynamicOptions, EnrichedConfigs and their lemmas carry the same requirement. Two behaviours of the source are therefore not modelled:
  - the TypeError that `multiLangValue.en.toLowerCase()` throws when `en` is not a string (hooks/use-filters.ts:89);
  - a localized value with no `es`, or with a truthy non-string `de`. The source stores these as they are (hooks/use-filters.ts:90-95), and the sort label then falls back to `en` (hooks/use-filters.ts:104).
- TextNormalize.StripMarks: its own contract says only that no mark remains and that the text does not grow. StripMarksExactly and StripMarksConcat prove that every other character is kept, in order. Stating that on the function itself makes the lemmas about concrete strings too expensive to check.
- The translation tables (locales/<lang>.json) are not part of this model. They are a parameter of the lookup.
- Property access on a string, a number, a boolean or an array gives undefined in this model. In JavaScript, `arr["0"]`, `arr.length` and `str.length` are defined. So the dot-path getter (hooks/use-filters.ts:59) and the translation lookup (hooks/use-translations.ts:38) never index into strings or arrays here.
- Numbers are integers. Floating point is not modelled.
- The text of a `TypeError` thrown by property access on null is not modelled. Only the fact that something is thrown is kept.
- UseFilters.FilterState.HasActive keeps the behaviour as written, keyed on entry keys. `HasActiveFilters` is the value-based reading.
- WorldService.GetWorldWithPlaces keeps `findByIds` as written, with the ids as strings. PlaceRepository.FindByObjectIds is the corrected lookup (see Findings).

## Findings

| source | as written | input that shows it | evidently intended | confidence | as-written member | corrected member |
|---|---|---|---|---|---|---|
| hooks/use-filters.ts:179-186 | `Object.entries(filterValues).some(([value]) => …)` binds the entry key, so "active" depends on which keys are present | `{search: ""}` (after setting a text filter and erasing it) reports active, yet filters nothing | some entry's value is non-empty and not "all" | not executed | UseFilters.HasActiveFiltersAsWrittenCounterexample | UseFilters.InactiveFiltersKeepAll |
| lib/database/repositories/place.repository.ts:18-20 | `{ _id: { $in: ids } }` sends the ids as strings, although the stored `_id`s are ObjectIds (`findById` converts with `new ObjectId(id)`), and the native driver does not convert | a world whose `places` hold the hex ids of stored places: under equality matching `findByIds` returns `[]`, so `getWorldWithPlaces` lists no places | the ids converted with `new ObjectId(id)` before the `$in` | not executed | WorldService.StringIdsMissObjectIds | WorldService.ObjectIdsFindStoredPlaces |
