/**
 * The filter configurations of constants/filters.constants.ts, as concrete
 * data for the filter engine, and what the engine does with them.
 */
module FiltersConstants {
  import opened Wrappers
  import opened JsValue
  import opened JsStrings
  import opened TextNormalize
  import opened CommonTypes
  import opened UseFilters

  const SearchFilter: FilterConfig :=
    TextFilter("search", Labels("Search", "Buscar", "Suchen"),
               Some(Labels("Search by name...", "Buscar por nombre...", "Nach Name suchen...")))

  const RaceFilter: FilterConfig :=
    SelectFilter("race", Labels("Race", "Raza", "Rasse"),
                 Some(Labels("All races", "Todas las razas", "Alle Rassen")), true, None)

  const WorldFilter: FilterConfig :=
    SelectFilter("world.name", Labels("World", "Mundo", "Welt"),
                 Some(Labels("All worlds", "Todos los mundos", "Alle Welten")), true, None)

  const TypeFilter: FilterConfig :=
    SelectFilter("type", Labels("Type", "Tipo", "Typ"),
                 Some(Labels("All types", "Todos los tipos", "Alle Typen")), true, None)

  /** `CHARACTER_FILTERS`. */
  const CharacterFilters: seq<FilterConfig> := [SearchFilter, RaceFilter, WorldFilter]

  /** `CREATURE_FILTERS`. */
  const CreatureFilters: seq<FilterConfig> := [SearchFilter, RaceFilter]

  /** `ITEM_FILTERS`. */
  const ItemFilters: seq<FilterConfig> := [SearchFilter, TypeFilter]

  /** `PLACE_FILTERS`. */
  const PlaceFilters: seq<FilterConfig> := [SearchFilter]

  /** The four lists the pages use. */
  predicate IsFilterList(configs: seq<FilterConfig>)
  {
    configs == CharacterFilters || configs == CreatureFilters
    || configs == ItemFilters || configs == PlaceFilters
  }

  function Ids(configs: seq<FilterConfig>): (r: seq<string>)
    ensures |r| == |configs| && forall i :: 0 <= i < |configs| ==> r[i] == configs[i].id
  {
    seq(|configs|, i requires 0 <= i < |configs| => configs[i].id)
  }

  /** The ids and kinds of each list, in order. */
  lemma FilterListsShape()
    ensures Ids(CharacterFilters) == ["search", "race", "world.name"]
    ensures Ids(CreatureFilters) == ["search", "race"]
    ensures Ids(ItemFilters) == ["search", "type"]
    ensures Ids(PlaceFilters) == ["search"]
    ensures CharacterFilters[0].TextFilter? && CharacterFilters[1].SelectFilter? && CharacterFilters[2].SelectFilter?
    ensures CreatureFilters[0].TextFilter? && CreatureFilters[1].SelectFilter?
    ensures ItemFilters[0].TextFilter? && ItemFilters[1].SelectFilter?
    ensures PlaceFilters[0].TextFilter?
  {
  }

  /**
   * In every list the ids are unique, no filter is a multi-select, and every
   * select filter is dynamic with a placeholder.
   */
  lemma FilterListsWellFormed(configs: seq<FilterConfig>)
    requires IsFilterList(configs)
    ensures forall i, j :: 0 <= i < j < |configs| ==> configs[i].id != configs[j].id
    ensures forall i :: 0 <= i < |configs| ==> !configs[i].MultiSelectFilter?
    ensures forall i :: 0 <= i < |configs| && configs[i].SelectFilter? ==>
              configs[i].dynamicOptions && configs[i].placeholder.Some?
  {
  }

  /**
   * Enriching any of the lists gives each select filter the first option
   * "all", labelled with that filter's placeholder.
   */
  lemma EnrichedSelectStartsWithAll(configs: seq<FilterConfig>, data: seq<Value>, language: Language,
                                    le: (string, string) -> bool, i: int)
    requires IsFilterList(configs)
    requires EnrichableFor(data, configs)
    requires 0 <= i < |configs| && configs[i].SelectFilter?
    ensures var r := EnrichedConfigs(configs, data, language, le)[i];
      && r.options.Some? && |r.options.value| >= 1
      && r.options.value[0] == SelectOption("all", configs[i].placeholder.value)
  {
    FilterListsWellFormed(configs);
    EnrichedConfigsShape(configs, data, language, le, i);
  }

  // ---------------------------------------------------------------------
  // A worked example: two characters, filtered by name and by race
  // ---------------------------------------------------------------------

  function TextObj(en: string, es: string): Value
  {
    Obj(map["en" := Str(en), "es" := Str(es)])
  }

  function Thor(): Value
  {
    Obj(map["identifier" := Str("thor"), "name" := TextObj("Thor", "Thor"), "race" := TextObj("God", "Dios")])
  }

  function Loki(): Value
  {
    Obj(map["identifier" := Str("loki"), "name" := TextObj("Loki", "Loki"),
            "race" := TextObj("Trickster", "Embaucador")])
  }

  lemma NormalizeLo() ensures NormalizeString("lo") == "lo" { NormalizeAsciiLetters("lo"); }
  lemma NormalizeGod() ensures NormalizeString("god") == "god" { NormalizeAsciiLetters("god"); }
  lemma NormalizeGo() ensures NormalizeString("go") == "go" { NormalizeAsciiLetters("go"); }
  lemma NormalizeThor() ensures NormalizeString("Thor") == "thor" { NormalizeAsciiLetters("Thor"); }
  lemma NormalizeLoki() ensures NormalizeString("Loki") == "loki" { NormalizeAsciiLetters("Loki"); }
  lemma NormalizeGodName() ensures NormalizeString("God") == "god" { NormalizeAsciiLetters("God"); }

  /** The first character of the normal form of a text starting with an ASCII letter. */
  lemma NormalizeHead(s: string)
    requires |s| > 0 && IsAsciiLetter(s[0])
    ensures |NormalizeString(s)| > 0 && NormalizeString(s)[0] == LowerChar(s[0])
  {
    assert s == [s[0]] + s[1..];
    NormalizeCons(s[0], s[1..]);
    assert FoldChar(s[0]) == [LowerChar(s[0])];
  }

  lemma ThorDoesNotContainLo()
    ensures !Includes("thor", "lo")
  {
    assert "thor"[1..] == "hor";
    assert "hor"[1..] == "or";
    assert "or"[1..] == "r";
    assert "thor"[..2][0] == 't';
    assert "hor"[..2][0] == 'h';
    assert "or"[..2][0] == 'o' && "or"[..2][1] == 'r';
  }

  lemma RaceField(item: Value)
    ensures GetNestedValue(item, "race") == Prop(item, "race")
  {
    NestedOneSegment(item, "race");
  }

  lemma ThorText()
    ensures !TextCheck(Thor(), "lo")
  {
    NormalizeLo();
    NormalizeThor();
    ThorDoesNotContainLo();
    var name := Prop(Thor(), "name");
    assert name == TextObj("Thor", "Thor");
    assert NormalizeText(Prop(name, "en")) == "thor";
    assert NormalizeText(Prop(name, "es")) == "thor";
    assert NormalizeText(Prop(name, "de")) == "";
  }

  lemma ThorRace()
    ensures SelectCheck(Thor(), "race", "god")
    ensures !SelectCheck(Thor(), "race", "go")
  {
    RaceField(Thor());
    assert Prop(Thor(), "race") == TextObj("God", "Dios");
    SelectOnTextObj(Thor(), "race", "god", "God", "Dios");
    SelectOnTextObj(Thor(), "race", "go", "God", "Dios");
    NormalizeGod();
    NormalizeGo();
    NormalizeGodName();
    NormalizeHead("Dios");
    assert "go"[0] == 'g' && |"go"| != |"god"|;
  }

  lemma LokiText()
    ensures TextCheck(Loki(), "lo")
  {
    NormalizeLo();
    NormalizeLoki();
    var name := Prop(Loki(), "name");
    assert name == TextObj("Loki", "Loki");
    assert NormalizeText(Prop(name, "en")) == "loki";
    assert "loki"[..2] == "lo";
  }

  /** A select filter on a field holding localized text with en and es only. */
  lemma SelectOnTextObj(item: Value, id: string, filterValue: string, en: string, es: string)
    requires GetNestedValue(item, id) == TextObj(en, es)
    ensures SelectCheck(item, id, filterValue) <==>
      var nf := NormalizeString(filterValue);
      NormalizeString(en) == nf || NormalizeString(es) == nf || nf == ""
  {
    var v := TextObj(en, es);
    assert Prop(v, "en") == Str(en) && Prop(v, "es") == Str(es) && Prop(v, "de") == Undefined;
    assert IsLocalized(v);
  }

  lemma LokiRace()
    ensures !SelectCheck(Loki(), "race", "god")
    ensures !SelectCheck(Loki(), "race", "go")
  {
    RaceField(Loki());
    assert Prop(Loki(), "race") == TextObj("Trickster", "Embaucador");
    SelectOnTextObj(Loki(), "race", "god", "Trickster", "Embaucador");
    SelectOnTextObj(Loki(), "race", "go", "Trickster", "Embaucador");
    NormalizeGod();
    NormalizeGo();
    NormalizeHead("Trickster");
    NormalizeHead("Embaucador");
    assert "god"[0] == 'g' && "go"[0] == 'g';
  }

  /** The values chosen on the characters page for a search and a race. */
  function Choice(search: string, race: string): FilterValues
  {
    map["search" := Single(search), "race" := Single(race)]
  }

  /** On the characters page, a search and a race choice combine conjunctively. */
  lemma KeepCharacter(item: Value, search: string, race: string)
    ensures KeepItem(item, CharacterFilters, Choice(search, race)) <==>
      && (search == "" || search == "all" || TextCheck(item, search))
      && (race == "" || race == "all" || SelectCheck(item, "race", race))
  {
    PassesSearch(item, search, race);
    PassesRace(item, search, race);
    PassesWorld(item, search, race);
  }

  lemma PassesSearch(item: Value, search: string, race: string)
    ensures Passes(item, CharacterFilters[0], Choice(search, race)) <==>
              (search == "" || search == "all" || TextCheck(item, search))
  {
  }

  lemma PassesRace(item: Value, search: string, race: string)
    ensures Passes(item, CharacterFilters[1], Choice(search, race)) <==>
              (race == "" || race == "all" || SelectCheck(item, "race", race))
  {
  }

  lemma PassesWorld(item: Value, search: string, race: string)
    ensures Passes(item, CharacterFilters[2], Choice(search, race))
  {
  }

  lemma FilteredPair(a: Value, b: Value, configs: seq<FilterConfig>, values: FilterValues)
    ensures FilteredData([a, b], configs, values)
         == (if KeepItem(a, configs, values) then [a] else []) + (if KeepItem(b, configs, values) then [b] else [])
  {
    assert [a, b][1..] == [b];
    assert [b][1..] == [];
    assert FilteredData([b], configs, values) == (if KeepItem(b, configs, values) then [b] else []) + FilteredData([], configs, values);
  }

  /**
   * Searching "lo" keeps only Loki, race "god" keeps only Thor, both together
   * keep nothing, and the select filter does not match the prefix "go".
   */
  lemma CharacterScenario()
    ensures FilteredData([Thor(), Loki()], CharacterFilters, Choice("lo", "all")) == [Loki()]
    ensures FilteredData([Thor(), Loki()], CharacterFilters, Choice("", "god")) == [Thor()]
    ensures FilteredData([Thor(), Loki()], CharacterFilters, Choice("lo", "god")) == []
    ensures FilteredData([Thor(), Loki()], CharacterFilters, Choice("", "go")) == []
  {
    ThorText();
    ThorRace();
    LokiText();
    LokiRace();
    KeepCharacter(Thor(), "lo", "all");
    KeepCharacter(Loki(), "lo", "all");
    KeepCharacter(Thor(), "", "god");
    KeepCharacter(Loki(), "", "god");
    KeepCharacter(Thor(), "lo", "god");
    KeepCharacter(Loki(), "lo", "god");
    KeepCharacter(Thor(), "", "go");
    KeepCharacter(Loki(), "", "go");
    FilteredPair(Thor(), Loki(), CharacterFilters, Choice("lo", "all"));
    FilteredPair(Thor(), Loki(), CharacterFilters, Choice("", "god"));
    FilteredPair(Thor(), Loki(), CharacterFilters, Choice("lo", "god"));
    FilteredPair(Thor(), Loki(), CharacterFilters, Choice("", "go"));
  }
}
