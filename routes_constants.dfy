/** constants/routes.constants.ts: the application's paths and section titles. */
module RoutesConstants {
  import opened JsStrings

  /** The five sections that have a list page and a detail page. */
  datatype Section = Characters | Creatures | Items | Worlds | Places

  const Home: string := "/"

  /** `ROUTES.CHARACTERS`, `ROUTES.CREATURES`, ... */
  function ListRoute(section: Section): (r: string)
    ensures |r| >= 2 && r[0] == '/'
  {
    match section
    case Characters => "/characters"
    case Creatures => "/creatures"
    case Items => "/items"
    case Worlds => "/worlds"
    case Places => "/places"
  }

  /** `ROUTES.CHARACTER_DETAIL(identifier)`, ...: the identifier inserted as it is. */
  function DetailRoute(section: Section, identifier: string): (r: string)
    ensures |r| == |ListRoute(section)| + 1 + |identifier|
    ensures r[..|ListRoute(section)|] == ListRoute(section)
  {
    ListRoute(section) + "/" + identifier
  }

  /** A detail path starts with its own list route, followed by "/" and the identifier. */
  lemma DetailExtendsList(section: Section, identifier: string)
    ensures StartsWith(DetailRoute(section, identifier), ListRoute(section))
    ensures DetailRoute(section, identifier)[|ListRoute(section)|] == '/'
    ensures DetailRoute(section, identifier)[|ListRoute(section)| + 1..] == identifier
  {
  }

  /** A position where two different list routes differ, within both. */
  function DiffAt(s: Section, t: Section): (k: nat)
    requires s != t
    ensures k < |ListRoute(s)| && k < |ListRoute(t)| && ListRoute(s)[k] != ListRoute(t)[k]
  {
    if (s == Characters && t == Creatures) || (s == Creatures && t == Characters) then 2 else 1
  }

  /** No list route is a prefix of another. */
  lemma ListRoutesPrefixFree(s: Section, t: Section)
    requires s != t
    ensures !StartsWith(ListRoute(s), ListRoute(t))
  {
    var k := DiffAt(s, t);
    if |ListRoute(t)| <= |ListRoute(s)| {
      assert ListRoute(s)[..|ListRoute(t)|][k] == ListRoute(s)[k];
    }
  }

  /** The header's `pathname.startsWith(route)` marks exactly one section active on a detail page. */
  lemma DetailActiveSection(section: Section, identifier: string, t: Section)
    ensures StartsWith(DetailRoute(section, identifier), ListRoute(t)) <==> t == section
  {
    if t != section {
      var k := DiffAt(section, t);
      var d := DetailRoute(section, identifier);
      assert d[k] == ListRoute(section)[k];
      if |ListRoute(t)| <= |d| {
        assert d[..|ListRoute(t)|][k] == d[k];
      }
    }
  }

  /** `SECTION_TITLES[section]`: the Spanish and English titles. */
  datatype Title = Title(es: string, en: string)

  function SectionTitle(section: Section): (r: Title)
    ensures r.es != "" && r.en != ""
  {
    match section
    case Characters => Title("Personajes", "Characters")
    case Creatures => Title("Criaturas", "Creatures")
    case Items => Title("Ítems", "Items")
    case Worlds => Title("Mundos", "Worlds")
    case Places => Title("Lugares", "Places")
  }
}
