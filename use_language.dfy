/** hooks/use-language.ts: the interface-language store and the text picker. */
module UseLanguage {
  import opened Wrappers
  import opened CommonTypes

  /** `toggleLanguage`'s rule: "en" becomes "es", anything else "en". */
  function Toggled(language: Language): (r: Language)
    ensures r != language
  {
    if language == En then Es else En
  }

  /** Toggling twice restores the language. */
  lemma ToggleTwice(language: Language)
    ensures Toggled(Toggled(language)) == language
  {
  }

  /** The language store (its persistence to local storage is not modelled). */
  class LanguageStore {
    var language: Language

    constructor ()
      ensures language == En
    {
      language := En;
    }

    method SetLanguage(l: Language)
      modifies this
      ensures language == l
    {
      language := l;
    }

    method ToggleLanguage()
      modifies this
      ensures language == Toggled(old(language))
    {
      language := if language == En then Es else En;
    }
  }

  /** `text[language]` of a localized text. */
  function InLanguage(text: MultiLanguageText, language: Language): string
  {
    match language
    case En => text.en
    case Es => text.es
  }

  /** `useTranslate()(text)`: the current language's text, else the English one, else "". */
  function Translate(language: Language, text: Option<MultiLanguageText>): (r: string)
    ensures text.None? ==> r == ""
    ensures text.Some? && InLanguage(text.value, language) != "" ==> r == InLanguage(text.value, language)
    ensures text.Some? && InLanguage(text.value, language) == "" ==> r == text.value.en
  {
    if text.None? then ""
    else if InLanguage(text.value, language) != "" then InLanguage(text.value, language)
    else if text.value.en != "" then text.value.en
    else ""
  }

  /** The picked text is always one of the text's own strings, never German. */
  lemma TranslatePicksOwnText(language: Language, text: MultiLanguageText)
    ensures Translate(language, Some(text)) in {text.en, text.es}
  {
  }
}
