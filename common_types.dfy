/**
 * The value types shared by the whole application (types/common.types.ts
 * and types/filter.types.ts).
 */
module CommonTypes {
  import opened Wrappers
  import opened JsValue

  /** The interface languages, `"en" | "es"`. */
  datatype Language = En | Es

  /** A text in every interface language; German is optional. */
  datatype MultiLanguageText = MultiLanguageText(en: string, es: string, de: Option<string>)

  /** The plain object a `MultiLanguageText` is stored as. */
  function TextValue(t: MultiLanguageText): (v: Value)
    ensures v.Obj? && Prop(v, "en") == Str(t.en) && Prop(v, "es") == Str(t.es)
    ensures t.de.None? ==> "de" !in v.fields
    ensures t.de.Some? ==> Prop(v, "de") == Str(t.de.value)
  {
    var base := map["en" := Str(t.en), "es" := Str(t.es)];
    Obj(if t.de.Some? then base["de" := Str(t.de.value)] else base)
  }

  /** A label in the three languages of the filter definitions (the source field `label`, renamed because `label` is a Dafny keyword). */
  datatype Labels = Labels(en: string, es: string, de: string)

  /** `{ value, label }`: one choice of a select filter. */
  datatype SelectOption = SelectOption(value: string, caption: Labels)

  /**
   * `FilterConfig`: a text, select or multi-select filter. An absent
   * `dynamicOptions` is `false`; `options` is absent until enrichment.
   */
  datatype FilterConfig =
    | TextFilter(id: string, caption: Labels, placeholder: Option<Labels>)
    | SelectFilter(id: string, caption: Labels, placeholder: Option<Labels>,
                   dynamicOptions: bool, options: Option<seq<SelectOption>>)
    | MultiSelectFilter(id: string, caption: Labels, placeholder: Option<Labels>,
                        dynamicOptions: bool, options: Option<seq<SelectOption>>)

  /** One entry of `FilterValues`: a string or a list of strings. */
  datatype FilterValue = Single(s: string) | Many(vs: seq<string>)

  /** `FilterValues`: the value chosen for each filter id. */
  type FilterValues = map<string, FilterValue>
}
