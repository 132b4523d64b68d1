/** hooks/use-theme.ts: the colour-theme store. */
module UseTheme {
  /** `Theme`: "light" | "dark". */
  datatype Theme = Light | Dark

  /** `toggleTheme`'s rule: "light" becomes "dark", anything else "light". */
  function Toggled(theme: Theme): (r: Theme)
    ensures r != theme
  {
    if theme == Light then Dark else Light
  }

  lemma ToggleTwice(theme: Theme)
    ensures Toggled(Toggled(theme)) == theme
  {
  }

  /** The theme store (its persistence and the page-class effect are not modelled). */
  class ThemeStore {
    var theme: Theme

    constructor ()
      ensures theme == Dark
    {
      theme := Dark;
    }

    method ToggleTheme()
      modifies this
      ensures theme == Toggled(old(theme))
    {
      theme := if theme == Light then Dark else Light;
    }

    /** Sets exactly the given theme; setting it again changes nothing. */
    method SetTheme(t: Theme)
      modifies this
      ensures theme == t
    {
      theme := t;
    }
  }
}
