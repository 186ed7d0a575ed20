/** The colour theme: the `data-theme` attribute of the document, the
    stored preference and the class of the toggle's icon. */
module Theme {
  import opened Wrappers

  const Dark: string := "dark"
  const Light: string := "light"

  datatype ThemeState = ThemeState(
    theme: Option<string>,  // `data-theme` on the document element
    saved: Option<string>,  // the stored preference under "portfolio-theme"
    icon: Option<string>)   // the icon's class; None when there is no icon element

  /** The icon shown for a theme: a sun in dark mode, a moon otherwise. */
  function IconFor(theme: string): string {
    if theme == Dark then "fas fa-sun" else "fas fa-moon"
  }

  /** Applies `theme` to the document and, when present, to the icon. */
  function Apply(s: ThemeState, theme: string): ThemeState {
    s.(theme := Some(theme), icon := if s.icon.Some? then Some(IconFor(theme)) else None)
  }

  /** `toggleTheme`: dark becomes light and anything else, unset included,
      becomes dark; the stored preference is the theme just applied. */
  function ToggleTheme(s: ThemeState): (r: ThemeState)
    ensures s.theme == Some(Dark) ==> r.theme == Some(Light)
    ensures s.theme != Some(Dark) ==> r.theme == Some(Dark)
    ensures r.saved == r.theme
    ensures r.icon.Some? <==> s.icon.Some?
    ensures r.icon.Some? ==> (r.icon.value == "fas fa-sun" <==> r.theme == Some(Dark))
    ensures r.icon.Some? ==> r.icon == Some(IconFor(r.theme.value))
  {
    var next := if s.theme == Some(Dark) then Light else Dark;
    Apply(s, next).(saved := Some(next))
  }

  /** `loadThemePreference`: a stored non-empty value wins whatever it is;
      otherwise the system preference picks dark or light. Nothing is
      stored. */
  function LoadThemePreference(s: ThemeState, prefersDark: bool): (r: ThemeState)
    ensures s.saved.Some? && s.saved.value != "" ==> r.theme == s.saved
    ensures (s.saved.None? || s.saved == Some("")) ==>
      (r.theme == Some(Dark) <==> prefersDark) && (r.theme == Some(Light) <==> !prefersDark)
    ensures r.saved == s.saved
    ensures r.icon.Some? <==> s.icon.Some?
    ensures r.icon.Some? ==> r.theme.Some? && r.icon == Some(IconFor(r.theme.value))
  {
    var chosen := if s.saved.Some? && s.saved.value != "" then s.saved.value
                  else if prefersDark then Dark else Light;
    Apply(s, chosen)
  }

  /** Two toggles from dark or light restore the theme. */
  lemma ToggleTwiceRestores(s: ThemeState)
    requires s.theme == Some(Dark) || s.theme == Some(Light)
    ensures ToggleTheme(ToggleTheme(s)).theme == s.theme
  {
  }

  /** After one toggle the theme is dark or light, whatever it was. */
  lemma ToggleLandsInPair(s: ThemeState)
    ensures ToggleTheme(s).theme in {Some(Dark), Some(Light)}
  {
  }

  /** A toggled theme survives a reload: the stored value brings back the
      same theme and icon whatever the system prefers. */
  lemma ToggleSurvivesReload(s: ThemeState, reloaded: ThemeState, prefersDark: bool)
    requires reloaded.saved == ToggleTheme(s).saved && reloaded.icon.Some? == s.icon.Some?
    ensures LoadThemePreference(reloaded, prefersDark).theme == ToggleTheme(s).theme
    ensures LoadThemePreference(reloaded, prefersDark).icon == ToggleTheme(s).icon
  {
  }
}
