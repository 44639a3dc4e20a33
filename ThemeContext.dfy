/**
 * The theme preference: a dark-mode flag read from and written back to
 * client storage, and the colour tokens selected from it.
 */
module ThemeContext {
  import opened Wrappers

  /** A theme: colour values by token name. */
  type Tokens = map<string, string>

  const LightTheme: Tokens := map[
    "primary" := "#2a2a2a",
    "secondary" := "#4a4a4a",
    "background" := "#ffffff",
    "surface" := "#f5f5f5",
    "text" := "#2a2a2a",
    "textSecondary" := "#4a4a4a",
    "accent" := "#4ecdc4",
    "accentHover" := "#45b7d1",
    "error" := "#ff6b6b",
    "success" := "#96ceb4",
    "border" := "#e0e0e0",
    "shadow" := "rgba(0, 0, 0, 0.1)",
    "overlay" := "rgba(255, 255, 255, 0.85)",
    "navBackground" := "rgba(255, 255, 255, 0.95)"
  ]

  const DarkTheme: Tokens := map[
    "primary" := "#ffffff",
    "secondary" := "#b3b3b3",
    "background" := "#000000",
    "surface" := "#111111",
    "text" := "#ffffff",
    "textSecondary" := "#b3b3b3",
    "accent" := "#4ecdc4",
    "accentHover" := "#45b7d1",
    "error" := "#ff6b6b",
    "success" := "#96ceb4",
    "border" := "#333333",
    "shadow" := "rgba(0, 0, 0, 0.3)",
    "overlay" := "rgba(0, 0, 0, 0.85)",
    "navBackground" := "rgba(0, 0, 0, 0.95)"
  ]

  /** The token names both themes define. */
  const TokenNames: set<string> := {
    "primary", "secondary", "background", "surface", "text", "textSecondary", "accent",
    "accentHover", "error", "success", "border", "shadow", "overlay", "navBackground"
  }

  /** The light theme defines exactly the fourteen tokens. */
  lemma LightThemeTokens()
    ensures LightTheme.Keys == TokenNames
  {
  }

  /** The dark theme defines exactly the fourteen tokens. */
  lemma DarkThemeTokens()
    ensures DarkTheme.Keys == TokenNames
  {
  }

  /** There are fourteen token names. */
  lemma TokenCount()
    ensures |TokenNames| == 14
  {
    var a := {"primary", "secondary", "background", "surface", "text", "textSecondary", "accent"};
    var b := {"accentHover", "error", "success", "border", "shadow", "overlay", "navBackground"};
    assert |a| == 7 && |b| == 7;
    assert a * b == {};
    assert TokenNames == a + b;
  }

  /** The themes share the accent and status colours, while their
      backgrounds differ. */
  lemma ThemesShareAccents()
    ensures forall k | k in {"accent", "accentHover", "error", "success"} :: LightTheme[k] == DarkTheme[k]
    ensures LightTheme["background"] != DarkTheme["background"]
  {
  }

  /** The two themes are different maps. */
  lemma ThemesDiffer()
    ensures LightTheme != DarkTheme
  {
    assert LightTheme["background"] != DarkTheme["background"];
  }

  /** The storage key of the preference. */
  const StorageKey := "theme"

  /** The `useState` initialiser: dark when nothing (or an empty string) is
      stored, otherwise dark exactly when the stored value is `dark`. */
  function InitialIsDark(saved: Option<string>): (isDark: bool)
    ensures saved == None || saved == Some("") ==> isDark
    ensures saved.Some? && saved.value != "" ==> (isDark <==> saved.value == "dark")
  {
    match saved
    case None => true
    case Some(s) => if s != "" then s == "dark" else true
  }

  /** The value the persistence effect writes for a flag. */
  function Persisted(isDark: bool): (s: string)
    ensures s == "dark" || s == "light"
    ensures InitialIsDark(Some(s)) == isDark
  {
    if isDark then "dark" else "light"
  }

  /** The `theme` handed to the styled components. */
  function SelectTheme(isDark: bool): (t: Tokens)
    ensures t.Keys == TokenNames
    ensures t == DarkTheme <==> isDark
    ensures t == LightTheme <==> !isDark
  {
    LightThemeTokens();
    DarkThemeTokens();
    ThemesDiffer();
    if isDark then DarkTheme else LightTheme
  }

  /** The value the provider passes to its consumers. */
  datatype ContextValue = ContextValue(theme: Tokens, isDark: bool)

  const UseThemeError := "useTheme must be used within a ThemeProvider"

  /** `useTheme`: the provider's value, or the error thrown outside one. */
  function UseTheme(context: Option<ContextValue>): (r: Result<ContextValue, string>)
    ensures r.Failure? <==> context.None?
    ensures r.Failure? ==> r.error == UseThemeError
    ensures r.Success? ==> r.value == context.value
  {
    match context
    case None => Failure(UseThemeError)
    case Some(v) => Success(v)
  }

  /** The `ThemeProvider` component's state, with the stored preference as
      an abstract cell. */
  class ThemeProvider {
    var isDark: bool
    /** The value stored under `StorageKey`, the only key the provider
        reads or writes; `None` when nothing is stored. */
    var storage: Option<string>

    /** The stored value reflects the flag, as after every run of the
        persistence effect. */
    ghost predicate Persistent()
      reads this
    {
      storage == Some(Persisted(isDark))
    }

    /** Mounting: read the stored value, then the first run of the
        persistence effect writes the flag back. */
    constructor (saved: Option<string>)
      ensures isDark == InitialIsDark(saved)
      ensures Persistent()
    {
      var dark := InitialIsDark(saved);
      isDark := dark;
      storage := Some(if dark then "dark" else "light");
    }

    /** `toggleTheme`, followed by the persistence effect it triggers. */
    method ToggleTheme()
      modifies this
      ensures isDark == !old(isDark)
      ensures Persistent()
    {
      isDark := !isDark;
      storage := Some(if isDark then "dark" else "light");
    }

    /** A reload reads back the flag that was stored. */
    function Reloaded(): (isDark': bool)
      requires Persistent()
      reads this
      ensures isDark' == isDark
    {
      InitialIsDark(storage)
    }

    /** The context value: the theme selected by the flag, and the flag. */
    function Value(): (v: ContextValue)
      reads this
      ensures v.isDark == isDark
      ensures v.theme == DarkTheme <==> isDark
      ensures v.theme == LightTheme <==> !isDark
    {
      ContextValue(SelectTheme(isDark), isDark)
    }
  }

  /** Two toggles restore the flag and store the original value again. */
  method DoubleToggleRestores(p: ThemeProvider)
    modifies p
    ensures p.isDark == old(p.isDark)
    ensures p.Persistent()
  {
    p.ToggleTheme();
    p.ToggleTheme();
  }
}
