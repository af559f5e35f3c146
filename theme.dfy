/** The theme layer of `src/providers/theme-provider.tsx`: the provider that
    detects the system colour scheme once mounted, the context provider that
    validates `setTheme` before handing the value to the theme store and
    derives the flags it exposes, and the `useTheme` guard. The theme store of
    the theming library is a field holding the last theme it was given; the
    `prefers-color-scheme: dark` media query is a boolean input. */
module Theme {
  import opened Wrappers

  const Light := "light"
  const Dark := "dark"
  const System := "system"

  /** `THEMES`: the three themes the application accepts, in this order. */
  const Themes: seq<string> := [Light, Dark, System]

  /** The theme `setTheme` hands to the store: the requested theme when it is
      one of the three, otherwise `system`. */
  function ValidatedTheme(newTheme: string): (r: string)
    ensures r in Themes
    ensures newTheme in Themes ==> r == newTheme
    ensures newTheme !in Themes ==> r == System
  {
    if newTheme in Themes then newTheme else System
  }

  /** The scheme the media query reports. */
  function SchemeOf(matchesDark: bool): (r: string)
    ensures r in Themes && r != System
    ensures r == Dark <==> matchesDark
  {
    if matchesDark then Dark else Light
  }

  /** `ThemeContextType`, without the `setTheme` callback. */
  datatype ThemeContextValue = ThemeContextValue(
    theme: string,
    systemTheme: Option<string>,
    resolvedTheme: string,
    isSystemTheme: bool,
    isDarkMode: bool,
    themes: seq<string>)

  /** The resolved theme the context exposes: the store's value, or `light`
      when it has none (an absent or empty value is falsy). */
  function CurrentResolvedTheme(resolved: Option<string>): (r: string)
    ensures r != []
    ensures resolved.Some? && resolved.value != [] ==> r == resolved.value
    ensures resolved.None? || resolved.value == [] ==> r == Light
  {
    if resolved.Some? && resolved.value != [] then resolved.value else Light
  }

  /** The context value derived from what the store reports: its theme, its
      resolved theme and its system theme. */
  function ContextValue(theme: string, resolved: Option<string>, storeSystemTheme: Option<string>): (v: ThemeContextValue)
    ensures v.theme == theme && v.systemTheme == storeSystemTheme
    ensures v.resolvedTheme == CurrentResolvedTheme(resolved)
    ensures v.isSystemTheme <==> theme == System
    ensures v.isDarkMode <==> resolved == Some(Dark)
    ensures v.themes == Themes
  {
    var currentResolvedTheme := CurrentResolvedTheme(resolved);
    ThemeContextValue(theme, storeSystemTheme, currentResolvedTheme,
      theme == System, currentResolvedTheme == Dark, Themes)
  }

  /** The store behind the context provider, reduced to the theme it was last
      given. */
  class ThemeStore {
    var theme: string

    constructor (theme: string)
      ensures this.theme == theme
    {
      this.theme := theme;
    }

    /** The validated `setTheme` of the context provider: one of the three
        themes is forwarded as it is, anything else is replaced by `system`
        (the rejection is only logged). */
    method SetTheme(newTheme: string)
      modifies this
      ensures theme == ValidatedTheme(newTheme)
      ensures theme in Themes
    {
      if newTheme in Themes {
        theme := newTheme;
      } else {
        theme := System;
      }
    }
  }

  /** The outer provider's own state: whether it has mounted, and the system
      scheme it detected. */
  class ThemeProvider {
    var mounted: bool
    var systemTheme: Option<string>

    /** Before the mount effect: nothing rendered, no scheme known. */
    constructor ()
      ensures !mounted && systemTheme.None?
    {
      mounted := false;
      systemTheme := None;
    }

    /** The mount effect: the provider is mounted and takes the scheme the
        media query reports. */
    method Mount(matchesDark: bool)
      modifies this
      ensures mounted
      ensures systemTheme == Some(SchemeOf(matchesDark))
    {
      mounted := true;
      systemTheme := Some(SchemeOf(matchesDark));
    }

    /** The `change` listener: the scheme follows the media query. */
    method OnChange(matchesDark: bool)
      modifies this`systemTheme
      ensures systemTheme == Some(SchemeOf(matchesDark))
    {
      systemTheme := Some(SchemeOf(matchesDark));
    }

    /** Whether the provider renders its children: only once mounted. */
    function RendersChildren(): (r: bool)
      reads this
      ensures r <==> mounted
    {
      mounted
    }
  }

  const OutsideProvider := "useTheme must be used within a ThemeProvider"

  /** `useTheme()`: the context value, or an error when no provider is above
      the caller. `TodoContext.UseTodoContext` is the same guard for the todo
      context; each keeps its own hook's error message. */
  function UseTheme(context: Option<ThemeContextValue>): (r: Result<ThemeContextValue, string>)
    ensures r.Failure? <==> context.None?
    ensures r.Failure? ==> r.error == OutsideProvider
    ensures r.Success? ==> r.value == context.value
  {
    match context
    case None => Failure(OutsideProvider)
    case Some(value) => Success(value)
  }

  /** After `setTheme`, the context reports a system theme exactly when
      `system` or an invalid theme was asked for. */
  lemma SetThemeSystemFlag(newTheme: string, resolved: Option<string>, storeSystemTheme: Option<string>)
    ensures ContextValue(ValidatedTheme(newTheme), resolved, storeSystemTheme).isSystemTheme
      <==> newTheme == System || newTheme !in Themes
  {
  }

  /** A session: the theme store takes a valid theme as it is and falls back
      to `system` on an invalid one; the detected scheme follows the media
      query. */
  method Session(matchesDark: bool)
  {
    var store := new ThemeStore(System);
    store.SetTheme(Dark);
    assert store.theme == Dark;
    store.SetTheme("sepia");
    assert store.theme == System;
    var provider := new ThemeProvider();
    assert !provider.RendersChildren();
    provider.Mount(matchesDark);
    assert provider.RendersChildren();
    provider.OnChange(!matchesDark);
    assert provider.systemTheme == Some(if matchesDark then Light else Dark);
  }
}
