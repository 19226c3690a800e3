/**
  The theme provider: three themes with a cyclic toggle, the start-up
  resolution from the stored preference and the operating system's media
  preferences, and the effect that persists the theme and writes it onto the
  root element once the provider has mounted.

  The browser is a set of inputs: what `localStorage` holds, whether reading
  or writing it throws, and what the two `matchMedia` queries answer.
 */
module Theme {
  import opened Common

  datatype Theme = Light | Dark | HighContrast

  /** The token of a theme, used as the stored value, the root class and `data-theme`. */
  function ThemeName(t: Theme): string {
    match t
    case Light => "light"
    case Dark => "dark"
    case HighContrast => "high-contrast"
  }

  /** `['light', 'dark', 'high-contrast'].includes(s)`, read as a theme. */
  function ParseTheme(s: string): (t: Option<Theme>)
    ensures forall u :: t == Some(u) <==> s == ThemeName(u)
  {
    if s == "light" then Some(Light)
    else if s == "dark" then Some(Dark)
    else if s == "high-contrast" then Some(HighContrast)
    else None
  }

  /** The three theme tokens the root class list may hold. */
  const ThemeTokens: set<string> := {"light", "dark", "high-contrast"}

  lemma ThemeNameIsToken(t: Theme)
    ensures ThemeName(t) in ThemeTokens
  {
  }

  // -------------------------------------------------------------- toggle

  /** The cycle order of `toggleTheme`. */
  const Cycle: seq<Theme> := [Light, Dark, HighContrast]

  /** `themes.indexOf(theme)`: every theme is in the cycle. */
  function CycleIndex(t: Theme): (i: nat)
    ensures i < |Cycle| && Cycle[i] == t
  {
    match t
    case Light => 0
    case Dark => 1
    case HighContrast => 2
  }

  /** `toggleTheme`: the next theme of the cycle, wrapping round. */
  function Toggle(t: Theme): (u: Theme)
    ensures u != t
    ensures CycleIndex(u) == (CycleIndex(t) + 1) % 3
  {
    Cycle[(CycleIndex(t) + 1) % |Cycle|]
  }

  /** Light goes to dark, dark to high contrast, high contrast back to light. */
  lemma ToggleOrder()
    ensures Toggle(Light) == Dark && Toggle(Dark) == HighContrast && Toggle(HighContrast) == Light
  {
  }

  /** Three toggles return to the starting theme, and the two in between
      are the other two themes. */
  lemma ToggleThrice(t: Theme)
    ensures Toggle(Toggle(Toggle(t))) == t
    ensures {t, Toggle(t), Toggle(Toggle(t))} == {Light, Dark, HighContrast}
  {
  }

  // ------------------------------------------------------------ start-up

  /** A browser call that may throw. */
  datatype Outcome<T> = Threw | Returned(value: T)

  /** The answers of `(prefers-color-scheme: dark)` and `(prefers-contrast: high)`. */
  datatype MediaPreferences = MediaPreferences(prefersDark: bool, prefersHighContrast: bool)

  /** The mount effect's choice: a valid stored theme wins; otherwise high
      contrast beats dark, which beats the light default; an exception
      anywhere yields light. */
  function InitialTheme(saved: Outcome<Option<string>>, media: Outcome<MediaPreferences>): (t: Theme)
    ensures saved.Threw? ==> t == Light
    ensures saved.Returned? && saved.value.Some? && ParseTheme(saved.value.value).Some? ==>
      t == ParseTheme(saved.value.value).value
    ensures saved.Returned? && (saved.value.None? || ParseTheme(saved.value.value).None?) ==>
      t == (if media.Threw? then Light
            else if media.value.prefersHighContrast then HighContrast
            else if media.value.prefersDark then Dark
            else Light)
  {
    match saved
    case Threw => Light
    case Returned(stored) =>
      var valid := if stored.Some? then ParseTheme(stored.value) else None;
      if valid.Some? then valid.value
      else
        match media
        case Threw => Light
        case Returned(m) =>
          if m.prefersHighContrast then HighContrast else if m.prefersDark then Dark else Light
  }

  /** A stored value that is not a theme token is ignored: the media
      preferences decide, exactly as if nothing had been stored. */
  lemma InvalidStoredValueIgnored(s: string, media: Outcome<MediaPreferences>)
    requires forall t :: s != ThemeName(t)
    ensures InitialTheme(Returned(Some(s)), media) == InitialTheme(Returned(None), media)
  {
  }

  // --------------------------------------------------------- root element

  /** The `<html>` element: its class list and its `data-theme` attribute. */
  datatype Root = Root(classes: set<string>, dataTheme: Option<string>)

  /** `classList.remove('light', 'dark', 'high-contrast')`, `classList.add(theme)`
      and `setAttribute('data-theme', theme)`. */
  function ApplyTheme(root: Root, t: Theme): (r: Root)
    ensures r.classes * ThemeTokens == {ThemeName(t)}
    ensures forall c :: c !in ThemeTokens ==> (c in r.classes <==> c in root.classes)
    ensures r.dataTheme == Some(ThemeName(t))
  {
    Root(root.classes - ThemeTokens + {ThemeName(t)}, Some(ThemeName(t)))
  }

  /** Applying a theme over another leaves the same root as applying it alone. */
  lemma ApplyLastWins(root: Root, a: Theme, b: Theme)
    ensures ApplyTheme(ApplyTheme(root, a), b) == ApplyTheme(root, b)
  {
    ThemeNameIsToken(a);
  }

  // ------------------------------------------------------------- provider

  /** The provider's state and the browser state it owns. */
  datatype Provider = Provider(theme: Theme, mounted: bool, stored: Option<string>, root: Root)

  /** First render: light, not mounted, browser state as found. */
  function Initial(stored: Option<string>, root: Root): (p: Provider)
    ensures p.theme == Light && !p.mounted
  {
    Provider(Light, false, stored, root)
  }

  /** The persist-and-apply effect: only once mounted; `setItem` throwing
      (`writable` false) skips the class and attribute update as well. */
  function Sync(p: Provider, writable: bool): (q: Provider)
    ensures q.theme == p.theme && q.mounted == p.mounted
    ensures !p.mounted || !writable ==> q == p
  {
    if p.mounted && writable then
      p.(stored := Some(ThemeName(p.theme)), root := ApplyTheme(p.root, p.theme))
    else p
  }

  /** The mount effect: resolve the initial theme (the stored value is read
      from the provider's storage unless reading throws), then the render
      with `mounted` set runs the persist-and-apply effect. */
  function Mount(p: Provider, readable: bool, media: Outcome<MediaPreferences>, writable: bool): (q: Provider)
    ensures q.mounted
    ensures q.theme == InitialTheme(if readable then Returned(p.stored) else Threw, media)
    ensures !writable ==> q.stored == p.stored && q.root == p.root
  {
    var saved := if readable then Returned(p.stored) else Threw;
    Sync(p.(mounted := true, theme := InitialTheme(saved, media)), writable)
  }

  /** The start-up paths as the provider sees them: storage that cannot be
      read gives light; with no valid stored theme the media preferences
      decide, and media queries that throw give light as well. */
  lemma MountStartupPaths(p: Provider, media: Outcome<MediaPreferences>, writable: bool)
    ensures Mount(p, false, media, writable).theme == Light
    ensures (p.stored.None? || ParseTheme(p.stored.value).None?) ==>
      Mount(p, true, media, writable).theme ==
        (if media.Threw? then Light
         else if media.value.prefersHighContrast then HighContrast
         else if media.value.prefersDark then Dark
         else Light)
  {
  }

  /** `setTheme`: React skips the render, and so the effect, when the theme
      does not change. */
  function SetTheme(p: Provider, t: Theme, writable: bool): (q: Provider)
    ensures q.theme == t && q.mounted == p.mounted
  {
    if t == p.theme then p else Sync(p.(theme := t), writable)
  }

  function ToggleTheme(p: Provider, writable: bool): (q: Provider)
    ensures q.theme == Toggle(p.theme)
  {
    SetTheme(p, Toggle(p.theme), writable)
  }

  /** The browser reflects the theme: stored, one theme class, `data-theme`. */
  predicate Reflected(p: Provider) {
    && p.stored == Some(ThemeName(p.theme))
    && p.root.classes * ThemeTokens == {ThemeName(p.theme)}
    && p.root.dataTheme == Some(ThemeName(p.theme))
  }

  /** Mounting with writable storage makes the browser reflect the theme and
      leaves every other root class as it was. */
  lemma MountReflects(p: Provider, readable: bool, media: Outcome<MediaPreferences>)
    ensures Reflected(Mount(p, readable, media, true))
    ensures forall c :: c !in ThemeTokens ==> (c in Mount(p, readable, media, true).root.classes <==> c in p.root.classes)
  {
  }

  /** Once reflected, every `setTheme` and toggle with writable storage keeps
      the browser reflecting the theme. */
  lemma SetThemeKeepsReflected(p: Provider, t: Theme)
    requires p.mounted && Reflected(p)
    ensures Reflected(SetTheme(p, t, true))
    ensures Reflected(ToggleTheme(p, true))
  {
  }

  /** Before mount nothing is persisted or applied, whatever the theme. */
  lemma UnmountedTouchesNothing(p: Provider, t: Theme, writable: bool)
    requires !p.mounted
    ensures SetTheme(p, t, writable).stored == p.stored
    ensures SetTheme(p, t, writable).root == p.root
  {
  }

  /** The persisted theme wins at the next start-up, whatever the media
      preferences say. */
  lemma PersistedThemeRestored(p: Provider, root: Root, media: Outcome<MediaPreferences>, writable: bool)
    requires Reflected(p)
    ensures Mount(Initial(p.stored, root), true, media, writable).theme == p.theme
  {
  }

  // ------------------------------------------------------------- context

  /** `useThemeSafe` and `useThemeClasses`: the provider's theme, or light
      outside any provider. `useTheme` throws outside a provider instead. */
  function ContextTheme(context: Option<Provider>): (t: Theme)
    ensures context.None? ==> t == Light
    ensures context.Some? ==> t == context.value.theme
  {
    if context.Some? then context.value.theme else Light
  }
}
