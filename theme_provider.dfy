/** Theme handling of the web app
    (apps/web/src/components/providers/TelegramThemeProvider.tsx). The
    theme is chosen by priority: a stored manual preference, then the
    Telegram colour scheme, then the system setting. It is shown by the
    presence of the `dark` class on the root element, and the preference
    lives under one localStorage key. */
module ThemeProvider {
  import opened Wrappers
  import opened JsStrings

  datatype Theme = Light | Dark

  /** What the Settings screen offers. */
  datatype Preference = Fixed(theme: Theme) | System

  const PreferenceKey: string := "theme-preference"
  const DarkClass: string := "dark"

  function ThemeName(t: Theme): (name: string)
    ensures name == "light" || name == "dark"
  {
    if t == Light then "light" else "dark"
  }

  /** `determineTheme()`, over what it reads: whether there is a window,
      the stored value, Telegram's colour scheme and whether the system
      prefers dark. */
  function DetermineTheme(hasWindow: bool, stored: Option<string>, colorScheme: Option<Theme>, systemDark: bool): (t: Theme)
    ensures !hasWindow ==> t == Dark
    ensures hasWindow && stored == Some("light") ==> t == Light
    ensures hasWindow && stored == Some("dark") ==> t == Dark
    ensures hasWindow && stored != Some("light") && stored != Some("dark") ==>
              t == if colorScheme.Some? then colorScheme.value else if systemDark then Dark else Light
  {
    if !hasWindow then Dark
    else if stored == Some("light") then Light
    else if stored == Some("dark") then Dark
    else if colorScheme.Some? then colorScheme.value
    else if systemDark then Dark
    else Light
  }

  /** A manual preference, once stored, decides the theme by itself. */
  lemma StoredPreferenceWins(t: Theme, scheme: Option<Theme>, scheme': Option<Theme>, systemDark: bool, systemDark': bool)
    ensures DetermineTheme(true, Some(ThemeName(t)), scheme, systemDark) == t
    ensures DetermineTheme(true, Some(ThemeName(t)), scheme, systemDark) ==
            DetermineTheme(true, Some(ThemeName(t)), scheme', systemDark')
  {
  }

  /** `getThemePreference()` over the stored value. */
  function ReadPreference(hasWindow: bool, stored: Option<string>): (p: Preference)
    ensures p != System <==> hasWindow && (stored == Some("light") || stored == Some("dark"))
    ensures p != System ==> stored == Some(ThemeName(p.theme))
  {
    if !hasWindow then System
    else if stored == Some("light") then Fixed(Light)
    else if stored == Some("dark") then Fixed(Dark)
    else System
  }

  /** What `setThemePreference(p)` leaves under the key: nothing for
      `'system'`, the theme's name otherwise. */
  function StoredFor(p: Preference): (stored: Option<string>)
    ensures p == System <==> stored.None?
  {
    if p == System then None else Some(ThemeName(p.theme))
  }

  /** Setting then reading a preference gives it back. */
  lemma PreferenceRoundTrip(p: Preference)
    ensures ReadPreference(true, StoredFor(p)) == p
  {
  }

  /** The preference read from the store decides the theme exactly as the
      raw stored value does: a fixed one picks its theme, and everything
      else falls through to Telegram and the system. */
  lemma ThemeFollowsPreference(stored: Option<string>, scheme: Option<Theme>, systemDark: bool)
    ensures DetermineTheme(true, stored, scheme, systemDark) ==
            match ReadPreference(true, stored)
            case Fixed(t) => t
            case System => DetermineTheme(true, None, scheme, systemDark)
  {
  }

  /** The guard of the system-theme listener: no stored value at all and no
      Telegram colour scheme. */
  predicate SystemChangeReapplies(stored: Option<string>, colorScheme: Option<Theme>) {
    Truthy(stored).None? && colorScheme.None?
  }

  /** When the guard lets a change through, the theme applied is the
      system's. */
  lemma ReappliedThemeIsSystem(stored: Option<string>, systemDark: bool)
    requires SystemChangeReapplies(stored, None)
    ensures DetermineTheme(true, stored, None, systemDark) == if systemDark then Dark else Light
  {
  }

  /** When the guard holds the change back because of a valid preference
      or a Telegram colour scheme, skipping is harmless: the theme does not
      depend on the system setting. */
  lemma SkippedChangeIsHarmless(stored: Option<string>, scheme: Option<Theme>)
    requires !SystemChangeReapplies(stored, scheme)
    requires stored == Some("light") || stored == Some("dark") || scheme.Some?
    ensures DetermineTheme(true, stored, scheme, true) == DetermineTheme(true, stored, scheme, false)
  {
  }

  /** Any other non-empty stored value also holds the change back, although
      the theme does then follow the system: the page keeps the old theme. */
  lemma OtherStoredValueGoesStale()
    ensures !SystemChangeReapplies(Some("system"), None)
    ensures DetermineTheme(true, Some("system"), None, true) != DetermineTheme(true, Some("system"), None, false)
  {
  }

  /** The browser state the provider reads and writes. */
  class Browser {
    const hasWindow: bool
    const hasDocument: bool
    /** The value under `theme-preference` in localStorage. */
    var stored: Option<string>
    /** `window.Telegram?.WebApp?.colorScheme`, when set. */
    var colorScheme: Option<Theme>
    /** `matchMedia('(prefers-color-scheme: dark)').matches` */
    var systemDark: bool
    /** The class list of `document.documentElement`. */
    var htmlClasses: set<string>
    /** How many `theme-preference-changed` events were dispatched. */
    var preferenceEvents: nat

    constructor(hasWindow: bool, hasDocument: bool, stored: Option<string>, colorScheme: Option<Theme>,
                systemDark: bool, htmlClasses: set<string>)
      ensures this.hasWindow == hasWindow && this.hasDocument == hasDocument
      ensures this.stored == stored && this.colorScheme == colorScheme && this.systemDark == systemDark
      ensures this.htmlClasses == htmlClasses && preferenceEvents == 0
    {
      this.hasWindow := hasWindow;
      this.hasDocument := hasDocument;
      this.stored := stored;
      this.colorScheme := colorScheme;
      this.systemDark := systemDark;
      this.htmlClasses := htmlClasses;
      preferenceEvents := 0;
    }

    /** `determineTheme()` in this browser. */
    function CurrentTheme(): Theme
      reads this
    {
      DetermineTheme(hasWindow, stored, colorScheme, systemDark)
    }

    /** `getThemePreference()` */
    function GetThemePreference(): Preference
      reads this
    {
      ReadPreference(hasWindow, stored)
    }

    /** The page shows the theme `determineTheme` picks. */
    predicate Shows(t: Theme)
      reads this
    {
      DarkClass in htmlClasses <==> t == Dark
    }

    /** `applyTheme(theme)`: adds or removes `dark` and no other class;
        nothing happens without a document. */
    method ApplyTheme(theme: Theme)
      modifies this
      ensures hasDocument ==> Shows(theme) && htmlClasses - {DarkClass} == old(htmlClasses) - {DarkClass}
      ensures !hasDocument ==> htmlClasses == old(htmlClasses)
      ensures stored == old(stored) && colorScheme == old(colorScheme) && systemDark == old(systemDark)
      ensures preferenceEvents == old(preferenceEvents)
    {
      if !hasDocument {
        return;
      }
      if theme == Dark {
        htmlClasses := htmlClasses + {DarkClass};
      } else {
        htmlClasses := htmlClasses - {DarkClass};
      }
    }

    /** `setThemePreference(p)`: stores or clears the preference, announces
        it, and shows the theme that now results. */
    method SetThemePreference(p: Preference)
      modifies this
      ensures !hasWindow ==> stored == old(stored) && htmlClasses == old(htmlClasses)
                             && preferenceEvents == old(preferenceEvents)
      ensures hasWindow ==> stored == StoredFor(p) && preferenceEvents == old(preferenceEvents) + 1
      ensures hasWindow ==> GetThemePreference() == p
      ensures hasWindow && hasDocument ==> Shows(CurrentTheme())
      ensures hasWindow && hasDocument && p.Fixed? ==> Shows(p.theme)
      ensures colorScheme == old(colorScheme) && systemDark == old(systemDark)
      ensures htmlClasses - {DarkClass} == old(htmlClasses) - {DarkClass}
      ensures !hasDocument ==> htmlClasses == old(htmlClasses)
    {
      if !hasWindow {
        return;
      }
      if p == System {
        stored := None;
      } else {
        stored := Some(ThemeName(p.theme));
      }
      preferenceEvents := preferenceEvents + 1;
      PreferenceRoundTrip(p);
      var theme := CurrentTheme();
      ApplyTheme(theme);
    }

    /** The Telegram `themeChanged` listener: the scheme becomes `scheme`,
        and the theme is re-applied unless a manual preference is stored. */
    method TelegramThemeChanged(scheme: Option<Theme>)
      requires hasWindow
      modifies this
      ensures colorScheme == scheme && stored == old(stored) && systemDark == old(systemDark)
      ensures (Truthy(stored).None? || stored == Some("system")) && hasDocument ==> Shows(CurrentTheme())
      ensures !(Truthy(stored).None? || stored == Some("system")) ==> htmlClasses == old(htmlClasses)
      ensures htmlClasses - {DarkClass} == old(htmlClasses) - {DarkClass}
      ensures !hasDocument ==> htmlClasses == old(htmlClasses)
      ensures preferenceEvents == old(preferenceEvents)
    {
      colorScheme := scheme;
      if Truthy(stored).None? || stored == Some("system") {
        var theme := CurrentTheme();
        ApplyTheme(theme);
      }
    }

    /** The media-query `change` listener: the system setting becomes
        `dark`, and the theme is re-applied only when nothing is stored and
        Telegram gives no colour scheme. */
    method SystemThemeChanged(dark: bool)
      requires hasWindow
      modifies this
      ensures systemDark == dark && stored == old(stored) && colorScheme == old(colorScheme)
      ensures SystemChangeReapplies(stored, colorScheme) && hasDocument ==> Shows(if dark then Dark else Light)
      ensures !SystemChangeReapplies(stored, colorScheme) ==> htmlClasses == old(htmlClasses)
      ensures htmlClasses - {DarkClass} == old(htmlClasses) - {DarkClass}
      ensures !hasDocument ==> htmlClasses == old(htmlClasses)
      ensures preferenceEvents == old(preferenceEvents)
    {
      systemDark := dark;
      if SystemChangeReapplies(stored, colorScheme) {
        var theme := CurrentTheme();
        ReappliedThemeIsSystem(stored, dark);
        ApplyTheme(theme);
      }
    }
  }
}
