// contexts/ThemeContext.tsx: the theme chosen from storage, `setTheme`, and
// whether the document carries the `dark` class. Storage holds the raw
// string under 'theme'; the OS preference is an input.

module ThemeContext {
  import opened Common

  datatype Theme = Light | Dark | System

  function ThemeName(t: Theme): string {
    match t
    case Light => "light"
    case Dark => "dark"
    case System => "system"
  }

  /** The initial state (:13-19): a stored 'light', 'dark' or 'system' is
      adopted, anything else (or nothing) gives 'system'. */
  function InitialTheme(stored: Option<string>): (r: Theme)
    ensures r == Light <==> stored == Some("light")
    ensures r == Dark <==> stored == Some("dark")
    ensures r == System <==> stored != Some("light") && stored != Some("dark")
  {
    if stored == Some("light") then Light
    else if stored == Some("dark") then Dark
    else System
  }

  /** What `setTheme` stores is read back as the same theme. */
  lemma StoredThemeRoundTrip(t: Theme)
    ensures InitialTheme(Some(ThemeName(t))) == t
  {
  }

  /** `isDark` (:23-25). */
  function IsDark(t: Theme, osPrefersDark: bool): (r: bool)
    ensures t == Dark ==> r
    ensures t == Light ==> !r
    ensures t == System ==> r == osPrefersDark
  {
    t == Dark || (t == System && osPrefersDark)
  }

  /** Only under 'system' does the OS preference matter. */
  lemma OsMattersOnlyUnderSystem(t: Theme, a: bool, b: bool)
    requires IsDark(t, a) != IsDark(t, b)
    ensures t == System
  {
  }

  /** The class after the media-query listener (:32-36) runs with the OS's
      new preference: it follows the OS only while storage says 'system'. */
  function DarkAfterOsChange(stored: Option<string>, darkClass: bool, matches: bool): (r: bool)
    ensures stored == Some("system") ==> r == matches
    ensures stored != Some("system") ==> r == darkClass
  {
    if stored == Some("system") then matches else darkClass
  }

  /** As written, the listener misses the default: with nothing stored the
      theme is 'system' and the class follows the OS at start, yet when the
      OS turns dark the class stays off. */
  lemma OsChangeMissesDefault()
    ensures InitialTheme(None) == System
    ensures !IsDark(InitialTheme(None), false)
    ensures IsDark(InitialTheme(None), true)
    ensures !DarkAfterOsChange(None, IsDark(InitialTheme(None), false), true)
  {
  }

  /** The listener as evidently intended: it tests the theme in use. */
  function DarkAfterOsChangeFixed(t: Theme, darkClass: bool, matches: bool): (r: bool)
    ensures t == System ==> r == matches
    ensures t != System ==> r == darkClass
  {
    if t == System then matches else darkClass
  }

  /** With that test the class always agrees with `isDark`. */
  lemma FixedListenerKeepsClass(t: Theme, darkClass: bool, osPrefersDark: bool, matches: bool)
    requires darkClass == IsDark(t, osPrefersDark)
    ensures DarkAfterOsChangeFixed(t, darkClass, matches) == IsDark(t, matches)
  {
  }

  /** As written the two agree exactly when storage names the theme in use,
      which `setTheme` ensures. */
  lemma ListenerAgreesWhenStored(t: Theme, darkClass: bool, osPrefersDark: bool, matches: bool)
    requires darkClass == IsDark(t, osPrefersDark)
    ensures DarkAfterOsChange(Some(ThemeName(t)), darkClass, matches) == IsDark(t, matches)
  {
  }

  class ThemeState {
    var stored: Option<string>
    var theme: Theme
    var osPrefersDark: bool
    var darkClass: bool

    /** The class agrees with `isDark` for the theme and the OS. */
    predicate ClassCorrect()
      reads this
    {
      darkClass == IsDark(theme, osPrefersDark)
    }

    /** Mounting the provider: the initial theme, then the effect that sets
        the class. */
    constructor (s: Option<string>, os: bool)
      ensures stored == s && theme == InitialTheme(s) && osPrefersDark == os
      ensures ClassCorrect()
    {
      stored := s;
      theme := InitialTheme(s);
      osPrefersDark := os;
      darkClass := IsDark(InitialTheme(s), os);
    }

    /** `setTheme` (:43-46). The class effect (:21-28) depends on `theme`
        alone, so it runs only when the theme actually changes; setting the
        theme in use leaves the class as it was. */
    method SetTheme(t: Theme)
      modifies this`stored, this`theme, this`darkClass
      ensures stored == Some(ThemeName(t)) && theme == t
      ensures t != old(theme) ==> ClassCorrect()
      ensures t == old(theme) ==> darkClass == old(darkClass)
      ensures old(ClassCorrect()) ==> ClassCorrect()
    {
      stored := Some(ThemeName(t));
      if t != theme {
        darkClass := IsDark(t, osPrefersDark);
      }
      theme := t;
    }

    /** The OS preference changes and the listener runs, as written. */
    method OsChange(matches: bool)
      modifies this`osPrefersDark, this`darkClass
      ensures osPrefersDark == matches
      ensures darkClass == DarkAfterOsChange(stored, old(darkClass), matches)
      ensures stored == Some(ThemeName(theme)) && old(ClassCorrect()) ==> ClassCorrect()
    {
      osPrefersDark := matches;
      if stored == Some("system") {
        darkClass := matches;
      }
    }
  }

  /** Choosing 'system' after the listener missed the OS turning dark does
      not repair the class: the theme was 'system' already, so the effect
      does not run again. */
  method SystemAfterMissedChange() returns (s: ThemeState)
    ensures s.theme == System && s.stored == Some("system") && s.osPrefersDark
    ensures !s.darkClass && !s.ClassCorrect()
  {
    s := new ThemeState(None, false);
    s.OsChange(true);
    s.SetTheme(System);
  }
}
