/** The light/dark theme switch of the page: the choice kept in the
    browser's storage under `portfolioTheme`, the `light-mode` class of the
    document element and the icon of the toggle button. The system colour
    scheme (the `prefers-color-scheme: dark` query) is an input. */
module Theme {
  import opened Seqs

  const Light: string := "light"
  const Dark: string := "dark"

  /** The icon shown in light mode (a moon) and in dark mode (a sun). */
  const MoonIcon: string := "\U{1F319}"
  const SunIcon: string := "\U{2600}\U{FE0F}"

  /** `getSystemTheme`: dark exactly when the dark colour-scheme query matches. */
  function SystemTheme(prefersDark: bool): (theme: string)
    ensures theme == Dark <==> prefersDark
    ensures theme == Light <==> !prefersDark
  {
    if prefersDark then Dark else Light
  }

  /** The stored value counts only when it is non-empty. */
  predicate HasChoice(stored: Option<string>) {
    stored.Some? && stored.value != ""
  }

  /** `getSavedTheme`, and the `current` of `toggleTheme`: the stored
      choice, or else the system theme; never empty. */
  function SavedTheme(stored: Option<string>, prefersDark: bool): (theme: string)
    ensures HasChoice(stored) ==> theme == stored.value
    ensures !HasChoice(stored) ==> theme == SystemTheme(prefersDark)
    ensures theme != ""
  {
    if HasChoice(stored) then stored.value else SystemTheme(prefersDark)
  }

  /** What the theme switch controls: the stored choice, whether the document
      is in light mode, and the icon text (`None` when the page has no
      toggle icon). */
  datatype Look = Look(stored: Option<string>, lightMode: bool, icon: Option<string>)

  /** The effect of `applyTheme(theme)`. */
  function Apply(look: Look, theme: string): Look {
    if theme == Light then
      Look(Some(Light), true, if look.icon.Some? then Some(MoonIcon) else None)
    else
      Look(Some(Dark), false, if look.icon.Some? then Some(SunIcon) else None)
  }

  /** The theme `toggleTheme` switches to from `current`. */
  function Opposite(current: string): string {
    if current == Dark then Light else Dark
  }

  /** The effect of `toggleTheme`. */
  function Toggle(look: Look, prefersDark: bool): Look {
    Apply(look, Opposite(SavedTheme(look.stored, prefersDark)))
  }

  /** The effect of the colour-scheme change listener, `matches` being the
      new state of the dark query: it applies the system theme only when no
      choice is stored. */
  function SystemChange(look: Look, matches: bool): Look {
    if HasChoice(look.stored) then look else Apply(look, if matches then Dark else Light)
  }

  /** The effect of loading the page: the saved theme is applied. */
  function Load(look: Look, prefersDark: bool): Look {
    Apply(look, SavedTheme(look.stored, prefersDark))
  }

  /** The three parts agree: a stored `light` or `dark`, light mode exactly
      for `light`, and the icon that goes with it. */
  predicate Settled(look: Look) {
    && (look.stored == Some(Light) || look.stored == Some(Dark))
    && (look.lightMode <==> look.stored == Some(Light))
    && (look.icon.Some? ==> look.icon.value == if look.lightMode then MoonIcon else SunIcon)
  }

  /** `applyTheme('light')` stores `light` and sets light mode; any other
      argument stores `dark` and clears it. Either way the result is settled,
      and the icon element is neither created nor removed. */
  lemma ApplySettles(look: Look, theme: string)
    ensures var r := Apply(look, theme);
      && Settled(r)
      && (r.stored == Some(Light) <==> theme == Light)
      && (r.lightMode <==> theme == Light)
      && (r.icon.Some? <==> look.icon.Some?)
  {
  }

  /** Applying is idempotent, and the last application wins. */
  lemma ApplyOverrides(look: Look, first: string, second: string)
    ensures Apply(Apply(look, first), second) == Apply(look, second)
    ensures Apply(Apply(look, first), first) == Apply(look, first)
  {
  }

  /** `toggleTheme` goes to light mode exactly when the current theme is
      `dark`. */
  lemma ToggleFlips(look: Look, prefersDark: bool)
    ensures Toggle(look, prefersDark).lightMode <==> SavedTheme(look.stored, prefersDark) == Dark
    ensures Settled(look) ==> Toggle(look, prefersDark).lightMode == !look.lightMode
  {
  }

  /** Two toggles from a stored `light` or `dark` bring it back; from a
      settled state they bring back the whole look, whatever the system
      theme. */
  lemma ToggleTwice(look: Look, prefersDark: bool)
    ensures look.stored == Some(Light) || look.stored == Some(Dark) ==>
      Toggle(Toggle(look, prefersDark), prefersDark).stored == look.stored
    ensures Settled(look) ==> Toggle(Toggle(look, prefersDark), prefersDark) == look
  {
  }

  /** Loading keeps a stored `light` or `dark` and otherwise stores the
      system theme when nothing is stored. */
  lemma LoadKeepsChoice(look: Look, prefersDark: bool)
    ensures Settled(Load(look, prefersDark))
    ensures look.stored == Some(Light) || look.stored == Some(Dark) ==>
      Load(look, prefersDark).stored == look.stored
    ensures !HasChoice(look.stored) ==> Load(look, prefersDark).stored == Some(SystemTheme(prefersDark))
  {
  }

  /** The initialisation may run twice (at once and again on
      `DOMContentLoaded`); the second run changes nothing. */
  lemma LoadTwice(look: Look, prefersDark: bool)
    ensures Load(Load(look, prefersDark), prefersDark) == Load(look, prefersDark)
  {
  }

  /** Once any theme has been applied (as loading does), a choice is stored
      and the listener no longer changes anything. */
  lemma ListenerIdleAfterApply(look: Look, theme: string, matches: bool)
    ensures SystemChange(Apply(look, theme), matches) == Apply(look, theme)
    ensures SystemChange(Load(look, !matches), matches) == Load(look, !matches)
  {
  }

  /** Before anything is stored the listener follows the system theme. */
  lemma ListenerFollowsSystem(look: Look, matches: bool)
    requires !HasChoice(look.stored)
    ensures SystemChange(look, matches).lightMode <==> !matches
    ensures SystemChange(look, matches).stored == Some(SystemTheme(matches))
  {
  }

  /** The document, the storage and the colour-scheme query as the script
      sees them. */
  class ThemeSwitch {
    var stored: Option<string>
    var lightMode: bool
    var icon: Option<string>
    var prefersDark: bool

    function Current(): Look
      reads this
    {
      Look(stored, lightMode, icon)
    }

    constructor (stored: Option<string>, lightMode: bool, icon: Option<string>, prefersDark: bool)
      ensures Current() == Look(stored, lightMode, icon) && this.prefersDark == prefersDark
    {
      this.stored := stored;
      this.lightMode := lightMode;
      this.icon := icon;
      this.prefersDark := prefersDark;
    }

    /** `getSavedTheme()`. */
    method GetSavedTheme() returns (theme: string)
      ensures theme == SavedTheme(stored, prefersDark)
    {
      if HasChoice(stored) {
        return stored.value;
      }
      theme := SystemTheme(prefersDark);
    }

    /** `applyTheme(theme)`. */
    method ApplyTheme(theme: string)
      modifies this`stored, this`lightMode, this`icon
      ensures Current() == Apply(old(Current()), theme)
      ensures Settled(Current())
    {
      if theme == Light {
        lightMode := true;
        if icon.Some? {
          icon := Some(MoonIcon);
        }
        stored := Some(Light);
      } else {
        lightMode := false;
        if icon.Some? {
          icon := Some(SunIcon);
        }
        stored := Some(Dark);
      }
    }

    /** `toggleTheme()`, the toggle button's handler. */
    method ToggleTheme()
      modifies this`stored, this`lightMode, this`icon
      ensures Current() == Toggle(old(Current()), prefersDark)
      ensures Settled(Current())
    {
      var current := GetSavedTheme();
      ApplyTheme(Opposite(current));
    }

    /** The `change` listener of the colour-scheme query. */
    method OnSystemChange(matches: bool)
      modifies this
      ensures prefersDark == matches
      ensures Current() == SystemChange(old(Current()), matches)
    {
      prefersDark := matches;
      if !HasChoice(stored) {
        ApplyTheme(if matches then Dark else Light);
      }
    }

    /** The initialisation on page load. */
    method Initialize()
      modifies this`stored, this`lightMode, this`icon
      ensures Current() == Load(old(Current()), prefersDark)
      ensures Settled(Current())
    {
      var theme := GetSavedTheme();
      ApplyTheme(theme);
    }
  }
}
