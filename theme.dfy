/** The theme store (src/stores/theme.js): a `theme` ref initialised from
    storage, a `toggleTheme` action, and a watch effect, run once at start-up
    and again whenever the ref changes, that mirrors the theme into the `dark`
    class of the document root and into storage. The DOM class list is a set
    of class names; `localStorage` is a string map. */
module ThemeStore {
  import opened Js
  import opened WebStorage

  const ThemeKey: string := "theme"
  const DarkClass: string := "dark"

  /** `localStorage.getItem('theme') || 'light'`: the stored theme when it is
      a non-empty string, otherwise `'light'`. */
  function InitialTheme(store: Storage): (t: string)
    ensures t != ""
    ensures ThemeKey in store && store[ThemeKey] != "" ==> t == store[ThemeKey]
    ensures ThemeKey !in store || store[ThemeKey] == "" ==> t == "light"
  {
    match GetItem(store, ThemeKey)
    case Str(s) => if s != "" then s else "light"
    case _ => "light"
  }

  /** `theme === 'light' ? 'dark' : 'light'`. */
  function Toggled(theme: string): (t: string)
    ensures t == "dark" <==> theme == "light"
    ensures t == "light" <==> theme != "light"
    ensures t != theme
  {
    if theme == "light" then "dark" else "light"
  }

  /** Toggling twice gives back the starting theme exactly for the two themes
      the store itself writes; any other stored value ends up as `'dark'`. */
  lemma ToggleTwice(theme: string)
    ensures Toggled(Toggled(theme)) == theme <==> theme == "light" || theme == "dark"
    ensures theme != "light" ==> Toggled(Toggled(theme)) == "dark"
  {
  }

  /** `InitialTheme` agrees with JavaScript's `||` on what `getItem` returns. */
  lemma InitialThemeIsOr(store: Storage)
    ensures Or(GetItem(store, ThemeKey), Str("light")) == Str(InitialTheme(store))
  {
  }

  class Store {
    /** The `theme` ref. */
    var theme: string
    /** The classes of `document.documentElement`. */
    var rootClasses: set<string>
    /** The contents of `localStorage`. */
    var storage: Storage

    /** What the watch effect keeps true: the root has the `dark` class exactly
        when the theme is `'dark'`, and storage holds the current theme. */
    ghost predicate Valid()
      reads this
    {
      && (DarkClass in rootClasses <==> theme == "dark")
      && ThemeKey in storage && storage[ThemeKey] == theme
    }

    /** `useThemeStore()` run for the first time: the theme is read from
        storage and the effect runs at once (`immediate: true`), so a missing
        entry is written back as `'light'`. */
    constructor (store: Storage, classes: set<string>)
      ensures theme == InitialTheme(store)
      ensures rootClasses - {DarkClass} == classes - {DarkClass}
      ensures storage == store[ThemeKey := theme]
      ensures Valid()
    {
      theme := InitialTheme(store);
      rootClasses := classes;
      storage := store;
      new;
      ApplyTheme();
    }

    /** The watch callback for the current theme: adds or removes `dark` on
        the root (leaving every other class alone) and stores the theme. */
    method ApplyTheme()
      modifies this
      ensures theme == old(theme)
      ensures rootClasses == if theme == "dark" then old(rootClasses) + {DarkClass} else old(rootClasses) - {DarkClass}
      ensures storage == SetItem(old(storage), ThemeKey, theme)
      ensures Valid()
    {
      if theme == "dark" {
        rootClasses := rootClasses + {DarkClass};
      } else {
        rootClasses := rootClasses - {DarkClass};
      }
      storage := SetItem(storage, ThemeKey, theme);
    }

    /** `toggleTheme()`. The new value always differs from the old one, so the
        watch fires after every toggle. */
    method ToggleTheme()
      requires Valid()
      modifies this
      ensures theme == Toggled(old(theme)) && theme != old(theme)
      ensures rootClasses - {DarkClass} == old(rootClasses) - {DarkClass}
      ensures storage == old(storage)[ThemeKey := theme]
      ensures Valid()
    {
      SetTheme(Toggled(theme));
    }

    /** An assignment `theme.value = t` to the ref the store exposes. The watch
        runs only when the value actually changes; when it does not, the
        effect's earlier work still stands. */
    method SetTheme(t: string)
      requires Valid()
      modifies this
      ensures theme == t
      ensures rootClasses - {DarkClass} == old(rootClasses) - {DarkClass}
      ensures storage == old(storage)[ThemeKey := t]
      ensures Valid()
    {
      var changed := t != theme;
      theme := t;
      if changed {
        ApplyTheme();
      } else {
        assert storage == storage[ThemeKey := t];
      }
    }
  }

  /** Start-up with nothing stored, then two toggles: `'light'` is written at
      start-up, the first toggle turns the page dark, the second back to light,
      and the page's other classes survive. */
  method ThemeScenario(classes: set<string>) returns (s: Store)
    ensures s.theme == "light" && s.storage == map[ThemeKey := "light"]
    ensures s.rootClasses == classes - {DarkClass}
  {
    s := new Store(map[], classes);
    assert s.theme == "light" && s.storage[ThemeKey] == "light" && DarkClass !in s.rootClasses;
    s.ToggleTheme();
    assert s.theme == "dark" && s.storage[ThemeKey] == "dark" && DarkClass in s.rootClasses;
    s.ToggleTheme();
    assert s.theme == "light" && s.storage[ThemeKey] == "light" && DarkClass !in s.rootClasses;
    assert s.rootClasses - {DarkClass} == classes - {DarkClass};
  }
}
