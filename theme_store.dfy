/**
 * The mobile theme preference (mobile/stores/themeStore.ts): dark mode on by
 * default, persisted in the secure store as "dark" or "light".
 */
module ThemeStore {
  import opened Wrappers
  import KeyValue

  const ThemeKey: string := "book2action_theme"

  /** The stored word for a theme. */
  function ThemeName(dark: bool): (name: string)
    ensures name == "dark" <==> dark
  {
    if dark then "dark" else "light"
  }

  /** The theme a stored word selects: only "dark" is dark. */
  function IsDarkName(name: string): (dark: bool)
    ensures dark <==> name == "dark"
  {
    name == "dark"
  }

  class Theme {
    var isDarkMode: bool
    var isLoading: bool
    const storage: KeyValue.Store

    constructor(storage: KeyValue.Store)
      ensures isDarkMode && isLoading && this.storage == storage
    {
      this.storage := storage;
      isDarkMode := true;
      isLoading := true;
    }

    /** `toggleTheme`: flip the flag, then persist it; a failed write is swallowed and the flip stays. */
    method ToggleTheme(writeFails: bool)
      modifies this, storage
      ensures isDarkMode == !old(isDarkMode) && isLoading == old(isLoading)
      ensures storage.items == if writeFails then old(storage.items) else old(storage.items)[ThemeKey := ThemeName(isDarkMode)]
    {
      var newTheme := !isDarkMode;
      isDarkMode := newTheme;
      var _ := storage.SetItem(ThemeKey, ThemeName(newTheme), writeFails);
    }

    /** `loadTheme`: a stored word decides the theme; nothing stored (or a failed read) keeps it. */
    method LoadTheme(readFails: bool)
      modifies this
      ensures !isLoading
      ensures !readFails && ThemeKey in storage.items ==> isDarkMode == (storage.items[ThemeKey] == "dark")
      ensures readFails || ThemeKey !in storage.items ==> isDarkMode == old(isDarkMode)
    {
      if readFails {
        isLoading := false;
        return;
      }
      var savedTheme := storage.GetItem(ThemeKey);
      if savedTheme.Some? {
        isDarkMode := IsDarkName(savedTheme.value);
        isLoading := false;
      } else {
        isLoading := false;
      }
    }
  }

  /** Toggling twice restores the theme, and a successful toggle is what the next load reads. */
  method ToggleTwiceRestores(theme: Theme)
    modifies theme, theme.storage
    ensures theme.isDarkMode == old(theme.isDarkMode)
    ensures ThemeKey in theme.storage.items && IsDarkName(theme.storage.items[ThemeKey]) == theme.isDarkMode
  {
    theme.ToggleTheme(false);
    theme.ToggleTheme(false);
  }
}
