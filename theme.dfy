/**
 * Theme style and light/dark mode (src/lib/theme.ts): persisted under two
 * storage keys and mirrored into the `data-theme` / `data-mode` attributes of
 * the document element. `prefersDark` stands for the result of the media query
 * `(prefers-color-scheme: dark)`; a null document element stands for
 * `typeof document === "undefined"`.
 */
module Theme {
  import opened Wrappers
  import opened Browser

  const ThemeStyleKey := "site_theme_style"
  const ThemeModeKey := "site_theme_mode"
  const ThemeAttribute := "data-theme"
  const ModeAttribute := "data-mode"

  datatype ThemeStyle = Purple | Cyberpunk
  datatype ThemeMode = Light | Dark

  function StyleName(s: ThemeStyle): string {
    match s
    case Purple => "purple"
    case Cyberpunk => "cyberpunk"
  }

  function ModeName(m: ThemeMode): string {
    match m
    case Light => "light"
    case Dark => "dark"
  }

  /** The objects a setter may change: the storage, and the document element when there is one. */
  function Targets(storage: LocalStorage, doc: DocumentElement?): set<object> {
    if doc == null then {storage} else {storage, doc}
  }

  /** `getThemeStyle()`: a valid stored style, otherwise (also on a storage error) purple. */
  function GetThemeStyle(storage: LocalStorage): (r: ThemeStyle)
    reads storage
    ensures r == Cyberpunk <==>
      storage.available && ThemeStyleKey in storage.items && storage.items[ThemeStyleKey] == "cyberpunk"
  {
    match storage.GetItem(ThemeStyleKey)
    case Thrown => Purple
    case Normal(stored) =>
      if stored == Some("purple") then Purple
      else if stored == Some("cyberpunk") then Cyberpunk
      else Purple
  }

  /**
   * `getThemeMode()`: a valid stored mode wins; otherwise, and also when storage
   * throws, the system preference decides, defaulting to light.
   */
  function GetThemeMode(storage: LocalStorage, prefersDark: bool): (r: ThemeMode)
    reads storage
    ensures StoredModeValid(storage) ==> storage.items[ThemeModeKey] == ModeName(r)
    ensures !StoredModeValid(storage) ==> r == SystemThemeMode(prefersDark)
  {
    match storage.GetItem(ThemeModeKey)
    case Thrown => if prefersDark then Dark else Light
    case Normal(stored) =>
      if stored == Some("light") then Light
      else if stored == Some("dark") then Dark
      else if prefersDark then Dark
      else Light
  }

  /** Storage can be read and holds one of the two mode names. */
  predicate StoredModeValid(storage: LocalStorage)
    reads storage
  {
    storage.available && ThemeModeKey in storage.items && storage.items[ThemeModeKey] in {"light", "dark"}
  }

  /** The mode handed to the `watchSystemThemePreference` callback when the media query changes. */
  function SystemThemeMode(matches: bool): (m: ThemeMode)
    ensures m == Dark <==> matches
  {
    if matches then Dark else Light
  }

  /** `applyThemeStyle(style)`. */
  method ApplyThemeStyle(doc: DocumentElement?, style: ThemeStyle)
    modifies if doc == null then {} else {doc}
    ensures doc != null ==> doc.attributes == old(doc.attributes)[ThemeAttribute := StyleName(style)]
  {
    if doc != null {
      doc.SetAttribute(ThemeAttribute, StyleName(style));
    }
  }

  /** `applyThemeMode(mode)`. */
  method ApplyThemeMode(doc: DocumentElement?, mode: ThemeMode)
    modifies if doc == null then {} else {doc}
    ensures doc != null ==> doc.attributes == old(doc.attributes)[ModeAttribute := ModeName(mode)]
  {
    if doc != null {
      doc.SetAttribute(ModeAttribute, ModeName(mode));
    }
  }

  /** `applyTheme(style, mode)`: set both attributes and no other. */
  method ApplyTheme(doc: DocumentElement?, style: ThemeStyle, mode: ThemeMode)
    modifies if doc == null then {} else {doc}
    ensures doc != null ==>
      doc.attributes == old(doc.attributes)[ThemeAttribute := StyleName(style)][ModeAttribute := ModeName(mode)]
  {
    ApplyThemeStyle(doc, style);
    ApplyThemeMode(doc, mode);
  }

  /** `setThemeStyle(style)`: persist the style and apply it, applying it even when the write fails. */
  method SetThemeStyle(storage: LocalStorage, doc: DocumentElement?, style: ThemeStyle)
    modifies Targets(storage, doc)
    ensures storage.available == old(storage.available) && storage.writable == old(storage.writable)
    ensures storage.items ==
      if storage.available && storage.writable then old(storage.items)[ThemeStyleKey := StyleName(style)]
      else old(storage.items)
    ensures doc != null ==> doc.attributes == old(doc.attributes)[ThemeAttribute := StyleName(style)]
    ensures storage.available && storage.writable ==> GetThemeStyle(storage) == style
  {
    var _ := storage.SetItem(ThemeStyleKey, StyleName(style));
    // Applied whether the write succeeded or threw.
    ApplyThemeStyle(doc, style);
  }

  /** `setThemeMode(mode)`: persist the mode and apply it, applying it even when the write fails. */
  method SetThemeMode(storage: LocalStorage, doc: DocumentElement?, mode: ThemeMode, prefersDark: bool)
    modifies Targets(storage, doc)
    ensures storage.available == old(storage.available) && storage.writable == old(storage.writable)
    ensures storage.items ==
      if storage.available && storage.writable then old(storage.items)[ThemeModeKey := ModeName(mode)]
      else old(storage.items)
    ensures doc != null ==> doc.attributes == old(doc.attributes)[ModeAttribute := ModeName(mode)]
    ensures storage.available && storage.writable ==> GetThemeMode(storage, prefersDark) == mode
  {
    var _ := storage.SetItem(ThemeModeKey, ModeName(mode));
    // Applied whether the write succeeded or threw.
    ApplyThemeMode(doc, mode);
  }

  /** `initializeTheme()`: make both attributes agree with the getters, touching nothing else. */
  method InitializeTheme(storage: LocalStorage, doc: DocumentElement?, prefersDark: bool)
    modifies if doc == null then {} else {doc}
    ensures doc != null ==>
      doc.attributes == old(doc.attributes)
        [ThemeAttribute := StyleName(GetThemeStyle(storage))]
        [ModeAttribute := ModeName(GetThemeMode(storage, prefersDark))]
  {
    var style := GetThemeStyle(storage);
    var mode := GetThemeMode(storage, prefersDark);
    ApplyTheme(doc, style, mode);
  }
}
