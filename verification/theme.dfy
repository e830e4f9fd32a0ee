/** The theme preference: the current theme id and the string under
    `@theme_pref`. The table of themes lives in the presentation layer, so the
    set of its ids is a parameter here; it contains the default `"dark"`. */
module ThemeStore {
  import opened Wrappers
  import opened Storage

  const DefaultThemeId := "dark"

  /** Names every plain JavaScript object inherits from `Object.prototype`;
      looking one of them up in an object literal yields a truthy value. */
  const InheritedNames: set<string> := {
    "constructor", "hasOwnProperty", "isPrototypeOf", "propertyIsEnumerable",
    "toLocaleString", "toString", "valueOf", "__proto__", "__defineGetter__",
    "__defineSetter__", "__lookupGetter__", "__lookupSetter__"}

  datatype ThemeState = ThemeState(current: string, storage: KeyValue)

  /** The invariant the provider relies on: `Themes[currentThemeId]` is a theme. */
  predicate Valid(s: ThemeState, themes: set<string>) {
    s.current in themes
  }

  function Init(storage: KeyValue): (s: ThemeState)
    ensures s.current == DefaultThemeId && s.storage == storage
  {
    ThemeState(DefaultThemeId, storage)
  }

  /** The guard `Themes[id]` as written: truthy for the table's own ids and
      for every inherited name. */
  predicate AcceptsAsWritten(themes: set<string>, id: string) {
    id in themes || id in InheritedNames
  }

  /** The guard as intended: only the table's own ids. */
  predicate Accepts(themes: set<string>, id: string) {
    id in themes
  }

  /** The candidate read at load, if any: a stored non-empty string, which the guard then tests. */
  function StoredChoice(storage: KeyValue, readOk: bool): (r: Option<string>)
    ensures r.Some? <==> readOk && ThemeKey in storage && storage[ThemeKey].Text? && storage[ThemeKey].s != ""
    ensures r.Some? ==> r.value == storage[ThemeKey].s
  {
    if readOk && ThemeKey in storage && storage[ThemeKey].Text? && storage[ThemeKey].s != "" then
      Some(storage[ThemeKey].s)
    else None
  }

  /** `loadTheme` with the intended guard. */
  function LoadTheme(s: ThemeState, themes: set<string>, readOk: bool): (r: ThemeState)
    ensures r.storage == s.storage
    ensures r.current == s.current || r.current in themes
    ensures var c := StoredChoice(s.storage, readOk);
      r.current == (if c.Some? && Accepts(themes, c.value) then c.value else s.current)
  {
    var c := StoredChoice(s.storage, readOk);
    if c.Some? && Accepts(themes, c.value) then ThemeState(c.value, s.storage) else s
  }

  /** `loadTheme` as written: the same truthy lookup, so a stored inherited
      name is adopted like a theme id. */
  function LoadThemeAsWritten(s: ThemeState, themes: set<string>, readOk: bool): (r: ThemeState)
    ensures r.storage == s.storage
    ensures r.current == s.current || r.current in themes || r.current in InheritedNames
    ensures var c := StoredChoice(s.storage, readOk);
      r.current == (if c.Some? && AcceptsAsWritten(themes, c.value) then c.value else s.current)
  {
    var c := StoredChoice(s.storage, readOk);
    if c.Some? && AcceptsAsWritten(themes, c.value) then ThemeState(c.value, s.storage) else s
  }

  /** `setThemeId(id)` with the intended guard: an unknown id is a no-op; a
      known one is set in memory and then written, and a failed write
      propagates. */
  function SetThemeId(s: ThemeState, themes: set<string>, id: string, writeOk: bool): (r: (ThemeState, Outcome))
    ensures !Accepts(themes, id) ==> r == (s, Done)
    ensures Accepts(themes, id) ==> r.0.current == id && OnlyKeyChanged(s.storage, r.0.storage, ThemeKey)
    ensures Accepts(themes, id) && writeOk ==> r.0.storage == s.storage[ThemeKey := Text(id)] && r.1 == Done
    ensures Accepts(themes, id) && !writeOk ==> r.0.storage == s.storage && r.1 == Raised
  {
    if Accepts(themes, id) then
      var (st, out) := Persist(id, s.storage, ThemeKey, Text(id), writeOk, Propagate);
      (ThemeState(st.mem, st.storage), out)
    else (s, Done)
  }

  /** `setThemeId(id)` as written: the same steps behind the inherited-name guard. */
  function SetThemeIdAsWritten(s: ThemeState, themes: set<string>, id: string, writeOk: bool): (r: (ThemeState, Outcome))
    ensures !AcceptsAsWritten(themes, id) ==> r == (s, Done)
    ensures AcceptsAsWritten(themes, id) ==> r.0.current == id && OnlyKeyChanged(s.storage, r.0.storage, ThemeKey)
    ensures AcceptsAsWritten(themes, id) && writeOk ==> r.0.storage == s.storage[ThemeKey := Text(id)] && r.1 == Done
    ensures AcceptsAsWritten(themes, id) && !writeOk ==> r.0.storage == s.storage && r.1 == Raised
  {
    if AcceptsAsWritten(themes, id) then
      var (st, out) := Persist(id, s.storage, ThemeKey, Text(id), writeOk, Propagate);
      (ThemeState(st.mem, st.storage), out)
    else (s, Done)
  }

  /** The provider starts valid, and both load and set keep it valid. */
  lemma ThemeInvariant(s: ThemeState, themes: set<string>, id: string, readOk: bool, writeOk: bool)
    requires DefaultThemeId in themes
    ensures Valid(Init(s.storage), themes)
    ensures Valid(s, themes) ==> Valid(LoadTheme(s, themes, readOk), themes)
    ensures Valid(s, themes) ==> Valid(SetThemeId(s, themes, id, writeOk).0, themes)
  {
  }

  /** A known id set successfully survives a restart. */
  lemma ReloadAfterSet(s: ThemeState, themes: set<string>, id: string)
    requires id in themes && id != ""
    ensures var r := SetThemeId(s, themes, id, true).0;
      LoadTheme(Init(r.storage), themes, true).current == id
  {
  }

  /** As written, the guard lets `"constructor"` through: with the themes
      `dark` and `light`, the current id leaves the table and the provider's
      `Themes[currentThemeId]` is the `Object` function, not a theme. */
  lemma InheritedNameBreaksInvariant()
    ensures var themes := {"dark", "light"};
      var r := SetThemeIdAsWritten(Init(map[]), themes, "constructor", true).0;
      !Valid(r, themes) && r.current == "constructor"
  {
    assert "constructor" in InheritedNames;
  }

  /** As written, the inherited name also survives a restart: once
      `"constructor"` is stored, the load guard adopts it again, so the
      provider starts outside the table on every later launch. */
  lemma InheritedNameSurvivesRestart()
    ensures var themes := {"dark", "light"};
      var r := SetThemeIdAsWritten(Init(map[]), themes, "constructor", true).0;
      var l := LoadThemeAsWritten(Init(r.storage), themes, true);
      l.current == "constructor" && !Valid(l, themes)
  {
    assert "constructor" in InheritedNames;
  }
}
