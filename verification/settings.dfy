/** `loadSettings` (src/main.ts:97-103) with the defaults of
    src/settings.ts:8-10: `Object.assign({}, DEFAULT_SETTINGS, loaded)`. */
module Settings {
  import opened Wrappers

  /** A stored JSON scalar. */
  datatype Json = JNull | JBool(b: bool) | JNum(n: real) | JStr(s: string)

  /** A settings object: its own enumerable properties. */
  type Record = map<string, Json>

  const MySetting: string := "mySetting"

  const DefaultSettings: Record := map[MySetting := JStr("default")]

  /** `loaded` is `None` when `loadData` finds nothing (`null`), which
      `Object.assign` skips. Properties are copied left to right, so a loaded
      property replaces the default of the same name. */
  function LoadSettings(loaded: Option<Record>): (r: Record)
    ensures MySetting in r
    ensures loaded.None? ==> r == DefaultSettings
    ensures loaded.Some? ==> r.Keys == DefaultSettings.Keys + loaded.value.Keys
    ensures loaded.Some? ==> forall k :: k in loaded.value ==> r[k] == loaded.value[k]
    ensures forall k :: k in DefaultSettings && (loaded.None? || k !in loaded.value) ==> r[k] == DefaultSettings[k]
  {
    match loaded
    case None => DefaultSettings
    case Some(m) => DefaultSettings + m
  }

  /** `mySetting` is the stored value when one was stored, "default" otherwise. */
  lemma MySettingValue(loaded: Option<Record>)
    ensures LoadSettings(loaded)[MySetting]
      == if loaded.Some? && MySetting in loaded.value then loaded.value[MySetting] else JStr("default")
  {
  }

  /** Saving the merged settings and loading them again gives the same settings. */
  lemma SaveThenLoad(loaded: Option<Record>)
    ensures LoadSettings(Some(LoadSettings(loaded))) == LoadSettings(loaded)
  {
  }
}
