# Theme preference of Materialistic, modelled in Dafny

`ThemePreference` is the settings control with which a user of the
Materialistic Hacker News reader picks one of seven themes: light, dark,
black, sepia, green, solarized and solarized_dark. The model covers its
core:

- the static theme table `VALUES` (key to `ThemeSpec`) and button table
  `BUTTONS` (button id to key), built by the class initialiser;
- `getTheme(value, isTranslucent)`, the lookup with its fallback to
  `"light"`;
- `ThemeSpec` and its subclasses `LightSpec` and `DarkSpec`, whose
  `getTranslucent` creates a translucent sibling once and caches it;
- the preference's own state, the summary it shows and the string it
  persists, as changed by `onSetInitialValue` and by a click on one of the
  seven buttons bound in `onBindViewHolder`.

Modules, by concern:

- `Wrappers` and `Resources` (resources.dfy): `Option`, used for Java
  references that may be null, and resource ids as distinct opaque
  integers.
- `ThemeTable` (theme_table.dfy): the registry as values. It holds the
  key datatype, the spec of each key, the translucent variant of a spec,
  `Resolve` (the value-level `getTheme`), the initial-value choice and the
  button table, with the lemmas about them.
- `Specs` (theme_spec.dfy): class `ThemeSpec`. A `family` tag stands for
  the subclass (plain, `LightSpec`, `DarkSpec`). The mutable `translucent`
  field is the cache.
- `Themes` (registry.dfy): class `Registry`, which holds `VALUES` and
  `BUTTONS` as constant fields. `GetTheme` works on the shared spec
  objects and is specified through `ThemeTable.Resolve`.
- `Preference` (theme_preference.dfy): class `ThemePreference`, with
  fields `summary` and `persisted`.

Two consequences of the code that the model keeps:

- `"light"` and `"dark"` are built as `LightSpec` and `DarkSpec`
  (ThemePreference.java:52-53), so they get a distinct cached translucent
  variant. Only a plain `ThemeSpec`, which every variant is, returns
  itself.
- `getTheme` falls back to `"light"` for any value `VALUES` does not hold
  (:63). `onSetInitialValue` replaces only null and `""` (:85-87). A
  non-empty unknown value makes `VALUES.get` return null, and reading
  `.summary` from it throws (:88). The model makes that path an explicit
  outcome (`NullPointer`, summary unchanged), and
  `ThemeTable.InitialUnknownHasNoSummary` states the gap.

## Model

| member | source | states |
|---|---|---|
| `ThemeTable.Parse` | app/src/main/java/io/github/hidroh/materialistic/preference/ThemePreference.java:34-40 | a string names a key exactly when it is one of the seven key strings, and the key found is named by that string |
| `ThemeTable.ParseName` | app/src/main/java/io/github/hidroh/materialistic/preference/ThemePreference.java:34-40 | every key's name is one of the seven strings and parses back to that key |
| `ThemeTable.NameInjective` | app/src/main/java/io/github/hidroh/materialistic/preference/ThemePreference.java:34-40 | distinct keys are persisted under distinct strings |
| `ThemeTable.FamilyOf` | app/src/main/java/io/github/hidroh/materialistic/preference/ThemePreference.java:52-59 | every entry of VALUES is a LightSpec or a DarkSpec, never a plain ThemeSpec |
| `ThemeTable.ValuesTable` | app/src/main/java/io/github/hidroh/materialistic/preference/ThemePreference.java:52-59 | the seven entries of VALUES as `SpecOf` gives them: each key's label, its family's base style and its override style, -1 for light and dark |
| `ThemeTable.FamilyStyles` | app/src/main/java/io/github/hidroh/materialistic/preference/ThemePreference.java:130-156 | LightSpec passes AppTheme and its variant AppTheme_Translucent, DarkSpec AppTheme_Dark and AppTheme_Dark_Translucent; the four styles are distinct |
| `ThemeTable.TranslucentOf` | app/src/main/java/io/github/hidroh/materialistic/preference/ThemePreference.java:119-159 | the translucent variant keeps summary and overrides; a plain spec is its own variant; a LightSpec's or DarkSpec's variant has its family's translucent style |
| `ThemeTable.ResolveKey` | app/src/main/java/io/github/hidroh/materialistic/preference/ThemePreference.java:63 | a value VALUES holds selects its own key; anything else, null included, selects "light" |
| `ThemeTable.Resolve` | app/src/main/java/io/github/hidroh/materialistic/preference/ThemePreference.java:62-65 | the resolved spec has the selected key's summary and overrides, and its family's base style or, when translucent, its family's translucent style |
| `ThemeTable.FallbackIsLight` | app/src/main/java/io/github/hidroh/materialistic/preference/ThemePreference.java:62-64 | any value outside VALUES, null and "" included, resolves exactly as "light" does, translucent or not |
| `ThemeTable.ResolveRecognised` | app/src/main/java/io/github/hidroh/materialistic/preference/ThemePreference.java:63-64 | a recognised key resolves to its table entry, or with isTranslucent to that entry's translucent variant |
| `ThemeTable.TableShape` | app/src/main/java/io/github/hidroh/materialistic/preference/ThemePreference.java:52-59 | light, sepia, green, solarized build on AppTheme; dark, black, solarized_dark on AppTheme_Dark; only light and dark have no override style; the other overrides are pairwise distinct |
| `ThemeTable.SummariesDistinct` | app/src/main/java/io/github/hidroh/materialistic/preference/ThemePreference.java:52-59 | each key has its own summary label |
| `ThemeTable.TranslucentVariant` | app/src/main/java/io/github/hidroh/materialistic/preference/ThemePreference.java:135-159 | every entry's translucent variant differs from it in the window style only, and is its own translucent variant |
| `ThemeTable.ChooseValue` | app/src/main/java/io/github/hidroh/materialistic/preference/ThemePreference.java:84-87 | the chosen value is never empty: the persisted string when restoring, else the default, with null or "" replaced by "light" |
| `ThemeTable.InitialSummary` | app/src/main/java/io/github/hidroh/materialistic/preference/ThemePreference.java:84-88 | a summary is set exactly when the chosen value is a key, and it is that key's label |
| `ThemeTable.InitialEmptyIsLight` | app/src/main/java/io/github/hidroh/materialistic/preference/ThemePreference.java:84-88 | restoring a missing or empty persisted value shows the light label |
| `ThemeTable.InitialUnknownHasNoSummary` | app/src/main/java/io/github/hidroh/materialistic/preference/ThemePreference.java:84-88 | a non-empty unknown value gets no summary on initialisation, although getTheme resolves it to light |
| `Preference.InitialDefaultIsLight` | app/src/main/java/io/github/hidroh/materialistic/preference/ThemePreference.java:77-88 | without restoring, the default onGetDefaultValue supplies is "light", and the light label is shown |
| `ThemeTable.ToMap` | app/src/main/java/io/github/hidroh/materialistic/preference/ThemePreference.java:44-50 | the map built by successive puts holds every id put, and nothing but pairs that were put |
| `ThemeTable.ToMapAt` | app/src/main/java/io/github/hidroh/materialistic/preference/ThemePreference.java:95-97 | with distinct ids, the entry at each index i is what the map gives for that id (keyAt(i)/valueAt(i) agree with get) |
| `ThemeTable.ButtonsDistinct` | app/src/main/java/io/github/hidroh/materialistic/preference/ThemePreference.java:44-50 | BUTTONS has seven entries, distinct ids, distinct keys, all keys of VALUES |
| `ThemeTable.ButtonsPairKeys` | app/src/main/java/io/github/hidroh/materialistic/preference/ThemePreference.java:44-50 | each entry of the constant `Buttons` (the puts into BUTTONS) pairs a key with that key's own button id |
| `ThemeTable.ButtonMapSelects` | app/src/main/java/io/github/hidroh/materialistic/preference/ThemePreference.java:44-50 | every key's button maps to that key, and no other button does |
| `ThemeTable.ButtonMapKeys` | app/src/main/java/io/github/hidroh/materialistic/preference/ThemePreference.java:44-50 | the button ids are exactly the seven of the layout |
| `Specs.ThemeSpec.Plain` | app/src/main/java/io/github/hidroh/materialistic/preference/ThemePreference.java:113-117 | a plain spec with the given fields and an empty cache |
| `Specs.ThemeSpec.LightSpec` | app/src/main/java/io/github/hidroh/materialistic/preference/ThemePreference.java:126-132 | a light-family spec with base style AppTheme, the given summary and overrides, empty cache |
| `Specs.ThemeSpec.DarkSpec` | app/src/main/java/io/github/hidroh/materialistic/preference/ThemePreference.java:145-151 | a dark-family spec with base style AppTheme_Dark, the given summary and overrides, empty cache |
| `Specs.ThemeSpec.GetTranslucent` | app/src/main/java/io/github/hidroh/materialistic/preference/ThemePreference.java:119-159 | plain spec: returns itself, changes nothing; LightSpec/DarkSpec: allocates a fresh variant on the first call and stores it, returns the stored object afterwards; the field is never overwritten; the result is plain with the inherited fields |
| `Specs.TranslucentStable` | app/src/main/java/io/github/hidroh/materialistic/preference/ThemePreference.java:135-140 | two calls of getTranslucent return the identical object, the one cached in the field |
| `Specs.TranslucentIdempotent` | app/src/main/java/io/github/hidroh/materialistic/preference/ThemePreference.java:119-121 | getTranslucent of getTranslucent(x) is getTranslucent(x) |
| `Themes.Registry.constructor` | app/src/main/java/io/github/hidroh/materialistic/preference/ThemePreference.java:43-60 | the initialiser fills BUTTONS and VALUES with fresh specs of the table's shape and empty caches |
| `Themes.Registry.Entry` | app/src/main/java/io/github/hidroh/materialistic/preference/ThemePreference.java:63 | the object VALUES holds for a key has that key's family and fields |
| `Themes.FillValues` | app/src/main/java/io/github/hidroh/materialistic/preference/ThemePreference.java:52-59 | the seven puts into VALUES: key set, each entry's family and fields, fresh objects without a variant |
| `Themes.Registry.GetTheme` | app/src/main/java/io/github/hidroh/materialistic/preference/ThemePreference.java:62-65 | returns the looked-up entry, or its cached or newly created translucent variant; its fields are those of Resolve; only that entry's cache may change and the registry stays consistent |
| `Themes.TranslucentThemeStable` | app/src/main/java/io/github/hidroh/materialistic/preference/ThemePreference.java:62-64 | two translucent lookups of one value give the identical object, distinct from the base entry |
| `Themes.FallbackSameObject` | app/src/main/java/io/github/hidroh/materialistic/preference/ThemePreference.java:62-64 | an unknown value returns the very object that "light" returns |
| `Preference.ThemePreference.constructor` | app/src/main/java/io/github/hidroh/materialistic/preference/ThemePreference.java:71-74 | a new preference has no summary and sees the stored value |
| `Preference.ThemePreference.OnSetInitialValue` | app/src/main/java/io/github/hidroh/materialistic/preference/ThemePreference.java:82-89 | completes and shows the chosen key's label exactly when the chosen value is in VALUES; otherwise the null dereference, summary untouched; never persists |
| `Preference.ThemePreference.BindView` | app/src/main/java/io/github/hidroh/materialistic/preference/ThemePreference.java:92-105 | the loop over BUTTONS gives every key's button a listener for that key |
| `Preference.ThemePreference.OnClick` | app/src/main/java/io/github/hidroh/materialistic/preference/ThemePreference.java:100-103 | the listener shows the key's label and persists the key |
| `Preference.ThemePreference.ClickButton` | app/src/main/java/io/github/hidroh/materialistic/preference/ThemePreference.java:95-103 | clicking bound button b sets summary to the label of BUTTONS[b] and persisted to BUTTONS[b], nothing else |
| `Preference.ClickThenRestore` | app/src/main/java/io/github/hidroh/materialistic/preference/ThemePreference.java:100-103 | a key persisted by a click restores to the label that click showed |

## Left out

- The Android constructors, `setLayoutResource`, `TypedArray` and the `super.*` calls: framework plumbing with no logic of its own. `onGetDefaultValue` is the constant `DEFAULT_VALUE`.
- `holder.findViewById`, `setClickable` on the row and on the buttons, and listener registration: UI wiring. `BindView` returns the id-to-key map the listeners capture, and `OnClick` is the listener body.
- The real values of `R.string`, `R.style` and `R.id`: they are generated by the build. Here they are distinct integers, and `-1` stands for "no overrides".
- The storage behind `persistString` and `getPersistedString`, including `shouldPersist()`: it is I/O. The stored string is the field `persisted`, and `persistString` always writes it.
- The change notification behind `setSummary`: it is UI. `summary` holds the label's resource id.
- `ArrayMap` internals: `BUTTONS` is iterated in insertion order here, not in the map's key-sorted order. Every button gets the same listener either way.
- The one-argument `LightSpec(summary)` and `DarkSpec(summary)`: they delegate to the two-argument constructors with `-1`, and the model calls those.
- Concurrency: the source runs on the UI thread only.
