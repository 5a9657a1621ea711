/**
 The theme registry as values: the seven theme keys, the spec each key stands
 for, the translucent variant of a spec, the lookup with its fallback to
 "light", the choice of the initial value and the table of buttons. The
 object-level registry (module Themes) and the preference (module Preference)
 are specified in terms of these functions.
 */
module ThemeTable {
  import opened Wrappers
  import opened Resources

  /** The seven themes the preference offers. */
  datatype Key = Light | Dark | Black | Sepia | Green | Solarized | SolarizedDark

  const LIGHT: string := "light"

  /** The string a key is persisted as. */
  function Name(k: Key): string
  {
    match k
    case Light => LIGHT
    case Dark => "dark"
    case Black => "black"
    case Sepia => "sepia"
    case Green => "green"
    case Solarized => "solarized"
    case SolarizedDark => "solarized_dark"
  }

  /** The keys of the VALUES table. */
  const KeyNames: set<string> :=
    {"light", "dark", "black", "sepia", "green", "solarized", "solarized_dark"}

  /** The key a persisted string names, if it names one. */
  function Parse(s: string): (r: Option<Key>)
    ensures r.Some? <==> s in KeyNames
    ensures r.Some? ==> Name(r.value) == s
  {
    if s == LIGHT then Some(Light)
    else if s == "dark" then Some(Dark)
    else if s == "black" then Some(Black)
    else if s == "sepia" then Some(Sepia)
    else if s == "green" then Some(Green)
    else if s == "solarized" then Some(Solarized)
    else if s == "solarized_dark" then Some(SolarizedDark)
    else None
  }

  /** Parsing undoes naming. */
  lemma ParseName(k: Key)
    ensures Name(k) in KeyNames
    ensures Parse(Name(k)) == Some(k)
  {
  }

  /** Distinct keys are persisted under distinct strings. */
  lemma NameInjective(k1: Key, k2: Key)
    ensures Name(k1) == Name(k2) ==> k1 == k2
  {
  }

  /**
   Which getTranslucent a spec has: Base is ThemeSpec's own (it returns the
   spec itself), LightFamily is LightSpec's, DarkFamily is DarkSpec's.
   */
  datatype Family = Base | LightFamily | DarkFamily

  /** The public fields of a ThemeSpec. */
  datatype Spec = Spec(summary: int, theme: int, themeOverrides: int)

  /** The class each entry of VALUES is built as. */
  function FamilyOf(k: Key): (f: Family)
    ensures f != Base
  {
    match k
    case Light | Sepia | Green | Solarized => LightFamily
    case Dark | Black | SolarizedDark => DarkFamily
  }

  /** The base window style a LightSpec or DarkSpec constructor passes to ThemeSpec. */
  function FamilyTheme(f: Family): int
    requires f != Base
  {
    if f == LightFamily then STYLE_APP_THEME else STYLE_APP_THEME_DARK
  }

  /** The window style of the variant that getTranslucent creates for a family. */
  function TranslucentTheme(f: Family): int
    requires f != Base
  {
    if f == LightFamily then STYLE_APP_THEME_TRANSLUCENT else STYLE_APP_THEME_DARK_TRANSLUCENT
  }

  /** The label a key is summarised by. */
  function Summary(k: Key): int
  {
    match k
    case Light => STRING_THEME_LIGHT
    case Dark => STRING_THEME_DARK
    case Black => STRING_THEME_BLACK
    case Sepia => STRING_THEME_SEPIA
    case Green => STRING_THEME_GREEN
    case Solarized => STRING_THEME_SOLARIZED
    case SolarizedDark => STRING_THEME_SOLARIZED_DARK
  }

  /** The override style a key's spec is constructed with. */
  function Overrides(k: Key): int
  {
    match k
    case Light | Dark => NO_OVERRIDES
    case Black => STYLE_BLACK
    case Sepia => STYLE_SEPIA
    case Green => STYLE_GREEN
    case Solarized => STYLE_SOLARIZED
    case SolarizedDark => STYLE_SOLARIZED_DARK
  }

  /** The entry VALUES holds for a key. */
  function SpecOf(k: Key): Spec
  {
    Spec(Summary(k), FamilyTheme(FamilyOf(k)), Overrides(k))
  }

  /**
   What getTranslucent returns for a spec of family f: the spec itself for a
   plain ThemeSpec, otherwise a spec with the same summary and overrides and
   the family's translucent window style.
   */
  function TranslucentOf(f: Family, s: Spec): (r: Spec)
    ensures r.summary == s.summary && r.themeOverrides == s.themeOverrides
    ensures f == Base ==> r == s
    ensures f != Base ==> r.theme == TranslucentTheme(f)
  {
    if f == Base then s else s.(theme := TranslucentTheme(f))
  }

  /** The key getTheme looks up: the value itself when VALUES holds it, "light" otherwise. */
  function ResolveKey(value: Option<string>): (k: Key)
    ensures value.Some? && value.value in KeyNames ==> Name(k) == value.value
    ensures !(value.Some? && value.value in KeyNames) ==> k == Light
  {
    if value.Some? && Parse(value.value).Some? then Parse(value.value).value else Light
  }

  /** The fields of the spec getTheme(value, isTranslucent) returns. */
  function Resolve(value: Option<string>, isTranslucent: bool): (r: Spec)
    ensures r.summary == Summary(ResolveKey(value))
    ensures r.themeOverrides == Overrides(ResolveKey(value))
    ensures r.theme == (if isTranslucent then TranslucentTheme else FamilyTheme)(FamilyOf(ResolveKey(value)))
  {
    var k := ResolveKey(value);
    if isTranslucent then TranslucentOf(FamilyOf(k), SpecOf(k)) else SpecOf(k)
  }

  /** The seven entries VALUES is filled with, in the order they are put. */
  lemma ValuesTable()
    ensures SpecOf(Light) == Spec(STRING_THEME_LIGHT, STYLE_APP_THEME, NO_OVERRIDES)
    ensures SpecOf(Dark) == Spec(STRING_THEME_DARK, STYLE_APP_THEME_DARK, NO_OVERRIDES)
    ensures SpecOf(Black) == Spec(STRING_THEME_BLACK, STYLE_APP_THEME_DARK, STYLE_BLACK)
    ensures SpecOf(Sepia) == Spec(STRING_THEME_SEPIA, STYLE_APP_THEME, STYLE_SEPIA)
    ensures SpecOf(Green) == Spec(STRING_THEME_GREEN, STYLE_APP_THEME, STYLE_GREEN)
    ensures SpecOf(Solarized) == Spec(STRING_THEME_SOLARIZED, STYLE_APP_THEME, STYLE_SOLARIZED)
    ensures SpecOf(SolarizedDark) == Spec(STRING_THEME_SOLARIZED_DARK, STYLE_APP_THEME_DARK, STYLE_SOLARIZED_DARK)
  {
  }

  /**
   The base and translucent window styles of the two families: four distinct
   styles, AppTheme and AppTheme_Translucent for the light family,
   AppTheme_Dark and AppTheme_Dark_Translucent for the dark one.
   */
  lemma FamilyStyles()
    ensures FamilyTheme(LightFamily) == STYLE_APP_THEME
    ensures FamilyTheme(DarkFamily) == STYLE_APP_THEME_DARK
    ensures TranslucentTheme(LightFamily) == STYLE_APP_THEME_TRANSLUCENT
    ensures TranslucentTheme(DarkFamily) == STYLE_APP_THEME_DARK_TRANSLUCENT
    ensures forall f, g | f != Base && g != Base :: TranslucentTheme(f) != FamilyTheme(g)
    ensures forall f, g | f != Base && g != Base && f != g ::
      TranslucentTheme(f) != TranslucentTheme(g) && FamilyTheme(f) != FamilyTheme(g)
  {
  }

  /** Any value VALUES does not hold, null and "" included, resolves as "light" does. */
  lemma FallbackIsLight(value: Option<string>, isTranslucent: bool)
    requires value.None? || value.value !in KeyNames
    ensures Resolve(value, isTranslucent) == Resolve(Some(LIGHT), isTranslucent)
    ensures Resolve(value, isTranslucent) == Resolve(Some(""), isTranslucent)
  {
  }

  /** A recognised key resolves to its own entry, or to that entry's translucent variant. */
  lemma ResolveRecognised(k: Key)
    ensures Resolve(Some(Name(k)), false) == SpecOf(k)
    ensures Resolve(Some(Name(k)), true) == TranslucentOf(FamilyOf(k), SpecOf(k))
  {
  }

  /**
   The shape of the table: four themes build on AppTheme and three on
   AppTheme_Dark; only light and dark come without an override style, and every
   other key has an override style of its own.
   */
  lemma TableShape(k: Key)
    ensures SpecOf(k).theme == STYLE_APP_THEME <==> k in {Light, Sepia, Green, Solarized}
    ensures SpecOf(k).theme == STYLE_APP_THEME_DARK <==> k in {Dark, Black, SolarizedDark}
    ensures SpecOf(k).themeOverrides == NO_OVERRIDES <==> k in {Light, Dark}
    ensures forall k' :: k' != k && SpecOf(k).themeOverrides != NO_OVERRIDES ==>
      SpecOf(k').themeOverrides != SpecOf(k).themeOverrides
  {
  }

  /** Every key is summarised by a label of its own. */
  lemma SummariesDistinct(k1: Key, k2: Key)
    ensures Summary(k1) == Summary(k2) ==> k1 == k2
  {
  }

  /**
   The translucent variant of every entry differs from it only in its window
   style, and a variant is its own translucent variant.
   */
  lemma TranslucentVariant(k: Key)
    ensures var t := TranslucentOf(FamilyOf(k), SpecOf(k));
      t.theme != SpecOf(k).theme && t == SpecOf(k).(theme := t.theme)
    ensures var t := TranslucentOf(FamilyOf(k), SpecOf(k));
      TranslucentOf(Base, t) == t
  {
  }

  /**
   The value onSetInitialValue settles on: the persisted string when restoring,
   the supplied default otherwise, with null and "" replaced by "light".
   */
  function ChooseValue(restorePersistedValue: bool, persisted: Option<string>,
                       defaultValue: Option<string>): (v: string)
    ensures v != ""
    ensures var source := if restorePersistedValue then persisted else defaultValue;
      if source.Some? && source.value != "" then v == source.value else v == LIGHT
  {
    var source := if restorePersistedValue then persisted else defaultValue;
    if source.None? || source.value == "" then LIGHT else source.value
  }

  /**
   The summary onSetInitialValue sets: the chosen key's label, or None when
   the chosen value is not in VALUES (the source then dereferences null).
   */
  function InitialSummary(restorePersistedValue: bool, persisted: Option<string>,
                          defaultValue: Option<string>): (r: Option<int>)
    ensures var v := ChooseValue(restorePersistedValue, persisted, defaultValue);
      (r.Some? <==> v in KeyNames) && (r.Some? ==> r.value == Summary(Parse(v).value))
  {
    var v := ChooseValue(restorePersistedValue, persisted, defaultValue);
    match Parse(v)
    case Some(k) => Some(Summary(k))
    case None => None
  }

  /** Restoring a missing or empty persisted value shows "light"'s label. */
  lemma InitialEmptyIsLight(persisted: Option<string>, defaultValue: Option<string>)
    requires persisted.None? || persisted.value == ""
    ensures InitialSummary(true, persisted, defaultValue) == Some(STRING_THEME_LIGHT)
  {
  }

  /**
   The gap between the two fallbacks: a non-empty value that VALUES does not
   hold resolves to "light" in getTheme, but has no summary in onSetInitialValue.
   */
  lemma InitialUnknownHasNoSummary(value: string, defaultValue: Option<string>)
    requires value != "" && value !in KeyNames
    ensures InitialSummary(true, Some(value), defaultValue).None?
    ensures Resolve(Some(value), false) == SpecOf(Light)
  {
  }

  /** BUTTONS in the order its entries are put. */
  const Buttons: seq<(int, string)> := [
    (ID_THEME_LIGHT, LIGHT),
    (ID_THEME_DARK, "dark"),
    (ID_THEME_BLACK, "black"),
    (ID_THEME_SEPIA, "sepia"),
    (ID_THEME_GREEN, "green"),
    (ID_THEME_SOLARIZED, "solarized"),
    (ID_THEME_SOLARIZED_DARK, "solarized_dark")
  ]

  /** The layout button that selects a key. */
  function ButtonId(k: Key): int
  {
    match k
    case Light => ID_THEME_LIGHT
    case Dark => ID_THEME_DARK
    case Black => ID_THEME_BLACK
    case Sepia => ID_THEME_SEPIA
    case Green => ID_THEME_GREEN
    case Solarized => ID_THEME_SOLARIZED
    case SolarizedDark => ID_THEME_SOLARIZED_DARK
  }

  /** The pairs of a sequence as a map; a later pair for the same first component wins, as with put. */
  function ToMap(pairs: seq<(int, string)>): (m: map<int, string>)
    ensures forall i | 0 <= i < |pairs| :: pairs[i].0 in m
    ensures forall b | b in m :: exists i | 0 <= i < |pairs| :: pairs[i] == (b, m[b])
  {
    if pairs == [] then map[]
    else
      var last := pairs[|pairs| - 1];
      var m := ToMap(pairs[..|pairs| - 1]);
      assert forall i | 0 <= i < |pairs| - 1 :: pairs[..|pairs| - 1][i] == pairs[i];
      m[last.0 := last.1]
  }

  /** Ids of a sequence of pairs appear once each. */
  ghost predicate DistinctIds(pairs: seq<(int, string)>)
  {
    forall i, j | 0 <= i < j < |pairs| :: pairs[i].0 != pairs[j].0
  }

  /** With distinct ids, the map gives each pair's second component for its first. */
  lemma {:induction false} ToMapAt(pairs: seq<(int, string)>, i: nat)
    requires DistinctIds(pairs) && i < |pairs|
    ensures pairs[i].0 in ToMap(pairs) && ToMap(pairs)[pairs[i].0] == pairs[i].1
  {
    var n := |pairs| - 1;
    if i < n {
      var prefix := pairs[..n];
      assert prefix[i] == pairs[i];
      assert DistinctIds(prefix) by {
        forall a, b | 0 <= a < b < |prefix| ensures prefix[a].0 != prefix[b].0 {
          assert prefix[a] == pairs[a] && prefix[b] == pairs[b];
        }
      }
      ToMapAt(prefix, i);
      assert pairs[n].0 != pairs[i].0;
    }
  }

  /** BUTTONS holds seven buttons with distinct ids and distinct keys, all of them keys of VALUES. */
  lemma ButtonsDistinct()
    ensures |Buttons| == 7 && DistinctIds(Buttons)
    ensures forall i, j | 0 <= i < j < |Buttons| :: Buttons[i].1 != Buttons[j].1
    ensures forall i | 0 <= i < |Buttons| :: Buttons[i].1 in KeyNames
  {
  }

  /** Each entry of BUTTONS pairs a key with that key's own button. */
  lemma ButtonsPairKeys(i: nat)
    requires i < |Buttons|
    ensures Buttons[i] == (ButtonId(Parse(Buttons[i].1).value), Buttons[i].1)
  {
  }

  /** Every key of VALUES is selected by its button, and by no other. */
  lemma ButtonMapSelects(k: Key)
    ensures ButtonId(k) in ToMap(Buttons) && ToMap(Buttons)[ButtonId(k)] == Name(k)
    ensures forall b | b in ToMap(Buttons) && ToMap(Buttons)[b] == Name(k) :: b == ButtonId(k)
  {
    forall b | b in ToMap(Buttons) && ToMap(Buttons)[b] == Name(k) ensures b == ButtonId(k) {
      var j :| 0 <= j < |Buttons| && Buttons[j] == (b, Name(k));
      ButtonsPairKeys(j);
      ParseName(k);
    }
    ButtonsDistinct();
    var i := match k
      case Light => 0
      case Dark => 1
      case Black => 2
      case Sepia => 3
      case Green => 4
      case Solarized => 5
      case SolarizedDark => 6;
    assert Buttons[i] == (ButtonId(k), Name(k));
    ToMapAt(Buttons, i);
  }

  /** The buttons with a click effect are exactly the seven of the layout. */
  lemma ButtonMapKeys()
    ensures ToMap(Buttons).Keys == {ID_THEME_LIGHT, ID_THEME_DARK, ID_THEME_BLACK, ID_THEME_SEPIA,
                                    ID_THEME_GREEN, ID_THEME_SOLARIZED, ID_THEME_SOLARIZED_DARK}
  {
    var m := ToMap(Buttons);
    var ids := {ID_THEME_LIGHT, ID_THEME_DARK, ID_THEME_BLACK, ID_THEME_SEPIA,
                ID_THEME_GREEN, ID_THEME_SOLARIZED, ID_THEME_SOLARIZED_DARK};
    forall b | b in m ensures b in ids {
      var i :| 0 <= i < |Buttons| && Buttons[i] == (b, m[b]);
    }
    forall b | b in ids ensures b in m {
      assert b in {Buttons[0].0, Buttons[1].0, Buttons[2].0, Buttons[3].0,
                   Buttons[4].0, Buttons[5].0, Buttons[6].0};
    }
  }
}
