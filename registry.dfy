/**
 The static tables of ThemePreference, VALUES and BUTTONS, built once by the
 class initialiser, and the getTheme lookup over them.
 */
module Themes {
  import opened Wrappers
  import opened Resources
  import opened ThemeTable
  import opened Specs

  class Registry {
    /** VALUES: theme key to spec object. */
    const values: map<string, ThemeSpec>
    /** BUTTONS: button id to theme key, in the order the entries are put. */
    const buttons: seq<(int, string)>

    /**
     The fixed part of the tables: VALUES holds the seven keys, each mapped to
     an object built with the key's family, summary, style and overrides, and
     BUTTONS is the button table.
     */
    ghost predicate Shape()
    {
      values.Keys == KeyNames &&
      buttons == Buttons &&
      (forall k: Key :: Name(k) in values &&
        values[Name(k)].family == FamilyOf(k) && values[Name(k)].Value() == SpecOf(k))
    }

    /** The tables have their fixed shape and every spec's cache is consistent. */
    ghost predicate Valid()
      reads values.Values, set s | s in values :: values[s].translucent
    {
      Shape() && forall s | s in values :: values[s].Valid()
    }

    /** The spec object VALUES holds for a key. */
    function Entry(k: Key): (spec: ThemeSpec)
      requires Shape()
      ensures spec.family == FamilyOf(k) && spec.Value() == SpecOf(k)
    {
      values[Name(k)]
    }

    /** The class initialiser: fills BUTTONS and VALUES; no translucent variant exists yet. */
    constructor ()
      ensures Valid()
      ensures forall s | s in values :: values[s].translucent == null
      ensures fresh(values.Values)
    {
      buttons := Buttons;
      var filled := FillValues();
      values := filled;
    }

    /**
     getTheme: the entry for the value, or for "light" when VALUES does not
     hold it; when isTranslucent, that entry's translucent variant, created
     on the first such request and the identical object on every later one.
     Only the looked-up entry's cache may change.
     */
    method GetTheme(value: Option<string>, isTranslucent: bool) returns (spec: ThemeSpec)
      requires Valid()
      modifies Entry(ResolveKey(value))
      ensures Valid()
      ensures spec.Value() == Resolve(value, isTranslucent)
      ensures var base := Entry(ResolveKey(value));
        if isTranslucent then
          spec == base.translucent &&
          (old(base.translucent) != null ==> spec == old(base.translucent)) &&
          (old(base.translucent) == null ==> fresh(spec))
        else
          spec == base && base.translucent == old(base.translucent)
    {
      var key := if value.Some? && value.value in values then value.value else LIGHT;
      var themeSpec := values[key];
      assert themeSpec == Entry(ResolveKey(value));
      if isTranslucent {
        spec := themeSpec.GetTranslucent();
      } else {
        spec := themeSpec;
      }
      forall s | s in values ensures values[s].Valid() {
        if values[s] != themeSpec {
          assert values[s].translucent == old(values[s].translucent);
        }
      }
    }
  }

  /** Two translucent requests for the same value give the identical object. */
  method TranslucentThemeStable(registry: Registry, value: Option<string>)
    returns (first: ThemeSpec, second: ThemeSpec)
    requires registry.Valid()
    modifies registry.Entry(ResolveKey(value))
    ensures first == second && first != registry.Entry(ResolveKey(value))
  {
    first := registry.GetTheme(value, true);
    second := registry.GetTheme(value, true);
  }

  /** An unrecognised value, null included, gives the very object "light" gives. */
  method FallbackSameObject(registry: Registry, value: Option<string>, isTranslucent: bool)
    returns (spec: ThemeSpec, lightSpec: ThemeSpec)
    requires registry.Valid()
    requires value.None? || value.value !in KeyNames
    modifies registry.Entry(Light)
    ensures spec == lightSpec
  {
    spec := registry.GetTheme(value, isTranslucent);
    lightSpec := registry.GetTheme(Some(LIGHT), isTranslucent);
  }

  /**
   The puts of the class initialiser into VALUES: one new LightSpec or
   DarkSpec per key, none with a translucent variant yet.
   */
  method FillValues() returns (values: map<string, ThemeSpec>)
    ensures values.Keys == KeyNames
    ensures forall k: Key ::
              Name(k) in values && values[Name(k)].family == FamilyOf(k) && values[Name(k)].Value() == SpecOf(k)
    ensures forall s | s in values :: fresh(values[s]) && values[s].translucent == null
  {
    values := map[];
    var spec := new ThemeSpec.LightSpec(STRING_THEME_LIGHT, NO_OVERRIDES);
    values := values[LIGHT := spec];
    spec := new ThemeSpec.DarkSpec(STRING_THEME_DARK, NO_OVERRIDES);
    values := values["dark" := spec];
    spec := new ThemeSpec.DarkSpec(STRING_THEME_BLACK, STYLE_BLACK);
    values := values["black" := spec];
    spec := new ThemeSpec.LightSpec(STRING_THEME_SEPIA, STYLE_SEPIA);
    values := values["sepia" := spec];
    spec := new ThemeSpec.LightSpec(STRING_THEME_GREEN, STYLE_GREEN);
    values := values["green" := spec];
    spec := new ThemeSpec.LightSpec(STRING_THEME_SOLARIZED, STYLE_SOLARIZED);
    values := values["solarized" := spec];
    spec := new ThemeSpec.DarkSpec(STRING_THEME_SOLARIZED_DARK, STYLE_SOLARIZED_DARK);
    values := values["solarized_dark" := spec];
    forall k: Key ensures Name(k) in values &&
      values[Name(k)].family == FamilyOf(k) && values[Name(k)].Value() == SpecOf(k)
    {
      match k
      case Light =>
      case Dark =>
      case Black =>
      case Sepia =>
      case Green =>
      case Solarized =>
      case SolarizedDark =>
    }
  }
}
