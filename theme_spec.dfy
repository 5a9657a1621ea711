/**
 ThemeSpec with its two subclasses LightSpec and DarkSpec, as one class whose
 family tag says which getTranslucent it has. LightSpec and DarkSpec create
 their translucent variant on the first call and keep it in the translucent
 field; a plain ThemeSpec is its own translucent variant.
 */
module Specs {
  import opened Resources
  import opened ThemeTable

  class ThemeSpec {
    const family: Family
    const summary: int
    const theme: int
    const themeOverrides: int
    var translucent: ThemeSpec?

    /** The public fields of this spec as a value. */
    function Value(): Spec
    {
      Spec(summary, theme, themeOverrides)
    }

    /**
     The cache is empty or holds this spec's translucent variant; only
     LightSpec and DarkSpec ever fill it.
     */
    ghost predicate Valid()
      reads this, translucent
    {
      translucent != null ==>
        family != Base &&
        translucent.family == Base &&
        translucent.translucent == null &&
        translucent.Value() == TranslucentOf(family, Value())
    }

    /** The private ThemeSpec constructor, used for translucent variants. */
    constructor Plain(summary: int, theme: int, themeOverrides: int)
      ensures family == Base && translucent == null
      ensures Value() == Spec(summary, theme, themeOverrides)
      ensures Valid()
    {
      this.family := Base;
      this.summary := summary;
      this.theme := theme;
      this.themeOverrides := themeOverrides;
      this.translucent := null;
    }

    /**
     LightSpec(summary, themeOverrides); LightSpec(summary) is this
     constructor with NO_OVERRIDES.
     */
    constructor LightSpec(summary: int, themeOverrides: int)
      ensures family == LightFamily && translucent == null
      ensures Value() == Spec(summary, STYLE_APP_THEME, themeOverrides)
      ensures Valid()
    {
      this.family := LightFamily;
      this.summary := summary;
      this.theme := STYLE_APP_THEME;
      this.themeOverrides := themeOverrides;
      this.translucent := null;
    }

    /**
     DarkSpec(summary, themeOverrides); DarkSpec(summary) is this
     constructor with NO_OVERRIDES.
     */
    constructor DarkSpec(summary: int, themeOverrides: int)
      ensures family == DarkFamily && translucent == null
      ensures Value() == Spec(summary, STYLE_APP_THEME_DARK, themeOverrides)
      ensures Valid()
    {
      this.family := DarkFamily;
      this.summary := summary;
      this.theme := STYLE_APP_THEME_DARK;
      this.themeOverrides := themeOverrides;
      this.translucent := null;
    }

    /**
     getTranslucent. A plain spec returns itself. A LightSpec or DarkSpec
     allocates its variant on the first call, stores it in translucent and
     returns that same object on every later call; the field is written at
     most once.
     */
    method GetTranslucent() returns (t: ThemeSpec)
      requires Valid()
      modifies if family == Base then {} else {this}
      ensures Valid() && t.Valid()
      ensures t.family == Base
      ensures t.Value() == TranslucentOf(family, Value())
      ensures family == Base ==> t == this && translucent == old(translucent)
      ensures family != Base ==> translucent == t
      ensures old(translucent) != null ==> t == old(translucent)
      ensures family != Base && old(translucent) == null ==> fresh(t) && t.translucent == null
    {
      if family == Base {
        t := this;
      } else {
        if translucent == null {
          translucent := new ThemeSpec.Plain(summary, TranslucentTheme(family), themeOverrides);
        }
        t := translucent;
      }
    }
  }

  /** Asking a spec for its translucent variant twice gives the identical object. */
  method TranslucentStable(spec: ThemeSpec) returns (first: ThemeSpec, second: ThemeSpec)
    requires spec.Valid()
    modifies spec
    ensures first == second
    ensures spec.family != Base ==> spec.translucent == first
  {
    first := spec.GetTranslucent();
    second := spec.GetTranslucent();
  }

  /** The translucent variant of a translucent variant is that variant itself. */
  method TranslucentIdempotent(spec: ThemeSpec) returns (once: ThemeSpec, twice: ThemeSpec)
    requires spec.Valid()
    modifies spec
    ensures once == twice
    ensures once.family == Base
  {
    once := spec.GetTranslucent();
    twice := once.GetTranslucent();
  }
}
