/**
 The preference itself: the summary it shows and the string it persists,
 the choice of the initial value, the binding of the seven buttons and the
 effect of a click.
 */
module Preference {
  import opened Wrappers
  import opened Resources
  import opened ThemeTable
  import opened Specs
  import opened Themes

  /** How onSetInitialValue ends: normally, or by dereferencing the null that VALUES.get returns. */
  datatype Outcome = Completed | NullPointer

  /** What onGetDefaultValue supplies. */
  const DEFAULT_VALUE: string := LIGHT

  class ThemePreference {
    /** The static tables the preference reads. */
    const registry: Registry
    /** The label resource given to setSummary, if any. */
    var summary: Option<int>
    /** The string in preference storage under this preference's key, if any. */
    var persisted: Option<string>

    constructor (registry: Registry, stored: Option<string>)
      ensures this.registry == registry && summary == None && persisted == stored
    {
      this.registry := registry;
      summary := None;
      persisted := stored;
    }

    /**
     onSetInitialValue: takes the persisted string when restoring and the
     default otherwise, replaces null or "" with "light" and shows that key's
     label. A non-empty value outside VALUES ends in a null dereference before
     the summary is set. Nothing is persisted.
     */
    method OnSetInitialValue(restorePersistedValue: bool, defaultValue: Option<string>)
      returns (outcome: Outcome)
      requires registry.Shape()
      modifies this`summary
      ensures persisted == old(persisted)
      ensures var shown := InitialSummary(restorePersistedValue, old(persisted), defaultValue);
        (outcome == Completed <==> shown.Some?) &&
        summary == (if shown.Some? then shown else old(summary))
    {
      var value := if restorePersistedValue then persisted else defaultValue;
      if value.None? || value.value == "" {
        value := Some(LIGHT);
      }
      if value.value in registry.values {
        summary := Some(registry.values[value.value].summary);
        outcome := Completed;
      } else {
        outcome := NullPointer;
      }
    }

    /**
     onBindViewHolder: walks BUTTONS and gives each button a click listener
     for its key; the result maps every button id to the key its listener
     persists.
     */
    method BindView() returns (listeners: map<int, string>)
      requires registry.Shape()
      ensures listeners == ToMap(Buttons)
      ensures forall k: Key :: ButtonId(k) in listeners && listeners[ButtonId(k)] == Name(k)
    {
      var buttons := registry.buttons;
      listeners := map[];
      var i := 0;
      while i < |buttons|
        invariant 0 <= i <= |buttons|
        invariant listeners == ToMap(buttons[..i])
      {
        assert buttons[..i + 1][..i] == buttons[..i];
        listeners := listeners[buttons[i].0 := buttons[i].1];
        i := i + 1;
      }
      assert buttons[..i] == buttons;
      forall k: Key ensures ButtonId(k) in listeners && listeners[ButtonId(k)] == Name(k) {
        ButtonMapSelects(k);
      }
    }

    /** The body of a button's click listener: show the key's label and persist the key. */
    method OnClick(value: string)
      requires registry.Shape()
      requires value in KeyNames
      modifies this`summary, this`persisted
      ensures summary == Some(Summary(Parse(value).value))
      ensures persisted == Some(value)
    {
      summary := Some(registry.values[value].summary);
      persisted := Some(value);
    }

    /** A click on one of the seven buttons after the view is bound. */
    method ClickButton(buttonId: int)
      requires registry.Shape()
      requires buttonId in ToMap(Buttons)
      modifies this`summary, this`persisted
      ensures var key := ToMap(Buttons)[buttonId];
        key in KeyNames && summary == Some(Summary(Parse(key).value)) && persisted == Some(key)
    {
      var listeners := BindView();
      ButtonsDistinct();
      var value := listeners[buttonId];
      OnClick(value);
    }
  }

  /**
   A click leaves a state that restores to itself: restoring the key a click
   persisted shows the label that click showed.
   */
  lemma ClickThenRestore(k: Key, defaultValue: Option<string>)
    ensures ButtonId(k) in ToMap(Buttons) && ToMap(Buttons)[ButtonId(k)] == Name(k)
    ensures InitialSummary(true, Some(Name(k)), defaultValue) == Some(Summary(k))
  {
    ButtonMapSelects(k);
    ParseName(k);
  }

  /** Initialising without restoring, from the default onGetDefaultValue supplies, shows the light label. */
  lemma InitialDefaultIsLight(persisted: Option<string>)
    ensures ChooseValue(false, persisted, Some(DEFAULT_VALUE)) == LIGHT
    ensures InitialSummary(false, persisted, Some(DEFAULT_VALUE)) == Some(STRING_THEME_LIGHT)
  {
  }
}
