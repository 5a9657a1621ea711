/** The Option type used for Java references that may be null. */
module Wrappers {

  datatype Option<+T> = None | Some(value: T)
}

/**
 Android resource identifiers used by the theme preference. The build assigns
 the real values; here each is an opaque integer, distinct from every other one
 and from NO_OVERRIDES, which is what the model relies on.
 */
module Resources {

  // R.string.theme_*: the label shown as the preference's summary
  const STRING_THEME_LIGHT: int := 1
  const STRING_THEME_DARK: int := 2
  const STRING_THEME_BLACK: int := 3
  const STRING_THEME_SEPIA: int := 4
  const STRING_THEME_GREEN: int := 5
  const STRING_THEME_SOLARIZED: int := 6
  const STRING_THEME_SOLARIZED_DARK: int := 7

  // R.style.*: the base window styles of the two families and their translucent variants
  const STYLE_APP_THEME: int := 101
  const STYLE_APP_THEME_DARK: int := 102
  const STYLE_APP_THEME_TRANSLUCENT: int := 103
  const STYLE_APP_THEME_DARK_TRANSLUCENT: int := 104

  // R.style.*: the override styles layered on a base style
  const STYLE_BLACK: int := 105
  const STYLE_SEPIA: int := 106
  const STYLE_GREEN: int := 107
  const STYLE_SOLARIZED: int := 108
  const STYLE_SOLARIZED_DARK: int := 109

  /** The value LightSpec(summary) and DarkSpec(summary) pass for "no override style". */
  const NO_OVERRIDES: int := -1

  // R.id.theme_*: the buttons of the preference's layout
  const ID_THEME_LIGHT: int := 201
  const ID_THEME_DARK: int := 202
  const ID_THEME_BLACK: int := 203
  const ID_THEME_SEPIA: int := 204
  const ID_THEME_GREEN: int := 205
  const ID_THEME_SOLARIZED: int := 206
  const ID_THEME_SOLARIZED_DARK: int := 207
}
