/** Accent colour themes: each theme is built from one `0xRRGGBB` code,
    with a secondary colour lightened by 0.15 and a hover colour lightened
    by 0.08; a fixed table lists the themes the GUI offers, and one theme is
    current at a time. */
module Themes {
  import opened Colors

  datatype ColorTheme = ColorTheme(primary: Color, secondary: Color, hover: Color, name: string)

  /** How much lighter than the primary colour the secondary and hover
      colours are. */
  const SecondaryLift: real := 0.15
  const HoverLift: real := 0.08

  /** The `ColorTheme(primaryHex, themeName)` constructor: the decoded code,
      lightened by 0.15 and by 0.08. All three colours
      are opaque and within [0, 1]; hover is at least as light as primary,
      and secondary at least as light as hover, channel by channel; and the
      primary colour encodes back to the low 24 bits of the code. */
  function MakeTheme(hex: Uint32, name: string): (t: ColorTheme)
    ensures t.name == name
    ensures t.primary == HexToImVec4(hex)
    ensures t.secondary == Lighten(t.primary, SecondaryLift)
    ensures t.hover == Lighten(t.primary, HoverLift)
    ensures t.primary.w == 1.0 && t.secondary.w == 1.0 && t.hover.w == 1.0
    ensures InUnit(t.primary) && InUnit(t.secondary) && InUnit(t.hover)
    ensures t.primary.x <= t.hover.x <= t.secondary.x
    ensures t.primary.y <= t.hover.y <= t.secondary.y
    ensures t.primary.z <= t.hover.z <= t.secondary.z
    ensures ToHex(t.primary) == hex % 0x100_0000
  {
    var primary := HexToImVec4(hex);
    LightenBounds(primary, SecondaryLift);
    LightenBounds(primary, HoverLift);
    LightenMonotone(primary, HoverLift, SecondaryLift);
    DecodeEncode(hex, 1.0);
    ColorTheme(primary, Lighten(primary, SecondaryLift), Lighten(primary, HoverLift), name)
  }

  const Blue: ColorTheme := MakeTheme(0x4287F5, "Ocean Blue")
  const Orange: ColorTheme := MakeTheme(0xD2691E, "Sunset Orange")
  const Lime: ColorTheme := MakeTheme(0x6B8E23, "Electric Lime")
  const Purple: ColorTheme := MakeTheme(0x8B5CF6, "Royal Purple")
  const Rose: ColorTheme := MakeTheme(0xF43F5E, "Romantic Rose")
  const Emerald: ColorTheme := MakeTheme(0x10B981, "Forest Emerald")
  const Amber: ColorTheme := MakeTheme(0xF59E0B, "Golden Amber")
  const Indigo: ColorTheme := MakeTheme(0x6366F1, "Deep Indigo")

  /** Each predefined theme carries its documented name, and its primary
      colour encodes back to its documented `#RRGGBB` code. */
  lemma {:induction false} PredefinedThemes()
    ensures Blue.name == "Ocean Blue" && ToHex(Blue.primary) == 0x4287F5
    ensures Orange.name == "Sunset Orange" && ToHex(Orange.primary) == 0xD2691E
    ensures Lime.name == "Electric Lime" && ToHex(Lime.primary) == 0x6B8E23
    ensures Purple.name == "Royal Purple" && ToHex(Purple.primary) == 0x8B5CF6
    ensures Rose.name == "Romantic Rose" && ToHex(Rose.primary) == 0xF43F5E
    ensures Emerald.name == "Forest Emerald" && ToHex(Emerald.primary) == 0x10B981
    ensures Amber.name == "Golden Amber" && ToHex(Amber.primary) == 0xF59E0B
    ensures Indigo.name == "Deep Indigo" && ToHex(Indigo.primary) == 0x6366F1
  {
    ThemeCode(0x4287F5, "Ocean Blue");
    ThemeCode(0xD2691E, "Sunset Orange");
    ThemeCode(0x6B8E23, "Electric Lime");
    ThemeCode(0x8B5CF6, "Royal Purple");
    ThemeCode(0xF43F5E, "Romantic Rose");
    ThemeCode(0x10B981, "Forest Emerald");
    ThemeCode(0xF59E0B, "Golden Amber");
    ThemeCode(0x6366F1, "Deep Indigo");
  }

  /** A theme built from a 24-bit code encodes back to exactly that code. */
  lemma {:induction false} ThemeCode(hex: Uint32, name: string)
    requires hex < 0x100_0000
    ensures MakeTheme(hex, name).name == name && ToHex(MakeTheme(hex, name).primary) == hex
  {
  }

  /** `Themes::themes`: six of the eight predefined themes, in this order
      (purple and amber are defined but not offered). */
  const ThemeTable: seq<ColorTheme> := [Blue, Orange, Lime, Rose, Emerald, Indigo]

  /** The table lists, in order, Ocean Blue, Sunset Orange, Electric Lime,
      Romantic Rose, Forest Emerald and Deep Indigo. */
  lemma {:induction false} ThemeTableOrder()
    ensures |ThemeTable| == 6
    ensures ThemeTable[0].name == "Ocean Blue" && ThemeTable[1].name == "Sunset Orange"
    ensures ThemeTable[2].name == "Electric Lime" && ThemeTable[3].name == "Romantic Rose"
    ensures ThemeTable[4].name == "Forest Emerald" && ThemeTable[5].name == "Deep Indigo"
  {
  }

  /** `GetThemeCount()`: the number of entries of the table. */
  function GetThemeCount(): (n: nat)
    ensures n == 6
    ensures forall i :: 0 <= i < n ==> ThemeTable[i].name != Purple.name && ThemeTable[i].name != Amber.name
    ensures forall i, j :: 0 <= i < j < n ==> ThemeTable[i].name != ThemeTable[j].name
  {
    |ThemeTable|
  }

  /** The theme state: which theme is current. */
  datatype ThemeState = ThemeState(current: ColorTheme)

  /** Before any selection, the current theme is Ocean Blue. */
  function InitialThemeState(): (s: ThemeState)
    ensures GetCurrentTheme(s) == Blue
    ensures GetCurrentTheme(s).name == "Ocean Blue"
  {
    ThemeState(Blue)
  }

  /** `SetTheme(theme)`: afterwards, `GetCurrentTheme()` returns `theme`,
      whatever was current before. */
  function SetTheme(s: ThemeState, theme: ColorTheme): (r: ThemeState)
    ensures GetCurrentTheme(r) == theme
  {
    ThemeState(theme)
  }

  /** `GetCurrentTheme()`: the theme selected last, or Ocean Blue if none
      was. */
  function GetCurrentTheme(s: ThemeState): (t: ColorTheme)
    ensures t == s.current
  {
    s.current
  }

  /** After a non-empty series of selections, from any state, the current
      theme is the one selected last. */
  lemma {:induction false} LastSelectionWins(s: ThemeState, choices: seq<ColorTheme>)
    requires 0 < |choices|
    ensures GetCurrentTheme(SelectAll(s, choices)) == choices[|choices| - 1]
    decreases |choices|
  {
    if 1 < |choices| {
      LastSelectionWins(SetTheme(s, choices[0]), choices[1..]);
    }
  }

  /** The state after selecting each of `choices` in turn. */
  function SelectAll(s: ThemeState, choices: seq<ColorTheme>): ThemeState
    decreases |choices|
  {
    if |choices| == 0 then s else SelectAll(SetTheme(s, choices[0]), choices[1..])
  }

  /** Only the last selection matters. */
  lemma {:induction false} SetThemeOverwrites(s: ThemeState, t: ColorTheme, u: ColorTheme)
    ensures SetTheme(SetTheme(s, t), u) == SetTheme(s, u)
  {
  }
}
