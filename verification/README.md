# Sine simulator core, in Dafny

This project models the computational core of a small SDL/ImGui sine-wave
simulator.

- **The rolling sample buffer.** Each tick of `CoreLogic::Update` does three things:
  - it advances simulated time by `1 / fps`;
  - it computes one sample `amplitude · sin(2π · frequency · time)`;
  - it appends that sample and drops the oldest one once the window holds more than 500.

  `Application::update` is an older copy of the same step. It uses a fixed tick of 0.016 s and a window of 100.
- **The colour utilities of the theme system.** They are:
  - decoding a `0xRRGGBB` code into an RGBA colour;
  - the affine `Lighten`, `Darken` and `Saturate` maps;
  - the `ColorTheme` constructor;
  - the six-entry theme table and the current-theme selection.

The modules are:

- `RollingBuffer`. It holds the generic append-then-trim step `Push`, and `LastN`, the independent description of what a window should hold: the newest `n` entries of the whole history.
- `Simulation`. It holds the shared tick `Step`, parameterised by tick size, capacity and the sine function, plus `Run` for `n` ticks and the reference sequence `Samples` of everything generated.
- `Core`. It is the `CoreLogic` controller, with capacity 500 and tick `1 / fps`. It also models the parameter edits the GUI makes through mutable references, as a trace of events interleaved with ticks.
- `App`. It is the `Application` loop, with capacity 100 and tick 0.016.
- `Colors`. It covers hex decoding and encoding (`ImGui::HexToImVec4`) and the colour maps of `ImGui::ColorUtils`. It does not hold the `ImGui::Colors` palette, which is left out.
- `Themes`. It covers the theme constructor, the constants, the table and the current theme.

Modelling choices:

- Floats are reals, and `M_PI` (3.14159265358979323846) is rounded to 16 significant digits. No property depends on its value, because `sin` is a parameter.
- `std::sin` is a parameter `sin: real -> real` of every operation that samples. Nothing is assumed about it, so every property holds for any sine implementation.
- `(hex >> k) & 0xFF` on a `uint32_t` is written as `(hex / 2^k) % 256` on a bounded integer.

## Model

| member | source | states |
|---|---|---|
| Core.Init | src/core/CoreLogic.cpp:6-9 | a fresh controller has an empty window, time 0, frequency 1, amplitude 1 and fps 60, and satisfies the window bound |
| Core.Update | src/core/CoreLogic.cpp:11-19 | with fps ≠ 0: time grows by exactly `1/fps`; frequency, amplitude and fps are unchanged; the newest entry is `amplitude·sin(2π·frequency·time')` at the new time; below 500 entries the window is the old one plus that sample; at 500 it is the old one minus its first entry plus that sample; the bound of 500 is preserved |
| Core.SetFrequency | src/core/include/CoreLogic.hpp:13 | writing through the frequency reference changes the frequency and nothing else |
| Core.SetAmplitude | src/core/include/CoreLogic.hpp:14 | writing through the amplitude reference changes the amplitude and nothing else |
| Core.SetFps | src/core/include/CoreLogic.hpp:15 | writing through the fps reference changes fps and nothing else |
| Core.GetSineWaveValues | src/core/include/CoreLogic.hpp:18-20 | returns exactly the current window, oldest first, leaving the controller as it was; from a valid controller it has at most 500 entries |
| Core.Replay | src/main.cpp:39-44 | the main loop as a trace of ticks and edits; a trace without ticks leaves the window and the time untouched |
| Core.Emitted | src/core/CoreLogic.cpp:13-15 | reference list of every sample the ticks produce, each computed from the parameters and time before the tick, independent of the window; its properties are stated by `Core.EmittedCount` and `Core.ReplayWindow` |
| Core.EmittedCount | src/core/CoreLogic.cpp:14-15 | over any trace of ticks and edits, exactly one sample is produced per tick and none per edit |
| Core.ReplayWindow | src/core/CoreLogic.cpp:11-19 | for any trace of ticks and parameter edits, the window is always the newest 500 entries of the full history, in order; edits never clear or reorder it |
| Core.WindowFromInit | src/core/CoreLogic.cpp:6-19 | from construction, after any trace the window holds exactly `min(ticks, 500)` entries, which are the newest samples generated, oldest first |
| Core.ReplayKeepsValid | src/core/CoreLogic.cpp:15-18 | the single-`if` eviction keeps the bound of 500 across every trace that starts within it |
| Core.UpdateN | src/core/CoreLogic.cpp:11-19 | repeated updates never change fps |
| Core.UpdateNIsRun | src/core/CoreLogic.cpp:11-19 | `n` updates are `n` shared simulation steps with tick `1/fps` and capacity 500 |
| Core.UpdatesFromInit | src/core/CoreLogic.cpp:6-19 | `n` updates from construction leave time `n/60` and `min(n, 500)` entries |
| Core.OldestFromInit | src/core/CoreLogic.cpp:6-19 | after `n >= 500` updates from construction the window is full and its oldest entry is the sample taken at time `(n-499)/60` |
| App.Init | src/Application.cpp:14-22 | a fresh application has frequency 1, amplitude 1, time 0 and an empty window |
| App.Update | src/Application.cpp:86-94 | time grows by exactly 0.016; frequency and amplitude are unchanged; the newest entry is the sample at the new time; below 100 entries nothing is dropped; at 100 exactly the oldest entry is dropped and the rest keep their order; the bound of 100 is preserved |
| App.UpdateN | src/Application.cpp:86-94 | `n` updates are `n` shared simulation steps with tick 0.016 and capacity 100 |
| App.UpdatesFromInit | src/Application.cpp:14-22 | `n` updates from construction leave time `n·0.016` and `min(n, 100)` entries |
| App.OldestFromInit | src/Application.cpp:86-94 | after `n >= 100` updates from construction the window is full; its oldest entry is the sample at time `(n-99)·0.016` and its newest the sample at `n·0.016` |
| Simulation.Sample | src/core/CoreLogic.cpp:14 | one sample `amplitude·sin(2π·frequency·t)`; its use at the new time is stated by `Simulation.StepSpec` and `Simulation.SamplesAt` |
| Simulation.Step | src/core/CoreLogic.cpp:13-18 | the shared tick (advance time, sample, push); its behaviour is stated by `Simulation.StepSpec` and `Simulation.StepWindow` |
| Simulation.StepSpec | src/core/CoreLogic.cpp:13-18 | one tick keeps frequency and amplitude, advances time by the tick, appends below capacity, evicts exactly the front at capacity, preserves the bound, and ends with the new sample |
| Simulation.StepWindow | src/Application.cpp:90-93 | if the window is the newest `cap` entries of a history, after one tick it is the newest `cap` entries of that history extended by the new sample |
| Simulation.RunWindow | src/core/CoreLogic.cpp:15-18 | after `n` ticks from any window within capacity, the window is the newest `cap` entries of the old window followed by the `n` generated samples |
| Simulation.RunTime | src/core/CoreLogic.cpp:13 | `n` ticks advance time by `n·dt` |
| Simulation.SamplesAt | src/core/CoreLogic.cpp:14 | the `k`-th generated sample is `amplitude·sin(2π·frequency·t)` at the time of tick `k+1` |
| Simulation.RunFromEmpty | src/core/CoreLogic.cpp:6-18 | from an empty window, `n` ticks leave `min(n, cap)` entries, which are the newest `cap` generated samples |
| Simulation.OldestAfterRun | src/core/CoreLogic.cpp:15-18 | from an empty window, once `n >= cap` the window is full, its first entry is the sample of tick `n-cap+1` and its last entry the sample of tick `n` |
| RollingBuffer.Push | src/core/CoreLogic.cpp:15-18 | `push_back` then one `erase(begin())` above capacity; its behaviour is stated by `RollingBuffer.PushSpec` and `RollingBuffer.PushKeepsLastN` |
| RollingBuffer.PushSpec | src/core/CoreLogic.cpp:15-18 | `push_back` then a single `erase(begin())` when over capacity appends below capacity, drops exactly the front at capacity, keeps the bound and puts the new element last |
| RollingBuffer.PushKeepsLastN | src/core/CoreLogic.cpp:15-18 | pushing onto the newest `cap` entries of a history gives the newest `cap` entries of the extended history (FIFO) |
| RollingBuffer.LastNIsSuffix | src/core/CoreLogic.cpp:15-18 | the window description keeps `min(|xs|, n)` entries, which are the tail of the history in order |
| Colors.HexToImVec4 | src/ui/include/Themes.hpp:8-15 | each decoded channel lies in [0, 1] and is the matching byte of the code divided by 255; alpha is passed through |
| Colors.ByteRoundTrip | src/ui/include/Themes.hpp:10-12 | `red·65536 + green·256 + blue` equals the code mod 2^24 |
| Colors.DropHigh | src/ui/include/Themes.hpp:10-12 | shifting and masking cannot see bits above the selected byte: adding a multiple of `d·m` leaves `(x / d) % m` unchanged |
| Colors.HighBitsIgnored | src/ui/include/Themes.hpp:10-12 | bits 24 to 31 of the code do not affect the decoded colour |
| Colors.Pack | src/ui/include/Themes.hpp:10-12 | packing three bytes gives a 24-bit code from which the channel extraction recovers each byte |
| Colors.DecodeEncode | src/ui/include/Themes.hpp:8-15 | re-encoding a decoded colour gives back the code mod 2^24 |
| Colors.EncodeDecode | src/ui/include/Themes.hpp:8-15 | decoding a packed triple gives each byte divided by 255 |
| Colors.Lighten | src/ui/include/Themes.hpp:20-27 | alpha is unchanged; amount 0 is the identity; amount 1 gives white |
| Colors.Darken | src/ui/include/Themes.hpp:30-37 | alpha is unchanged; amount 0 is the identity; amount 1 gives black |
| Colors.Saturate | src/ui/include/Themes.hpp:40-48 | alpha is unchanged; amount 0 is the identity |
| Colors.ChannelBounds | src/ui/include/Themes.hpp:22-34 | for a channel and amount in [0, 1], lightening lands in [channel, 1] and darkening in [0, channel] |
| Colors.LightenBounds | src/ui/include/Themes.hpp:20-27 | lightening a colour in the unit cube by an amount in [0, 1] raises no channel above 1 and lowers none |
| Colors.DarkenBounds | src/ui/include/Themes.hpp:30-37 | darkening a colour in the unit cube by an amount in [0, 1] lowers no channel below 0 and raises none |
| Colors.LightenMonotone | src/ui/include/Themes.hpp:20-27 | for a colour whose channels are at most 1 (every decoded colour), a larger amount lightens at least as much, channel by channel |
| Colors.LightenCompose | src/ui/include/Themes.hpp:20-27 | lightening by `a` then `b` is lightening by `a + b - a·b` |
| Colors.DarkenCompose | src/ui/include/Themes.hpp:30-37 | darkening by `a` then `b` is darkening by `a + b - a·b` |
| Colors.LightenIsInvertedDarken | src/ui/include/Themes.hpp:20-37 | lightening is darkening conjugated by channel inversion `v ↦ 1 - v` |
| Colors.SaturateKeepsGray | src/ui/include/Themes.hpp:40-48 | saturation leaves the luma `0.299r + 0.587g + 0.114b` unchanged |
| Colors.SaturateScalesDistance | src/ui/include/Themes.hpp:40-48 | each channel's signed distance from the (preserved) luma is multiplied by `1 + amount` |
| Colors.SaturateMoreVibrant | src/ui/include/Themes.hpp:39-48 | for amount ≥ 0 no channel moves closer to the luma, and for amount > 0 every channel off the luma moves strictly further away |
| Colors.SaturateFixesGray | src/ui/include/Themes.hpp:40-48 | a gray colour is a fixed point of saturation for every amount |
| Colors.SaturateCanLeaveUnit | src/ui/include/Themes.hpp:40-48 | saturation does not clamp: pure red saturated by 0.5 leaves the unit cube |
| Themes.MakeTheme | src/ui/include/Themes.hpp:58-62 | primary is the decoded code, secondary is primary lightened by 0.15, hover is primary lightened by 0.08; all three theme colours are opaque and in [0, 1]; channel by channel primary ≤ hover ≤ secondary; the primary colour encodes back to the code mod 2^24 |
| Themes.ThemeCode | src/ui/include/Themes.hpp:58-62 | a theme built from a 24-bit code keeps its name and its primary colour encodes back to exactly that code |
| Themes.PredefinedThemes | src/ui/include/Themes.hpp:67-74 | each of the eight predefined themes has its documented name, and its primary colour encodes back to its documented code |
| Themes.ThemeTableOrder | src/ui/include/Themes.hpp:91-98 | the table lists Ocean Blue, Sunset Orange, Electric Lime, Romantic Rose, Forest Emerald and Deep Indigo, in that order |
| Themes.GetThemeCount | src/ui/include/Themes.hpp:91-102 | the table has 6 entries with distinct names, and neither Royal Purple nor Golden Amber is among them |
| Themes.InitialThemeState | src/ui/include/Themes.hpp:80 | before any selection the current theme is the whole Ocean Blue theme |
| Themes.SetTheme | src/ui/include/Themes.hpp:83-89 | after selecting a theme, the current theme is that theme |
| Themes.GetCurrentTheme | src/ui/include/Themes.hpp:87-89 | returns the stored current theme, which `Themes.SetTheme` and `Themes.LastSelectionWins` relate to the selections made |
| Themes.LastSelectionWins | src/ui/include/Themes.hpp:83-89 | after any non-empty series of selections, from any state, the current theme is the last one selected |
| Themes.SetThemeOverwrites | src/ui/include/Themes.hpp:83-85 | only the last selection matters |

## Left out

- Window, renderer and ImGui setup, event polling, rendering and cleanup (src/ui/Gui.cpp; `initialize`, `processEvents`, `render`, `run` and `cleanup` of src/Application.cpp). These are I/O and third-party library calls.
- The panel splitter, style tables, custom widgets and animations (src/ui/Gui.cpp, src/ui/include/Style.hpp, src/Style.hpp, src/ui/include/Animations.hpp). They are UI interaction, wall-clock time and drawing calls.
- The `Colors::ACCENT_*` globals and `UpdateAccentColors` (src/ui/include/Themes.hpp:113-122), and the constant palette. They are mutable globals that feed rendering.
- The slider edits of `Application::render` (src/Application.cpp:111-112). In `Core` they are modelled as arbitrary parameter edits; `App` only has ticks.
- The pause flag and the browser main loop (src/main.cpp). A paused frame simply contributes no `Tick` event.
- The `Gui` methods that are declared but never defined (theme persistence, panel-size percentages). Their bodies do not exist.
- Exact IEEE single-precision behaviour:
  - rounding of `1/fps`, `0.016f` and the colour arithmetic;
  - the drift of the accumulated `time`;
  - the `float` luma weights of `Saturate`.

  All of these are exact reals here.
- Core.Update: requires `fps ≠ 0`. With fps 0 the source divides by zero, which gives an infinite time in IEEE arithmetic, and IEEE infinities are not modelled. A negative fps is allowed and runs time backwards. Dragging the slider keeps fps in [5, 120] (src/ui/Gui.cpp:209), but Ctrl+Click text entry into that slider is not clamped, so fps 0 is reachable. One tick at fps 0 makes `time_` infinite for good, and every later sample is NaN; the model cannot express this.
- `std::sin` is left uninterpreted, so no property depends on trigonometric identities or on the range [-1, 1].
- Core.UpdatesFromInit: the times are exact rationals `n/60`. The source accumulates single-precision sums, which drift.
- Colors.ToHex: `ChannelByte` floors `v·255`. The source has no encoder; this one exists only to state the decoding round trip.
