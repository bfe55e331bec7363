# Ultra-meter overlay: verified model of the core logic

The repository holds two versions of a Windows overlay that shows upload and download throughput next to the system tray. `ultra_meter.py` is the later version; it persists settings. `main.py` is the earlier "dynamic units" version. Most of both files is Qt and Win32 plumbing. This project models the logic underneath it in Dafny:

- **Rate sampling** (`Sampler`). `App.refresh` keeps the previous counter `Snapshot`. The first tick only stores it. Each later tick divides the counter deltas by `max(1e-6, now - prev.ts)`, formats and colours both rates, and replaces the snapshot. Counters and the clock are method inputs.
- **Unit formatting** (`Units`). `format_rate` picks the bit ladder (times 8, step 1000) or the byte ladder (step 1024). It then honours a forced unit of that ladder or runs the auto-scale `while` loop. `_fmt_value` picks 0, 1 or 2 decimals, or prints `"0"`. The numeral is modelled as a `real` plus a decimal count; digit rendering is left abstract. The global `UNITS_MODE`/`FORCE_UNIT` pair is the `UnitConfig` class.
- **Colour tiers** (`Colors`). `color_for_mbps` has thresholds 5 and 50 and is applied to `Bps*8/1e6` in either unit mode. The model computes a `Tier` and maps it to the colour string the label receives (`Hex`).
- **Dock geometry** (`Dock`). `snap_to_tray` is a method that makes the source's sequence of `x`/`y` assignments. It is proved equal to `PlannedDock`, a priority rule: the right-edge test beats the left-edge test, which beats the top-edge test, which beats the default.
- **Click-through style word** (`Style`). `_apply_click_through` acts on a `bv32` extended-style word.
- **Settings** (`Settings`). The JSON file is a `map<string, Value>` inside a `SettingsFile` object. Its `readable` and `writable` flags say whether reading and writing currently succeed. A failed load returns `{}` and a failed save leaves the file unchanged. The module also holds the merges of `_persist` and `toggle_units` and the startup restore rules.
- **The two strips** (`UltraMeter`, `MainMeter`). Each `CornerStrip` class holds `click_through`, the drag anchor, the top-left position and the style word. It has the pointer handlers, lock toggling and snapping of its own file. The `App` classes hold the sampler, the re-dock timer (main.py) and the units restore (ultra_meter.py).

Three behaviours of the code are worth noting; the model follows the code in each:
- Negative counter deltas are not clamped: a falling counter gives a negative rate (`Sampler.RateSignFollowsDelta`). It shows as `"0"` because `_fmt_value` prints `"0"` for every value `<= 0`.
- In main.py the five-second re-dock timer calls `snap_to_tray` whatever the lock state, so it also moves an unlocked strip that is being dragged (`MainMeter.App.SnapTick`).
- A tray rectangle spanning the whole screen width matches both the left and the right edge test. That happens when the notification-area child window is not found and the whole taskbar is used. The right test wins and puts the overlay left of the screen, not above the tray (`Dock.FullWidthTrayPlacedLeftOfScreen`).

Both files have identical `format_rate`, `_fmt_value`, `color_for_mbps`, `Snapshot`, `refresh` arithmetic and `snap_to_tray` geometry. These are modelled once. Rows below cite ultra_meter.py for them unless a lemma is about a main.py example. The matching main.py lines are 52-93 (formatting and colour), 25-29 (`Snapshot`), 214-240 (`refresh`) and 177-195 (`snap_to_tray`).

## Model

| member | source | states |
|---|---|---|
| `Units.LadderFor` | ultra_meter.py:104-111 | mode `"bytes"` selects the five-unit byte ladder with step 1024; any other mode selects the bit ladder with step 1000; every ladder has five units and a step above 1 |
| `Units.BaseValue` | ultra_meter.py:104-109 | bytes mode keeps the rate in bytes/s; every other mode multiplies it by 8; a non-positive rate stays non-positive |
| `Units.IndexOf` | ultra_meter.py:114 | `units.index(u)`: the first position holding `u` |
| `Units.FormatRate` | ultra_meter.py:103-122 | the rendered numeral and unit equal `FormatSpec`: a forced unit of the active ladder divides by step^index, otherwise the auto-scale result is used |
| `Units.ScaleDown` | ultra_meter.py:118-121 | the loop's result is `AutoScale(value, step, 0)`; and multiplying the scaled value back by the step once per division (`Rescaled`) gives the starting value |
| `Units.AutoScaleBounds` | ultra_meter.py:118-121 | after the loop the index is within 0..4, the value is below the step unless the index is 4, and the value is at least 1 once any division happened |
| `Units.AutoScaleExact` | ultra_meter.py:118-121 | the loop loses nothing: multiplying the result back by the step once per division gives the starting value |
| `Units.RescaledIsPow` | ultra_meter.py:115 | multiplying by the step k times is multiplying by `step ** k` |
| `Units.AutoIndexMonotone` | ultra_meter.py:118-121 | a larger rate never gets a smaller unit index |
| `Units.AutoFormatBounds` | ultra_meter.py:113-122 | without a usable forced unit the unit is the ladder entry at the auto-scale index, the numeral is that exact scaled value, below the step except at the top unit and at least 1 above the base unit; multiplying it back by the step once per division (`Rescaled`, equal to `scaled * Pow(step, idx)` by `Units.RescaledIsPow`) gives the rate in the base unit |
| `Units.ForcedUnitHonoured` | ultra_meter.py:113-116 | a forced unit of the active ladder is used as-is and the value is divided by step^index whatever its magnitude |
| `Units.ForeignForcedUnitIgnored` | main.py:67-70 | a forced unit from the other ladder (`"MB/s"` in bits mode, `"Mbps"` in bytes mode) falls through to auto-scale |
| `Units.FmtValue` | ultra_meter.py:124-128 | the numeral is the literal `"0"` exactly when v <= 0; otherwise the value is kept, with 0 decimals exactly from 100 up, 1 decimal exactly on [10, 100) and 2 below 10 |
| `Units.DecimalsNonIncreasing` | main.py:79-88 | larger positive values never get more decimals; 0 decimals from 100 up, 1 on [10, 100), 2 below 10 |
| `Units.NonPositiveRendersZero` | ultra_meter.py:118-128 | a zero or negative rate renders as `"0"`, and without a forced unit in the base unit (`"0 bps"` / `"0 B/s"`) |
| `Units.MegabitExample` | main.py:52-77 | 1,000,000 B/s in bits mode reaches index 2 with value 8: `8.00 Mbps` |
| `Units.ToggledMode` | ultra_meter.py:235 | the toggle yields `"bytes"` exactly when the mode was `"bits"`, and always yields a valid mode |
| `Units.ToggleTwice` | main.py:128-131 | two toggles restore a valid mode, and each toggle switches the ladder |
| `Units.UnitConfig.Toggle` | main.py:128-131 | the global mode is replaced by its toggle; the forced unit is untouched |
| `Colors.ColorForMbps` | ultra_meter.py:130-133 | green exactly below 5 Mbps, red exactly at 50 Mbps or more, amber between |
| `Colors.HexIdentifiesTier` | ultra_meter.py:130-133 | the three colour strings returned for green, amber and red are distinct, so the colour a `Readout` carries determines the tier |
| `Colors.ColorMonotone` | main.py:90-93 | the tier never decreases as the rate grows |
| `Colors.MbpsOf` | ultra_meter.py:375-376 | the Mbps figure times 125,000 is the bytes/s rate |
| `Colors.TierInBytesPerSecond` | main.py:227-229 | whatever the unit mode, the tier is green below 625,000 B/s and red from 6,250,000 B/s |
| `Sampler.Dt` | ultra_meter.py:371 | the interval is at least 1e-6 and at least `now - prev.ts`, and is one of the two |
| `Sampler.Sample` | ultra_meter.py:371-373 | each rate times the clamped interval is that direction's counter delta |
| `Sampler.RateSignFollowsDelta` | ultra_meter.py:372-373 | a rate is negative exactly when its counter fell (no clamping), and a rate from a non-increasing counter renders as `"0"` in the base unit |
| `Sampler.OneSecondScenario` | main.py:219-240 | counters (1000, 2000) at t=0 then (2000, 2500) at t=1 give 1000 and 500 B/s, shown as 8.00 Kbps and 4.00 Kbps, both green (`"#46BE5A"`) |
| `Sampler.RateSampler.Refresh` | ultra_meter.py:364-384 | the first tick only stores the baseline and shows nothing; a later tick shows the formatted rates and their colour strings against the old baseline; the baseline always becomes the current snapshot |
| `Dock.DockPosition` | ultra_meter.py:261-275 | the sequential assignments equal the priority rule `PlannedDock`; with no tray the result is the screen's bottom-right corner inset by the margin |
| `Dock.TopTaskbarBelowTray` | main.py:189-190 | a tray at the top edge only puts the overlay just below it, right-aligned to it |
| `Dock.TopLeftCornerLeftWins` | main.py:189-192 | when both the top and the left test match, the left test's position overwrites the top test's |
| `Dock.FullWidthTrayPlacedLeftOfScreen` | ultra_meter.py:270-275 | a tray spanning the whole screen width triggers the right test last, which puts the overlay left of the screen's left edge |
| `Dock.FloatingTrayAbove` | main.py:187-188 | a tray matching no edge gets the overlay just above it, right edge `m` left of the tray's |
| `Style.ApplyClickThrough` | ultra_meter.py:223-231 | LAYERED is always set, TRANSPARENT is set exactly when enabling, every other bit is kept |
| `Style.OnlyOtherBitsMatter` | main.py:138-146 | the result does not depend on the incoming TRANSPARENT and LAYERED bits |
| `Style.LastApplyWins` | main.py:138-146 | applying twice equals applying the second setting once |
| `Style.UnlockAfterLock` | main.py:148-150 | locking then unlocking leaves the original word with TRANSPARENT cleared and LAYERED set |
| `Settings.SettingsFile.Load` | ultra_meter.py:28-33 | a successful read returns the file's dictionary, a failed one the empty dictionary |
| `Settings.SettingsFile.Save` | ultra_meter.py:35-40 | a successful write replaces the file's dictionary, a failed one changes nothing |
| `Settings.WithPosLock` | ultra_meter.py:278-282 | `_persist` sets `pos` and `locked` and keeps every other key and its value |
| `Settings.WithUnits` | ultra_meter.py:236 | `toggle_units` sets `units` and keeps every other key and its value |
| `Settings.RestoredPos` | ultra_meter.py:191-194 | a stored pair is used as the position; a missing `pos` means the dock position |
| `Settings.RestoredLock` | ultra_meter.py:195-198 | a missing `locked` means locked; a stored boolean is used as is |
| `Settings.RestoredUnits` | ultra_meter.py:341-345 | only `"bits"` or `"bytes"` replace the current mode; any other value is ignored |
| `Settings.RestoredUnitsValid` | ultra_meter.py:341-345 | the restored mode is always `"bits"` or `"bytes"` |
| `Settings.PersistRoundTrip` | ultra_meter.py:278-282 | what `_persist` writes restores to the same position and lock flag and leaves the units restore unchanged |
| `Settings.UnitsRoundTrip` | ultra_meter.py:233-236 | what `toggle_units` writes restores to the same mode and leaves the position and lock restore unchanged |
| `UltraMeter.CornerStrip.constructor` | ultra_meter.py:176-198 | position from the stored pair or the dock, lock flag from the store (default locked), click-through bits applied, `pos`/`locked` written over the loaded dictionary: other keys kept when the file is readable; an unreadable but writable file ends holding only `pos` and `locked` |
| `UltraMeter.CornerStrip.Persist` | ultra_meter.py:278-282 | the file becomes the saved merge of the loaded dictionary with the current position and lock flag |
| `UltraMeter.CornerStrip.SetLocked` | ultra_meter.py:201-205 | sets the flag and the style word and persists; the position and anchor do not change |
| `UltraMeter.CornerStrip.ToggleLock` | ultra_meter.py:207-208 | flips the flag without moving the strip |
| `UltraMeter.CornerStrip.ToggleUnits` | ultra_meter.py:233-236 | flips the global mode and saves only the `units` key over the loaded dictionary |
| `UltraMeter.CornerStrip.MousePress` | ultra_meter.py:238-241 | while locked nothing changes; an unlocked left press sets the anchor to pointer minus top-left |
| `UltraMeter.CornerStrip.MouseMove` | ultra_meter.py:243-246 | only when unlocked, anchored and left-held, the top-left becomes pointer minus anchor |
| `UltraMeter.CornerStrip.MouseRelease` | ultra_meter.py:248-251 | while locked neither the anchor nor the file changes; unlocked, the anchor is cleared and the position persisted |
| `UltraMeter.CornerStrip.SnapToTray` | ultra_meter.py:261-276 | moves to `PlannedDock` and persists it with the current lock flag |
| `UltraMeter.DragInPlaceKeepsPosition` | ultra_meter.py:238-246 | an unlocked press and a held move at the same point leave the position unchanged |
| `UltraMeter.App.constructor` | ultra_meter.py:285-345 | the strip restores position and lock, with no drag anchor and the click-through bits applied; the file keeps its flags and, when writable, holds `pos`/`locked` over the loaded dictionary; the unit mode is the stored `"bits"`/`"bytes"` when the file is readable and holds one, otherwise `"bits"` |
| `UltraMeter.App.Refresh` | ultra_meter.py:364-384 | a refresh with the current global unit mode and forced unit |
| `UltraMeter.App.QuitApp` | ultra_meter.py:359-362 | quitting persists position and lock flag; the file's readable and writable flags are unchanged |
| `MainMeter.CornerStrip.constructor` | main.py:112-125 | the strip starts locked, with click-through bits applied, at the dock position |
| `MainMeter.CornerStrip.ToggleUnits` | main.py:128-131 | flips the global mode and stores nothing |
| `MainMeter.CornerStrip.ToggleLock` | main.py:148-153 | flips the flag and style word; becoming locked snaps to the dock position, becoming unlocked keeps the position |
| `MainMeter.CornerStrip.MousePress` | main.py:155-158 | while locked nothing changes; an unlocked left press sets the anchor to pointer minus top-left |
| `MainMeter.CornerStrip.MouseMove` | main.py:160-163 | only when unlocked, anchored and left-held, the top-left becomes pointer minus anchor |
| `MainMeter.CornerStrip.MouseRelease` | main.py:165-167 | unlocked, the anchor is cleared; nothing is stored |
| `MainMeter.CornerStrip.SnapToTray` | main.py:177-195 | moves to `PlannedDock`; the lock flag and anchor are untouched |
| `MainMeter.LockUnlockRoundTrip` | main.py:148-153 | two toggles from unlocked restore the flag and the unlocked style bits but leave the strip at the dock position |
| `MainMeter.App.constructor` | main.py:197-212 | starts with no baseline, bits mode, and a locked strip at the dock position with no drag anchor and the click-through bits set |
| `MainMeter.App.Refresh` | main.py:214-240 | a refresh with the current global unit mode and forced unit |
| `MainMeter.App.SnapTick` | main.py:210-212 | the re-dock timer moves the strip to the dock position even while unlocked, keeping the lock flag, the anchor and the style word |

## Left out

- Qt rendering: painting, layout, fonts, HTML label markup, tooltips, pin icons, the tray menu, shortcuts, timers and show/hide. `Readout` stands for the text and colour the labels receive.
- `get_tray_rect` and the Win32 window enumeration. The tray rectangle is an `Option<Rect>` input and the screen rectangle a `Rect` input. `GetWindowLong`/`SetWindowLong` become the strip's `exStyle` field.
- Qt's `QRect.right()`/`bottom()` off-by-one: the screen's right and bottom are taken as given integers. The overlay size is the constant `W`×`H`; the model ignores a resize by the layout.
- `get_autostart`/`set_autostart`: registry calls with no logic to model.
- `appdata_dir`, `asset_path`, `exe_path` and the JSON encoding. The settings file is an abstract dictionary. Whether reading and writing succeed is a pair of flags fixed between calls; the model does not let the flags change between two calls.
- `psutil.net_io_counters` and `time.time`: their values are `Refresh` parameters. Counters are unbounded integers, and time and rates are `real`s, not floats.
- Python's `:.Nf` rendering and float rounding: a numeral is the exact `real` value plus the decimal count.
- `Settings.Value`: it only holds pairs, booleans, strings, integers and null. A stored `pos` that is not a list of at least two integers makes the source's constructor raise; the constructors require `PosRestorable` instead. `Value` has no list of three or more integers, so the source's use of the first two entries of a longer list is not modelled.
- `frameGeometry().topLeft()` is taken to be the strip's position (the window is frameless).
