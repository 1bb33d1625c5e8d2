# PanteraPRO battery tracker: verified model of the simulation core

The PanteraPRO tray application estimates the charge of a wireless mouse that
does not report its own battery level. A background loop polls the attached
USB hubs once per second. When the mouse's cable instance ID is present, the
mouse is taken to be charging. A 60-second timer moves the estimate up by 1.1
points per tick while charging and down by 0.05 points otherwise. It then
clamps the estimate to [0, 100], redraws the tray and saves the value to the
settings file. The tray icon is one of six bands chosen from the percentage
and the charging flag.

This project models that core in Dafny, from `PanteraPRO/PanteraPRO/AppContext.cs`:

- `battery.dfy` (module `Battery`): the rates, `Clamp`, the value a tick
  produces (`TickValue`), repeated ticks (`Ticks`) and their closed forms.
- `icons.dfy` (module `Icons`): the `Band` datatype, `GetIcon` and an
  equivalent table of thresholds. It also holds the text and icon that
  `UpdateVisuals` shows (`Visuals`).
- `presence.dfy` (module `Presence`): enumerated devices as lists of
  (property name, value) pairs. It holds the scan of one poll cycle
  (`ScanDevices`, a method with the source's nested loops and `break`) and a
  count of how often successive scan results change (`Changes`).
- `names.dfy` (module `DeviceNames`): the NUL-removal step of `ReadString`.
- `app_context.dfy` (module `Tray`): class `AppContext` with the fields
  `currentBattery` and `isCharging`. It also has ghost fields for the
  settings store (`saved`, `saves`) and for the tray (`refreshes` and
  `shown`, the last display drawn). Its methods are the constructor's state
  set-up, `UpdateVisuals`, `SaveBatteryPercentage`, `TimerElapsed`, one poll
  cycle (`PollStep`) and the poll loop up to cancellation
  (`PollUntilCancelled`).

Notes on behaviour the model makes explicit:

- The percentage loaded at start-up is not clamped. It is in [0, 100] only
  after the first tick, whatever value was loaded (`TickValue`,
  `AppContext.TimerElapsed`).
- The negative-percentage fallback of `GetIcon` (the final `return` of the
  Charging icon) can never be reached after a tick
  (`FallbackUnreachableAfterTick`). It can still be reached before the first
  tick, if the settings file holds a negative value: the constructor's
  refresh then shows the Charging icon while the mouse is unplugged. In the
  source it can also be reached during a tick: `TimerElapsed` writes
  `currentBattery` once before clamping and once after. A refresh from the
  poll thread that runs between the two writes sees the unclamped value. At 0
  that value is -0.05, which gives the fallback icon; at 100 while charging it
  is 101.1, which gives a level text above 100. The model runs ticks and polls
  one after the other, so it does not cover this interleaving.
- A charging tick from 99.5 reaches 100. The tray then shows the charging
  text together with the Battery100 icon, not the Charging icon, because the
  charging override requires a value below 100 (`DisplayScenarios`).

## Model

| member | source | states |
|---|---|---|
| `Battery.Clamp` | PanteraPRO/PanteraPRO/AppContext.cs:178-185 | the result is one of current, min and max; above max gives max, even when min > max; below min but not above max gives min; for min <= max the result lies in [min, max] and equals current exactly when current is already in range |
| `Battery.ClampIsNearest` | PanteraPRO/PanteraPRO/AppContext.cs:178-185 | for min <= max, the clamped value is the point of [min, max] nearest to current |
| `Battery.TickValue` | PanteraPRO/PanteraPRO/AppContext.cs:120-125 | after a tick the value is in [0, 100] for any value before it; a charging tick never goes below min(old, 100); a discharging tick never goes above max(old, 0) |
| `Battery.TickFormula` | PanteraPRO/PanteraPRO/AppContext.cs:120-125 | from a value in range, a charging tick gives min(100, old + 1.1) and a discharging tick gives max(0, old - 0.05) |
| `Battery.ChargingClosedForm` | PanteraPRO/PanteraPRO/AppContext.cs:120-125 | n charging ticks from a value in range give min(100, old + 1.1 n) |
| `Battery.DischargingClosedForm` | PanteraPRO/PanteraPRO/AppContext.cs:120-125 | n discharging ticks from a value in range give max(0, old - 0.05 n) |
| `Battery.ChargingRecovers` | PanteraPRO/PanteraPRO/AppContext.cs:120-125 | repeated charging ticks are non-decreasing; they reach 100 once 1.1 n >= 100 - old, and stay at 100 from then on |
| `Battery.DischargingDrains` | PanteraPRO/PanteraPRO/AppContext.cs:120-125 | repeated discharging ticks are non-increasing; they reach 0 once 0.05 n >= old, and stay at 0 from then on |
| `Battery.TickScenarios` | PanteraPRO/PanteraPRO/AppContext.cs:120-125 | 20 on battery becomes 19.95; 99.5 while charging becomes 100 |
| `Icons.GetIcon` | PanteraPRO/PanteraPRO/AppContext.cs:148-163 | charging below 100 gives Charging; otherwise Charging exactly for a negative value, and each level band only for values in its interval [Floor, Ceiling) of the 75/50/25/10/0 thresholds |
| `Icons.BandMonotone` | PanteraPRO/PanteraPRO/AppContext.cs:152-161 | when not charging, a higher non-negative percentage never selects a lower band |
| `Icons.SelectBandPicksHighest` | PanteraPRO/PanteraPRO/AppContext.cs:152-161 | on any threshold table sorted high to low, the first-match lookup selects the band of the highest threshold at or below the percentage |
| `Icons.SelectBandNoneReached` | PanteraPRO/PanteraPRO/AppContext.cs:160-162 | a lookup on a percentage below every threshold of the table falls back to Charging |
| `Icons.BandTableDescending` | PanteraPRO/PanteraPRO/AppContext.cs:152-161 | the thresholds 75, 50, 25, 10, 0 strictly decrease in the order `GetIcon` tests them |
| `Icons.GetIconPicksHighestThreshold` | PanteraPRO/PanteraPRO/AppContext.cs:150-161 | outside the charging override, the icon is the band of the highest threshold at or below the percentage |
| `Icons.GetIconBelowAllThresholds` | PanteraPRO/PanteraPRO/AppContext.cs:150-162 | a percentage below every threshold (a negative one) selects the Charging icon |
| `Icons.GetIconIsTableLookup` | PanteraPRO/PanteraPRO/AppContext.cs:148-163 | the icon is the charging override followed by a lookup in the table 75→Battery100, 50→Battery75, 25→Battery50, 10→Battery25, 0→Warning, with Charging when no threshold is reached |
| `Icons.FullWhileCharging` | PanteraPRO/PanteraPRO/AppContext.cs:150-153 | charging at exactly 100 selects Battery100 |
| `Icons.FallbackUnreachableAfterTick` | PanteraPRO/PanteraPRO/AppContext.cs:150-162 | for any value produced by a tick, Charging is selected exactly when charging and below 100, so the negative fallback is never taken |
| `Icons.Visuals` | PanteraPRO/PanteraPRO/AppContext.cs:131-136 | the text is the charging label exactly when charging, and the level text carries the percentage otherwise; the icon is the selected band |
| `Icons.DisplayScenarios` | PanteraPRO/PanteraPRO/AppContext.cs:118-136 | a tick from 20 on battery shows the level 19.95 with Battery25; a charging tick from 99.5 shows the charging text with Battery100 |
| `Presence.ScanDevices` | PanteraPRO/PanteraPRO/AppContext.cs:69-84 | found is true exactly when some device has a property named DeviceID whose value equals MouseName exactly; the early `break` does not change the result |
| `Presence.Changes` | PanteraPRO/PanteraPRO/AppContext.cs:88-92 | a run of scan results causes at most one flag change per result |
| `Presence.NoChangesIffConstant` | PanteraPRO/PanteraPRO/AppContext.cs:88-92 | no flag change and no refresh happen exactly when every scan result equals the flag held before the run |
| `Presence.ChangesAppend` | PanteraPRO/PanteraPRO/AppContext.cs:67-92 | the changes over two consecutive runs add up, and the flag after both runs is the flag after the second run started from the flag after the first |
| `Presence.ChangesOfRun` | PanteraPRO/PanteraPRO/AppContext.cs:88-92 | a run of identical scan results changes the flag once if it differs from the flag before it, and never otherwise |
| `Presence.DisconnectRefreshesOnce` | PanteraPRO/PanteraPRO/AppContext.cs:67-92 | after the mouse was found, five scans without it clear the flag and add exactly one change, not five |
| `DeviceNames.ReadString` | PanteraPRO/PanteraPRO/AppContext.cs:113-116 | the result has no NUL; its length is the input length minus the number of NULs; every other character occurs as often as in the input |
| `DeviceNames.ReadStringKeepsCleanText` | PanteraPRO/PanteraPRO/AppContext.cs:113-116 | text without NUL is returned unchanged |
| `DeviceNames.ReadStringConcat` | PanteraPRO/PanteraPRO/AppContext.cs:113-116 | NUL removal distributes over concatenation, so the remaining characters keep their order |
| `DeviceNames.ReadStringIdempotent` | PanteraPRO/PanteraPRO/AppContext.cs:113-116 | applying it twice equals applying it once |
| `DeviceNames.PaddedNameMatches` | PanteraPRO/PanteraPRO/AppContext.cs:113-116 | a NUL-free name followed by any number of NULs (for example "Mouse\0\0\0") reads as the name |
| `Tray.AppContext.constructor` | PanteraPRO/PanteraPRO/AppContext.cs:46-57 | the loaded percentage is taken unclamped, the charging flag starts false, and the tray is refreshed once |
| `Tray.AppContext.UpdateVisuals` | PanteraPRO/PanteraPRO/AppContext.cs:131-136 | one refresh, which shows the text and icon of the current state and changes nothing else |
| `Tray.AppContext.SaveBatteryPercentage` | PanteraPRO/PanteraPRO/AppContext.cs:165-170 | one save, after which the store holds the current percentage |
| `Tray.AppContext.TimerElapsed` | PanteraPRO/PanteraPRO/AppContext.cs:118-129 | the new percentage is the tick of the old one under the unchanged charging flag and lies in [0, 100]; exactly one refresh and one save happen, and the saved value equals the new percentage even when it did not change; the Charging icon is shown only while charging below 100 |
| `Tray.AppContext.PollStep` | PanteraPRO/PanteraPRO/AppContext.cs:69-92 | the charging flag becomes the scan result; a refresh happens exactly when the flag changed; the percentage and the store are untouched |
| `Tray.AppContext.PollUntilCancelled` | PanteraPRO/PanteraPRO/AppContext.cs:67-95 | over a sequence of scans the flag ends as the last result; the number of refreshes equals the number of changes of the result; the display is unchanged when no result changed, and otherwise shows the final state; the percentage and the store are untouched |

## Left out

- `float` arithmetic: the percentage and the rates are `real`, so the rounding of single-precision addition, and the fact that 0.05f and 1.1f are not exactly 0.05 and 1.1, are not modelled.
- The text of the tooltip: `Math.Round` of the percentage, its midpoint rule and the localized resource strings are not modelled. A level label carries the unrounded percentage.
- Loading the settings: the constructor takes the loaded percentage as a parameter. The default that `PanteraSettings` supplies when the file is missing is not part of this model.
- `AppSettings.cs` (JSON serialization and file I/O) is represented only by the ghost `saved` value and the `saves` counter.
- WMI enumeration (`ManagementObjectSearcher`, `Win32_USBHub`, `Dispose`): each scan is given as a sequence of devices, each a sequence of (name, value-as-text) pairs. A property value that is null, on which `ToString` would throw, is not modelled.
- UTF-8 decoding in `ReadString` is a library call: the model starts from the decoded text. The source never calls `ReadString`.
- The background thread, `Thread.Sleep`, the cancellation token, `ManualResetEvent` and the cancel/join sequence of `Exit`: the loop is modelled sequentially, with cancellation standing as the end of a finite sequence of scans. Interleaving of the poll thread with timer ticks is not modelled.
- The timer dispatch (`System.Timers.Timer`, the 60-second interval): each tick is one call of `TimerElapsed`.
- The WinForms tray (`NotifyIcon`, context menu, `LoadIcons`, `GetHicon`): icons are the `Band` datatype and the tray is the ghost `shown` value.
