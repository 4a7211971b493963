# XMouse distance tracking, modelled in Dafny

XMouse is a Windows tray application. It installs a low-level mouse hook and adds
up how far the cursor travels on screen. The tray menu switches tracking on and
off and resets the total. The total and the on/off flag are kept in an INI
settings file between runs.

This project models the core of `MyApplicationContext.cs`:

- the hook callback that turns consecutive cursor positions into segment lengths;
- the start/stop/unhook/reset state machine behind the menu;
- the save and load of the two settings `TotalDistance` and `TrackingEnabled`.

Files:

- `wrappers.dfy`: `Option`.
- `geometry.dfy`: screen points and the squared distance. `IsLength` characterises the
  Euclidean segment length: a non-negative square root of `dx*dx + dy*dy`.
  `PathLength` is the length of a polyline.
- `settings.dfy`: the two keys, the `"1"`/`"0"` flag encoding, and the profile read
  with its 256-character buffer. `Numerics` holds the floating-point primitives
  (segment length, number to text, text to number).
- `tracking.dfy`: the context's state as a value, one function per operation,
  and the lemmas about them.
- `context.dfy`: the class `TrayContext`, whose fields are updated in place by
  methods that mirror the source. Each method's `ensures` ties the new state to
  the matching function of `tracking.dfy`. The class `SettingsFile` stands for
  the INI file.

The platform calls become parameters:

- the cursor read at start is `cursor: Option<Point>`;
- whether the hook was installed is `installed: bool`;
- the events handed to the next hook are logged in `forwarded`;
- the settings file is a map from key to text.

The model follows the code in these places:

- Starting does not clear the reference point. When the cursor can be read it
  becomes the anchor; otherwise the old anchor is kept.
- Starting has no "already tracking" guard. A second start would overwrite the
  held handle, and that hook would stay registered with nothing able to release
  it; the ghost counter `leaked` records this. The menu flow never makes such a
  call: the tracking item's check alternates between start and stop.
  `SessionNeverLeaks` proves this, and `TrayContext.Valid()` carries it.
- A failed hook installation is ignored. The menu item stays checked, reset is
  enabled, and no hook is held.
- Toggling does not save the settings. Only a reset saves here; exit and
  disposal also save, but they are not modelled.
- The settings are loaded while the context is being built, before its tray
  icon exists. When the stored flag is on, starting tracking installs the hook
  and enables reset, and then its balloon tip throws on the missing tray icon.
  The load's exception handler swallows this and skips the rest of the load.
  So reset stays enabled whatever the total; it is set to "total is positive"
  only when the flag is off.
- A total that does not parse leaves the current value (0 at startup).

## Model

| member | source | states |
|---|---|---|
| `Geometry.SquaredDistance` | MyApplicationContext.cs:252-254 | the squared offset is non-negative and zero exactly when the two points coincide |
| `Geometry.LengthZeroIff` | MyApplicationContext.cs:252-254 | a segment's length is zero exactly when it starts where it ends, so a repeated position adds nothing |
| `Geometry.ThreeFourFive` | MyApplicationContext.cs:252-254 | the move from (0,0) to (3,4) measures exactly 5 |
| `Geometry.PathLength` | MyApplicationContext.cs:250-263 | the summed length of consecutive segments is never negative |
| `Geometry.PathLengthSnoc` | MyApplicationContext.cs:250-263 | extending the path by one position adds exactly the new segment's length |
| `Settings.FlagText` | MyApplicationContext.cs:322 | the written flag is read back as the same boolean, and fits the read buffer |
| `Settings.ReadValue` | MyApplicationContext.cs:334-347 | a read returns the stored text (or the default "0" when the key is missing) cut to its first 255 characters: a prefix of it, of exactly its length when under 256 characters and of 255 characters otherwise |
| `Settings.ReadFlagExact` | MyApplicationContext.cs:346-348 | the flag reads as on exactly when the key is stored with text "1"; anything else, including a missing key, reads as off |
| `Tracking.ObserveEffect` | MyApplicationContext.cs:241-268 | a move from an anchor adds that segment's length and moves the anchor; the first move without an anchor adds nothing and becomes the anchor; other events change nothing; hook and menu state are untouched |
| `Tracking.RunTotal` | MyApplicationContext.cs:241-268 | over any run of events the total grows by exactly the path length from the anchor through every processed move; the run ends anchored at the last move; a run with no moves changes nothing |
| `Tracking.RunMonotone` | MyApplicationContext.cs:250-259 | the total never decreases while events are delivered |
| `Tracking.ResetThenRun` | MyApplicationContext.cs:132-141 | after a reset the total is the path length of the later moves alone, the first of which adds nothing; the tracking item and the hook are kept; reset is disabled |
| `Tracking.RestartSkipsJump` | MyApplicationContext.cs:120-171 | move to A, switch off, switch on, move to B: the A-to-B jump is never counted, only the segment from the cursor read at restart (or nothing when it was unreadable) |
| `Tracking.ThreeFourFiveRun` | MyApplicationContext.cs:241-268 | moves to (0,0), (3,4), (3,4) from no anchor add exactly 5 |
| `Tracking.UnhookIdempotent` | MyApplicationContext.cs:229-239 | unhooking twice equals unhooking once; afterwards no handle is held and there is no anchor; the total and the menu are unchanged |
| `Tracking.StartEffect` | MyApplicationContext.cs:149-164 | starting keeps the total; it anchors at a readable cursor and otherwise keeps the old anchor; the handle is held only if installation succeeded; reset is enabled either way; a still-held previous hook is leaked |
| `Tracking.ResetSaves` | MyApplicationContext.cs:132-141 | a reset zeroes the total and drops the anchor; it stores the text of 0 and the tracking item's current check as the flag; the check and the hook are kept |
| `Tracking.SaveLoadRoundTrip` | MyApplicationContext.cs:315-370 | loading what was saved into a fresh context restores the total (when its text parses back) and the flag exactly; tracking restarts exactly when it was on; reset is enabled when tracking restarted or the total is positive |
| `Tracking.LoadEffect` | MyApplicationContext.cs:330-370 | a parsing total replaces the current one and a non-parsing one leaves it; the flag is on exactly for stored "1"; tracking starts exactly when it is on; reset is then enabled, and otherwise enabled exactly when the total is positive |
| `Tracking.LoadDefaults` | MyApplicationContext.cs:336-348 | an empty settings file loads as total 0, tracking off, reset disabled, no hook |
| `Tracking.LoadedStartsClean` | MyApplicationContext.cs:29-51 | a freshly built context has leaked no hook and holds one only while the tracking item is checked, whatever the settings file holds |
| `Tracking.SessionNeverLeaks` | MyApplicationContext.cs:120-171 | over any sequence of hook events, tracking-item clicks and resets, no hook is leaked and a hook is held only while the item is checked |
| `Context.SettingsFile.Write` | MyApplicationContext.cs:321-322 | a profile write stores the text under the key and changes nothing else |
| `Context.TrayContext.constructor` | MyApplicationContext.cs:29-51 | a new context is the initial state (zero total, no anchor, no hook, item unchecked, reset disabled) with the settings loaded into it; it satisfies the run invariant and has leaked no hook |
| `Context.TrayContext.HookCallback` | MyApplicationContext.cs:241-283 | the new state is `Observe` of the old one; a processed move extends the ghost run by its position while the total stays the run's base plus the run's path length; the total does not decrease; every event is handed on to the next hook in order |
| `Context.TrayContext.StartTracking` | MyApplicationContext.cs:149-164 | the new state is `Start` of the old one (see `StartEffect`) |
| `Context.TrayContext.Unhook` | MyApplicationContext.cs:229-239 | a handle is released exactly when one was held; the new state is `Unhook` of the old one |
| `Context.TrayContext.StopTracking` | MyApplicationContext.cs:166-171 | stopping is unhooking: no handle, no anchor, the total is kept |
| `Context.TrayContext.ToggleTracking` | MyApplicationContext.cs:120-130 | the click flips the check, then starts tracking when it is now checked and stops it otherwise; no hook is leaked |
| `Context.TrayContext.ResetDistance` | MyApplicationContext.cs:132-147 | the new state is `Reset` of the old one, the file then holds the saved settings of that state, and the run restarts from zero |
| `Context.TrayContext.GetTotalDistance` | MyApplicationContext.cs:188-194 | returns the current total without changing anything |
| `Context.TrayContext.SaveDistance` | MyApplicationContext.cs:315-328 | the file holds the total's text under `TotalDistance` and "1"/"0" under `TrackingEnabled`; other keys are kept |
| `Context.TrayContext.LoadSettings` | MyApplicationContext.cs:330-370 | the new state is `Loaded` of the old state and the file's entries, including the early end of the load after a start (see `LoadEffect`) |

## Left out

- Concurrency: the `distanceLock` and the UI thread's reads are not modelled. Nor is the fact that `lastPoint` and `hasLastPoint` are written outside the lock. Events and commands are taken as serialised.
- Floating point: `Math.Sqrt` is characterised only by `IsLength`, a non-negative root of the squared offset. The total is an exact `real`, with no rounding, NaN or infinity.
- Number text: `double.ToString` and `double.TryParse` in the invariant culture are the abstract `format` and `parse` of `Numerics`. The total's round trip is assumed for each value (`Persists`); the model does not derive it.
- Coordinates are unbounded integers. The 32-bit subtraction `pt.x - lastPoint.x` is not wrapped, because screen coordinates are nowhere near that range.
- INI file: the profile primitives are an exact key-to-text map for the `XMouse` section. The file path and directory creation, whitespace and quote handling, and other sections are not modelled.
- Write failures are not modelled. The source ignores the result of each write, so in-memory state is unaffected either way. Other exceptions in the save and the load are not modelled. The one the load swallows after starting tracking is modelled (see above).
- Context.TrayContext.HookCallback: records the event it hands on in `forwarded` instead of returning the next hook's result. That result is a foreign call whose value the model does not know.
- Platform calls: `SetWindowsHookEx`, `UnhookWindowsHookEx`, `GetCursorPos` and `GetModuleHandle` become parameters or outcomes. The kept `hookCallback` delegate, a garbage-collection concern, is not modelled.
- UI: the balloon tips, the tooltip text and its `FormatDistance`, `NotifyDistanceForm`, `Open`, `Exit` and `Dispose`. `Exit` and `Dispose` only combine the modelled `Unhook` and `SaveDistance` with UI teardown.
- DistanceForm.cs (a label refreshed by a timer, same rounding format) and Program.cs (event-log writes and bootstrap) are UI and I/O and are not part of this model.
