/** The tray application's context as an object: its fields are updated in place
    by the hook callback and the menu commands, and each method is specified by
    the corresponding transition of `Tracking`. */
module Context {
  import opened Wrappers
  import opened Geometry
  import opened Settings
  import opened Tracking

  /** The settings file, reduced to the key-to-text entries of its `XMouse` section. */
  class SettingsFile {
    var entries: Entries

    constructor (entries: Entries)
      ensures this.entries == entries
    {
      this.entries := entries;
    }

    /** The profile write: stores `value` under `key`. */
    method Write(key: string, value: string)
      modifies this
      ensures entries == old(entries)[key := value]
    {
      entries := entries[key := value];
    }
  }

  class TrayContext {
    /** The floating-point primitives used for lengths and for the stored total. */
    const num: Numerics
    const file: SettingsFile

    var total: real
    var lastPoint: Point
    var hasLastPoint: bool
    /** The hook handle is not zero. */
    var hooked: bool
    /** Hooks still registered with the system whose handle was overwritten. */
    ghost var leaked: nat
    /** The check of the "Track Mouse Distance" menu item. */
    var trackChecked: bool
    /** Whether the "Reset Distance" menu item is enabled. */
    var resetEnabled: bool
    /** Every event the hook received, in the order it was handed on to the next hook. */
    var forwarded: seq<HookEvent>

    /** The positions observed since the reference point was last set or dropped,
        and the total when that happened. */
    ghost var run: seq<Point>
    ghost var runBase: real

    /** The total is the total at the start of the current run plus the length of
        the path through it, and the run ends at the reference point, if any. */
    ghost predicate Accumulating()
      reads this
    {
      && num.Valid()
      && (hasLastPoint <==> run != [])
      && (hasLastPoint ==> lastPoint == run[|run| - 1])
      && total == runBase + PathLength(num.length, run)
    }

    /** The invariant kept by the menu flow: the run invariant, and no leaked hook. */
    ghost predicate Valid()
      reads this
    {
      Accumulating() && NoLeak(State())
    }

    ghost function State(): State
      reads this
    {
      Tracking.State(total, lastPoint, hasLastPoint, hooked, leaked, trackChecked, resetEnabled)
    }

    /** Builds the menu state and then loads the persisted settings, which may
        start tracking straight away. */
    constructor (num: Numerics, file: SettingsFile, cursor: Option<Point>, installed: bool)
      requires num.Valid()
      ensures Valid() && this.num == num && this.file == file
      ensures State() == Loaded(num, Initial, file.entries, cursor, installed)
      ensures forwarded == []
    {
      this.num := num;
      this.file := file;
      total := 0.0;
      lastPoint := Point(0, 0);
      hasLastPoint := false;
      hooked := false;
      leaked := 0;
      trackChecked := false;
      resetEnabled := false;
      forwarded := [];
      run := [];
      runBase := 0.0;
      new;
      LoadSettings(cursor, installed);
      LoadedStartsClean(num, file.entries, cursor, installed);
    }

    /** The low-level mouse hook. A processed move adds the segment from the
        previous point, or only anchors when there is none; every event is handed
        on to the next hook. */
    method HookCallback(ev: HookEvent)
      requires Accumulating()
      modifies this
      ensures Accumulating()
      ensures State() == Observe(num.length, old(State()), ev)
      ensures total >= old(total)
      ensures runBase == old(runBase)
      ensures run == if IsMove(ev) then old(run) + [ev.pt] else old(run)
      ensures forwarded == old(forwarded) + [ev]
    {
      if ev.nCode >= 0 && ev.wParam == WM_MOUSEMOVE {
        var pt := ev.pt;
        if hasLastPoint {
          var dist := num.length(lastPoint, pt);
          total := total + dist;
          lastPoint := pt;
          PathLengthSnoc(num.length, run, pt);
        } else {
          lastPoint := pt;
          hasLastPoint := true;
        }
        run := run + [pt];
      }
      forwarded := forwarded + [ev];
    }

    /** Anchors at the cursor when it can be read (`cursor`), installs the hook
        (`installed` is whether the system returned a handle) and enables reset. */
    method StartTracking(cursor: Option<Point>, installed: bool)
      requires Accumulating()
      modifies this
      ensures Accumulating()
      ensures State() == Start(old(State()), cursor, installed)
      ensures forwarded == old(forwarded)
    {
      if cursor.Some? {
        lastPoint := cursor.value;
        hasLastPoint := true;
        run, runBase := [cursor.value], total;
      }
      if hooked {
        leaked := leaked + 1;
      }
      hooked := installed;
      resetEnabled := true;
    }

    /** Removes the hook; `released` says whether a handle was held and given back. */
    method Unhook() returns (released: bool)
      requires Accumulating()
      modifies this
      ensures Accumulating()
      ensures released == old(hooked)
      ensures State() == Tracking.Unhook(old(State()))
      ensures forwarded == old(forwarded)
    {
      released := false;
      if hooked {
        released := true;
        hooked := false;
      }
      hasLastPoint := false;
      run, runBase := [], total;
    }

    method StopTracking()
      requires Accumulating()
      modifies this
      ensures Accumulating()
      ensures State() == Tracking.Unhook(old(State()))
      ensures forwarded == old(forwarded)
    {
      var _ := Unhook();
    }

    /** A click on the tracking item: `CheckOnClick` flips the check, then the
        handler starts or stops tracking according to the new check. */
    method ToggleTracking(cursor: Option<Point>, installed: bool)
      requires Valid()
      modifies this
      ensures Valid()
      ensures State() == Toggle(old(State()), cursor, installed)
      ensures forwarded == old(forwarded)
    {
      trackChecked := !trackChecked;
      if trackChecked {
        StartTracking(cursor, installed);
      } else {
        StopTracking();
      }
    }

    /** Zeroes the total, drops the anchor, disables reset and saves. */
    method ResetDistance()
      requires Valid()
      modifies this, file
      ensures Valid()
      ensures State() == Reset(old(State()))
      ensures file.entries == Saved(num, State(), old(file.entries))
      ensures forwarded == old(forwarded)
    {
      total := 0.0;
      hasLastPoint := false;
      resetEnabled := false;
      run, runBase := [], 0.0;
      SaveDistance();
    }

    /** The current total, as read under the distance lock. */
    method GetTotalDistance() returns (t: real)
      ensures t == total
    {
      t := total;
    }

    /** Writes the total as text and the tracking flag as "1" or "0". */
    method SaveDistance()
      modifies file
      ensures file.entries == Saved(num, State(), old(file.entries))
    {
      var t := GetTotalDistance();
      file.Write(TotalDistanceKey, num.format(t));
      file.Write(TrackingEnabledKey, FlagText(trackChecked));
    }

    /** Reads the total (default "0") and the flag (default "0"); a total that does
        not parse leaves the current one; a set flag starts tracking and ends the
        load there, leaving reset enabled; otherwise reset is enabled exactly when
        the total is positive. */
    method LoadSettings(cursor: Option<Point>, installed: bool)
      requires Accumulating()
      modifies this
      ensures Accumulating()
      ensures State() == Loaded(num, old(State()), file.entries, cursor, installed)
      ensures forwarded == old(forwarded)
    {
      var text := ReadValue(file.entries, TotalDistanceKey, "0");
      var parsed := num.parse(text);
      if parsed.Some? {
        total := parsed.value;
        run, runBase := if hasLastPoint then [lastPoint] else [], total;
      }
      var enabled := ReadFlag(ReadValue(file.entries, TrackingEnabledKey, "0"));
      trackChecked := enabled;
      if enabled {
        // The load runs before the tray icon exists: the start's balloon tip
        // throws, and the handler that swallows it skips the rest of the load.
        StartTracking(cursor, installed);
        return;
      }
      resetEnabled := total > 0.0;
    }
  }
}
