/** The tracking state machine of the tray application as values: the state the
    application context keeps, and what each hook event, menu command and
    settings access does to it. The class in `Context` is specified by these. */
module Tracking {
  import opened Wrappers
  import opened Geometry
  import opened Settings

  /** The fields of the application context that the core reads and writes.
      `hooked` stands for "the hook handle is not zero"; `leaked` counts hooks
      registered with the system whose handle was overwritten while still held,
      so that nothing can release them any more. */
  datatype State = State(
    total: real,
    lastPoint: Point,
    hasLastPoint: bool,
    hooked: bool,
    leaked: nat,
    trackChecked: bool,
    resetEnabled: bool)

  /** The state before any settings are loaded: no distance, no anchor, no hook,
      the tracking item unchecked and the reset item disabled. */
  const Initial := State(0.0, Point(0, 0), false, false, 0, false, false)

  /** The window message code of a mouse move. */
  const WM_MOUSEMOVE := 0x0200

  /** One call of the low-level mouse hook: the hook code, the message code and
      the cursor position carried in the event's record. */
  datatype HookEvent = HookEvent(nCode: int, wParam: int, pt: Point)

  /** Only a move message with a non-negative hook code is processed. */
  predicate IsMove(ev: HookEvent)
  {
    ev.nCode >= 0 && ev.wParam == WM_MOUSEMOVE
  }

  /** One hook event: a move either re-anchors (no previous point) or adds the
      segment from the previous point. */
  function Observe(len: (Point, Point) -> real, s: State, ev: HookEvent): State
  {
    if !IsMove(ev) then s
    else if s.hasLastPoint then s.(total := s.total + len(s.lastPoint, ev.pt), lastPoint := ev.pt)
    else s.(lastPoint := ev.pt, hasLastPoint := true)
  }

  /** Starting to track: anchor at the cursor when it can be read, install the
      hook (`installed` is whether the system returned a handle) and enable reset. */
  function Start(s: State, cursor: Option<Point>, installed: bool): State
  {
    var anchored := if cursor.Some? then s.(lastPoint := cursor.value, hasLastPoint := true) else s;
    anchored.(hooked := installed,
              leaked := if s.hooked then s.leaked + 1 else s.leaked,
              resetEnabled := true)
  }

  /** Removing the hook (a no-op on the handle when none is held) and dropping the anchor. */
  function Unhook(s: State): State
  {
    s.(hooked := false, hasLastPoint := false)
  }

  /** A click on the check-on-click tracking item: the check flips, then tracking
      starts or stops according to the new check. */
  function Toggle(s: State, cursor: Option<Point>, installed: bool): State
  {
    var clicked := s.(trackChecked := !s.trackChecked);
    if clicked.trackChecked then Start(clicked, cursor, installed) else Unhook(clicked)
  }

  /** The reset command's effect on the state (it is followed by a save). */
  function Reset(s: State): State
  {
    s.(total := 0.0, hasLastPoint := false, resetEnabled := false)
  }

  /** The settings section after a save: the total as text and the tracking flag. */
  function Saved(num: Numerics, s: State, entries: Entries): Entries
  {
    entries[TotalDistanceKey := num.format(s.total)][TrackingEnabledKey := FlagText(s.trackChecked)]
  }

  /** Loading the settings: a total that parses replaces the current one and the
      flag sets the tracking item. A missing key reads as "0". With the flag off,
      reset is enabled exactly when the total is positive. With the flag on,
      tracking starts, which installs the hook and enables reset; the load runs
      while the context is being built, before its tray icon exists, so the start's
      balloon tip throws and the load's handler skips the rest: reset stays enabled. */
  function Loaded(num: Numerics, s: State, entries: Entries, cursor: Option<Point>, installed: bool): State
  {
    var total := match num.parse(ReadValue(entries, TotalDistanceKey, "0"))
                 case Some(v) => v
                 case None => s.total;
    var enabled := ReadFlag(ReadValue(entries, TrackingEnabledKey, "0"));
    var applied := s.(total := total, trackChecked := enabled);
    if enabled then Start(applied, cursor, installed)
    else applied.(resetEnabled := applied.total > 0.0)
  }

  /** A sequence of hook events delivered one after another. */
  function Run(len: (Point, Point) -> real, s: State, evs: seq<HookEvent>): State
    decreases |evs|
  {
    if evs == [] then s else Run(len, Observe(len, s, evs[0]), evs[1..])
  }

  /** The positions of the events that are processed as moves, in order. */
  function MovePoints(evs: seq<HookEvent>): seq<Point>
    decreases |evs|
  {
    if evs == [] then []
    else (if IsMove(evs[0]) then [evs[0].pt] else []) + MovePoints(evs[1..])
  }

  /** The reference point the next move is measured from, if any. */
  function Anchor(s: State): seq<Point>
  {
    if s.hasLastPoint then [s.lastPoint] else []
  }

  function Last(pts: seq<Point>): Point
    requires pts != []
  {
    pts[|pts| - 1]
  }

  /** One hook event: a move measured from an anchor adds the segment length, the
      first move after the anchor was dropped adds nothing and becomes the anchor,
      and any other event changes nothing. The menu and hook state never change. */
  lemma ObserveEffect(len: (Point, Point) -> real, s: State, ev: HookEvent)
    requires IsLength(len)
    ensures var t := Observe(len, s, ev);
      && t.total >= s.total
      && (IsMove(ev) ==> t.lastPoint == ev.pt && t.hasLastPoint)
      && (IsMove(ev) && s.hasLastPoint ==> t.total == s.total + len(s.lastPoint, ev.pt))
      && (IsMove(ev) && !s.hasLastPoint ==> t.total == s.total)
      && (!IsMove(ev) ==> t == s)
      && t.hooked == s.hooked && t.leaked == s.leaked
      && t.trackChecked == s.trackChecked && t.resetEnabled == s.resetEnabled
  {
  }

  /** Over any run of hook events the total grows by exactly the length of the path
      from the current anchor through every processed move position; the run ends
      anchored at the last move, and the hook and menu state are untouched. */
  lemma {:induction false} RunTotal(len: (Point, Point) -> real, s: State, evs: seq<HookEvent>)
    requires IsLength(len)
    ensures Run(len, s, evs).total == s.total + PathLength(len, Anchor(s) + MovePoints(evs))
    ensures Run(len, s, evs).hasLastPoint == (s.hasLastPoint || MovePoints(evs) != [])
    ensures MovePoints(evs) != [] ==> Run(len, s, evs).lastPoint == Last(MovePoints(evs))
    ensures MovePoints(evs) == [] ==> Run(len, s, evs) == s
    ensures var t := Run(len, s, evs);
      t.hooked == s.hooked && t.leaked == s.leaked &&
      t.trackChecked == s.trackChecked && t.resetEnabled == s.resetEnabled
    decreases |evs|
  {
    if evs != [] {
      var ev, rest := evs[0], evs[1..];
      var s' := Observe(len, s, ev);
      RunTotal(len, s', rest);
      assert MovePoints(evs) == (if IsMove(ev) then [ev.pt] else []) + MovePoints(rest);
      if IsMove(ev) {
        assert Anchor(s') == [ev.pt];
        if MovePoints(rest) == [] {
          assert MovePoints(evs) == [ev.pt];
        } else {
          assert Last(MovePoints(evs)) == Last(MovePoints(rest));
        }
        if s.hasLastPoint {
          var path := Anchor(s) + MovePoints(evs);
          assert path == [s.lastPoint] + ([ev.pt] + MovePoints(rest));
          assert path[1..] == Anchor(s') + MovePoints(rest);
        } else {
          assert Anchor(s) + MovePoints(evs) == Anchor(s') + MovePoints(rest);
        }
      } else {
        assert s' == s;
        assert MovePoints(evs) == MovePoints(rest);
      }
    }
  }

  /** The total never decreases while hook events are delivered. */
  lemma RunMonotone(len: (Point, Point) -> real, s: State, evs: seq<HookEvent>)
    requires IsLength(len)
    ensures Run(len, s, evs).total >= s.total
  {
    RunTotal(len, s, evs);
  }

  /** After a reset the total is exactly the length of the path through the moves
      that follow, the first of which contributes nothing, while the tracking item
      and the hook stay as they were. */
  lemma ResetThenRun(len: (Point, Point) -> real, s: State, evs: seq<HookEvent>)
    requires IsLength(len)
    ensures Run(len, Reset(s), evs).total == PathLength(len, MovePoints(evs))
    ensures Reset(s).trackChecked == s.trackChecked && Reset(s).hooked == s.hooked
    ensures !Reset(s).resetEnabled
  {
    RunTotal(len, Reset(s), evs);
    assert Anchor(Reset(s)) + MovePoints(evs) == MovePoints(evs);
  }

  /** Moving to `a`, switching tracking off and on again, then moving to `b`: the
      jump from `a` to `b` is never counted. What is added is the segment from the
      cursor position read at the restart, or nothing when it could not be read. */
  lemma RestartSkipsJump(len: (Point, Point) -> real, s: State, a: Point, b: Point,
                         cursor: Option<Point>, installed: bool)
    requires IsLength(len)
    requires s.trackChecked
    ensures var before := Observe(len, s, HookEvent(0, WM_MOUSEMOVE, a));
      var stopped := Toggle(before, None, false);
      var restarted := Toggle(stopped, cursor, installed);
      var after := Observe(len, restarted, HookEvent(0, WM_MOUSEMOVE, b));
      && !stopped.hooked && stopped.total == before.total
      && restarted.trackChecked && restarted.hooked == installed
      && after.total == before.total + (if cursor.Some? then len(cursor.value, b) else 0.0)
  {
  }

  /** The concrete case: from a fresh anchor, moves to (0,0), (3,4) and (3,4) again
      add exactly 5 pixels; the repeated position adds nothing. */
  lemma ThreeFourFiveRun(len: (Point, Point) -> real, s: State)
    requires IsLength(len)
    requires !s.hasLastPoint
    ensures Run(len, s, [HookEvent(0, WM_MOUSEMOVE, Point(0, 0)),
                         HookEvent(0, WM_MOUSEMOVE, Point(3, 4)),
                         HookEvent(0, WM_MOUSEMOVE, Point(3, 4))]).total == s.total + 5.0
  {
    var evs := [HookEvent(0, WM_MOUSEMOVE, Point(0, 0)),
                HookEvent(0, WM_MOUSEMOVE, Point(3, 4)),
                HookEvent(0, WM_MOUSEMOVE, Point(3, 4))];
    RunTotal(len, s, evs);
    assert MovePoints(evs[2..]) == [Point(3, 4)] by {
      assert evs[2..][1..] == [];
    }
    assert MovePoints(evs[1..]) == [Point(3, 4), Point(3, 4)] by {
      assert evs[1..][1..] == evs[2..];
    }
    assert MovePoints(evs) == [Point(0, 0), Point(3, 4), Point(3, 4)];
    assert Anchor(s) == [];
    ThreeFourFive(len);
    LengthZeroIff(len, Point(3, 4), Point(3, 4));
    var path := [Point(0, 0), Point(3, 4), Point(3, 4)];
    assert PathLength(len, path[1..][1..]) == 0.0;
    assert PathLength(len, path[1..]) == 0.0;
    assert PathLength(len, path) == 5.0;
    assert Anchor(s) + MovePoints(evs) == path;
  }

  /** Unhooking twice is unhooking once; afterwards no handle is held, the anchor is
      dropped, and the total and the menu are as they were. */
  lemma UnhookIdempotent(s: State)
    ensures Unhook(Unhook(s)) == Unhook(s)
    ensures !Unhook(s).hooked && !Unhook(s).hasLastPoint
    ensures Unhook(s).total == s.total && Unhook(s).leaked == s.leaked
    ensures Unhook(s).trackChecked == s.trackChecked && Unhook(s).resetEnabled == s.resetEnabled
  {
  }

  /** Starting keeps the total, anchors at a readable cursor and otherwise keeps the
      old anchor, records the hook handle whether or not the system returned one,
      enables reset either way, and leaks the previous hook when one was held. */
  lemma StartEffect(s: State, cursor: Option<Point>, installed: bool)
    ensures var t := Start(s, cursor, installed);
      && t.total == s.total && t.trackChecked == s.trackChecked
      && t.hooked == installed && t.resetEnabled
      && (cursor.Some? ==> t.hasLastPoint && t.lastPoint == cursor.value)
      && (cursor.None? ==> t.hasLastPoint == s.hasLastPoint && t.lastPoint == s.lastPoint)
      && t.leaked == s.leaked + (if s.hooked then 1 else 0)
  {
  }

  /** A reset stores the text of a zero total and the current check of the tracking
      item as the flag, whatever the tracking state. */
  lemma ResetSaves(num: Numerics, s: State, entries: Entries)
    ensures var stored := Saved(num, Reset(s), entries);
      && stored[TotalDistanceKey] == num.format(0.0)
      && stored[TrackingEnabledKey] == FlagText(s.trackChecked)
      && Reset(s).total == 0.0 && !Reset(s).hasLastPoint
      && Reset(s).trackChecked == s.trackChecked && Reset(s).hooked == s.hooked
  {
  }

  /** Saving and loading into a fresh context restores the total (when its text
      parses back) and the tracking flag exactly; tracking is restarted exactly when
      it was on; reset is enabled when tracking was restarted or the total is positive. */
  lemma SaveLoadRoundTrip(num: Numerics, s: State, entries: Entries, cursor: Option<Point>, installed: bool)
    requires num.Persists(s.total)
    ensures var t := Loaded(num, Initial, Saved(num, s, entries), cursor, installed);
      && t.total == s.total
      && t.trackChecked == s.trackChecked
      && t.hooked == (s.trackChecked && installed)
      && t.resetEnabled == (s.trackChecked || s.total > 0.0)
  {
  }

  /** Loading: the total is the stored one when it parses and stays as it was when
      it does not; the flag is on exactly when the stored text is "1"; tracking starts
      exactly when the flag is on; reset is enabled when it does, and otherwise
      exactly when the resulting total is positive. */
  lemma LoadEffect(num: Numerics, s: State, entries: Entries, cursor: Option<Point>, installed: bool)
    ensures var t := Loaded(num, s, entries, cursor, installed);
      var text := ReadValue(entries, TotalDistanceKey, "0");
      && (num.parse(text).Some? ==> t.total == num.parse(text).value)
      && (num.parse(text).None? ==> t.total == s.total)
      && (t.trackChecked <==> TrackingEnabledKey in entries && entries[TrackingEnabledKey] == "1")
      && t.resetEnabled == (t.trackChecked || t.total > 0.0)
      && (t.trackChecked ==> t.hooked == installed)
      && (!t.trackChecked ==> t.hooked == s.hooked && t.hasLastPoint == s.hasLastPoint)
  {
  }

  /** Loading from an empty settings file gives the defaults: no distance, tracking
      off, reset disabled. */
  lemma LoadDefaults(num: Numerics, cursor: Option<Point>, installed: bool)
    requires num.Valid()
    ensures var t := Loaded(num, Initial, map[], cursor, installed);
      t.total == 0.0 && !t.trackChecked && !t.resetEnabled && !t.hooked
  {
  }

  /** What can happen to a built context: a hook event, a click on the tracking item
      (with what the platform reports for the cursor and the hook installation), or
      a click on reset. */
  datatype Command = Event(ev: HookEvent) | TrackClick(cursor: Option<Point>, installed: bool) | ResetClick

  function Apply(len: (Point, Point) -> real, s: State, c: Command): State
  {
    match c
    case Event(ev) => Observe(len, s, ev)
    case TrackClick(cursor, installed) => Toggle(s, cursor, installed)
    case ResetClick => Reset(s)
  }

  /** The commands applied one after another. */
  function Session(len: (Point, Point) -> real, s: State, cs: seq<Command>): State
    decreases |cs|
  {
    if cs == [] then s else Session(len, Apply(len, s, cs[0]), cs[1..])
  }

  /** No hook has been leaked, and a hook is held only while the tracking item is checked. */
  predicate NoLeak(s: State)
  {
    s.leaked == 0 && (s.hooked ==> s.trackChecked)
  }

  /** A freshly built context has leaked no hook, whatever the settings file holds. */
  lemma LoadedStartsClean(num: Numerics, entries: Entries, cursor: Option<Point>, installed: bool)
    ensures NoLeak(Loaded(num, Initial, entries, cursor, installed))
  {
  }

  /** Through the menu no hook is ever leaked: the tracking item's check alternates
      between starting and stopping, so a start never finds a hook still held. */
  lemma {:induction false} SessionNeverLeaks(len: (Point, Point) -> real, s: State, cs: seq<Command>)
    requires NoLeak(s)
    ensures NoLeak(Session(len, s, cs))
    decreases |cs|
  {
    if cs != [] {
      SessionNeverLeaks(len, Apply(len, s, cs[0]), cs[1..]);
    }
  }
}
