/** The two persisted settings, stored as text under the `XMouse` section of the
    settings file, and the platform's number primitives they go through. */
module Settings {
  import opened Wrappers
  import opened Geometry

  const TotalDistanceKey := "TotalDistance"
  const TrackingEnabledKey := "TrackingEnabled"

  /** Capacity of the buffer the stored values are read into; a value is read back
      truncated to one character less, the last slot holding the terminator. */
  const BufferCapacity := 256

  /** The `XMouse` section of the settings file: key to stored text. */
  type Entries = map<string, string>

  /** How a tracking flag is written: "1" when on, "0" when off. */
  function FlagText(on: bool): (s: string)
    ensures |s| < BufferCapacity
    ensures ReadFlag(s) == on
  {
    if on then "1" else "0"
  }

  /** How a stored tracking flag is read: only the exact text "1" means on. */
  predicate ReadFlag(s: string)
  {
    s == "1"
  }

  /** The text the profile read returns for `key`: the stored value, or `default`
      when the key is absent, cut to fit the read buffer. */
  function ReadValue(entries: Entries, key: string, default: string): (v: string)
    ensures var stored := if key in entries then entries[key] else default;
      && v <= stored
      && |v| == (if |stored| < BufferCapacity then |stored| else BufferCapacity - 1)
    ensures key in entries && |entries[key]| < BufferCapacity ==> v == entries[key]
    ensures key !in entries && |default| < BufferCapacity ==> v == default
  {
    var stored := if key in entries then entries[key] else default;
    if |stored| < BufferCapacity then stored else stored[..BufferCapacity - 1]
  }

  /** Reading a flag back: on exactly when the key is present with the value "1";
      an absent key, any other text, and over-long text all read as off. */
  lemma ReadFlagExact(entries: Entries, key: string)
    ensures ReadFlag(ReadValue(entries, key, FlagText(false))) <==> key in entries && entries[key] == "1"
  {
  }

  /** The floating-point primitives the application context relies on: the segment
      length `Math.Sqrt(dx * dx + dy * dy)`, and `double.ToString` / `double.TryParse`
      in the invariant culture, which turn the total into stored text and back. */
  datatype Numerics = Numerics(
    length: (Point, Point) -> real,
    format: real -> string,
    parse: string -> Option<real>)
  {
    /** The length is Euclidean, and the default text "0" parses as zero. */
    ghost predicate Valid()
    {
      IsLength(length) && parse("0") == Some(0.0)
    }

    /** `x` survives a save and a load: its text parses back to it and fits the read buffer. */
    ghost predicate Persists(x: real)
    {
      parse(format(x)) == Some(x) && |format(x)| < BufferCapacity
    }
  }
}
