/**
 * The Strict Mode timer store (frontend/src/store/strictStore.js): whether a
 * session runs, whether it is a focus or a break session, when it ends, and the
 * two preferred durations. `Date.now()` is the parameter `now` (milliseconds);
 * what `Number.parseInt(value, 10)` yields is given as an `Option<int>`
 * (`None` for NaN).
 */
module StrictStore {
  import opened Wrappers

  const DefaultFocus: int := 45
  const DefaultBreak: int := 10
  const MinMinutes: int := 5
  const MaxMinutes: int := 240
  const MinuteMs: int := 60 * 1000

  /**
   * `clampMinutes`: the fallback when the value does not parse as an integer,
   * otherwise the value brought into [MinMinutes, MaxMinutes].
   */
  function ClampMinutes(parsed: Option<int>, fallback: int): (r: int)
    ensures parsed.None? ==> r == fallback
    ensures parsed.Some? ==> MinMinutes <= r <= MaxMinutes
    ensures parsed.Some? && MinMinutes <= parsed.value <= MaxMinutes ==> r == parsed.value
    ensures parsed.Some? && parsed.value < MinMinutes ==> r == MinMinutes
    ensures parsed.Some? && parsed.value > MaxMinutes ==> r == MaxMinutes
  {
    match parsed
    case None => fallback
    case Some(v) => if v < MinMinutes then MinMinutes else if v > MaxMinutes then MaxMinutes else v
  }

  /** Clamping is monotone in the parsed value. */
  lemma ClampMonotone(v: int, w: int, fallback: int)
    requires v <= w
    ensures ClampMinutes(Some(v), fallback) <= ClampMinutes(Some(w), fallback)
  {
  }

  /** What the settings key of local storage holds. */
  datatype StoredSettings =
    | Missing                                       // no window, or an empty or absent entry
    | Unreadable                                    // `JSON.parse` or the storage access threw
    | Stored(focus: Option<int>, breakValue: Option<int>)  // the two fields after `parseInt`

  datatype Settings = Settings(focusMinutes: int, breakMinutes: int)

  /** `getInitialSettings`. */
  function InitialSettings(stored: StoredSettings): (r: Settings)
    ensures MinMinutes <= r.focusMinutes <= MaxMinutes && MinMinutes <= r.breakMinutes <= MaxMinutes
    ensures !stored.Stored? ==> r == Settings(DefaultFocus, DefaultBreak)
    ensures stored.Stored? ==> r.focusMinutes == ClampMinutes(stored.focus, DefaultFocus)
                               && r.breakMinutes == ClampMinutes(stored.breakValue, DefaultBreak)
  {
    match stored
    case Stored(focus, breakValue) =>
      Settings(ClampMinutes(focus, DefaultFocus), ClampMinutes(breakValue, DefaultBreak))
    case _ => Settings(DefaultFocus, DefaultBreak)
  }

  datatype Mode = Focus | Break

  /** The store: its fields are replaced by the actions below. */
  class Store {
    var active: bool
    var mode: Mode
    var endsAt: Option<int>
    var focusMinutes: int
    var breakMinutes: int

    /** Both durations are within the clamp range. */
    predicate Valid()
      reads this
    {
      MinMinutes <= focusMinutes <= MaxMinutes && MinMinutes <= breakMinutes <= MaxMinutes
    }

    /** The store as created: idle, in focus mode, durations from storage. */
    constructor(stored: StoredSettings)
      ensures Valid()
      ensures !active && mode == Focus && endsAt == None
      ensures Settings(focusMinutes, breakMinutes) == InitialSettings(stored)
    {
      var initial := InitialSettings(stored);
      active := false;
      mode := Focus;
      endsAt := None;
      focusMinutes := initial.focusMinutes;
      breakMinutes := initial.breakMinutes;
    }

    /** `setFocusMinutes`: clamp the new value, keep the old one when it does not parse. */
    method SetFocusMinutes(value: Option<int>)
      modifies this
      ensures focusMinutes == ClampMinutes(value, old(focusMinutes))
      ensures old(Valid()) ==> Valid()
      ensures value.None? ==> focusMinutes == old(focusMinutes)
      ensures breakMinutes == old(breakMinutes)
      ensures active == old(active) && mode == old(mode) && endsAt == old(endsAt)
    {
      focusMinutes := ClampMinutes(value, focusMinutes);
    }

    /** `setBreakMinutes`: the same for the break duration. */
    method SetBreakMinutes(value: Option<int>)
      modifies this
      ensures breakMinutes == ClampMinutes(value, old(breakMinutes))
      ensures old(Valid()) ==> Valid()
      ensures value.None? ==> breakMinutes == old(breakMinutes)
      ensures focusMinutes == old(focusMinutes)
      ensures active == old(active) && mode == old(mode) && endsAt == old(endsAt)
    {
      breakMinutes := ClampMinutes(value, breakMinutes);
    }

    /** `start`: a focus session of `durationMinutes` from `now`. */
    method Start(durationMinutes: int, now: int)
      modifies this
      ensures active && mode == Focus && endsAt == Some(now + durationMinutes * MinuteMs)
      ensures focusMinutes == old(focusMinutes) && breakMinutes == old(breakMinutes)
    {
      active := true;
      mode := Focus;
      endsAt := Some(now + durationMinutes * MinuteMs);
    }

    /** `beginBreak`: a break session of `durationMinutes` from `now`. */
    method BeginBreak(durationMinutes: int, now: int)
      modifies this
      ensures active && mode == Break && endsAt == Some(now + durationMinutes * MinuteMs)
      ensures focusMinutes == old(focusMinutes) && breakMinutes == old(breakMinutes)
    {
      active := true;
      mode := Break;
      endsAt := Some(now + durationMinutes * MinuteMs);
    }

    /** `exit`: stop the session; the mode and the durations stay. */
    method Exit()
      modifies this
      ensures !active && endsAt == None
      ensures mode == old(mode) && focusMinutes == old(focusMinutes) && breakMinutes == old(breakMinutes)
    {
      active := false;
      endsAt := None;
    }
  }

  /**
   * A session started for the stored focus duration ends that many minutes
   * after `now`, always between 5 and 240 minutes away.
   */
  method StartFocusSession(store: Store, now: int)
    requires store.Valid()
    modifies store
    ensures store.Valid() && store.active && store.mode == Focus
    ensures store.endsAt.Some?
    ensures now + MinMinutes * MinuteMs <= store.endsAt.value <= now + MaxMinutes * MinuteMs
  {
    store.Start(store.focusMinutes, now);
  }
}
