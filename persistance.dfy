/**
 * The save file that lets a restarted control panel resume a running exam.
 * The file holds a start instant and the duration in whole minutes as an
 * unsigned 32-bit number. The file itself is modelled as an optional slot,
 * and its JSON text as either a readable save state or unreadable content.
 */
module Persistence {
  import opened Common
  import opened SharedState

  type u32 = x: int | 0 <= x < TwoTo32

  /** `SaveState`: what the save file records. */
  datatype SaveState = SaveState(startTime: int, durationMin: u32)

  /** What the save file holds, when it exists: content that reads and parses
      as a `SaveState`, or content that does not. */
  datatype Stored = Saved(state: SaveState) | Unreadable

  /** `Duration::num_minutes`: whole seconds truncated toward zero, then whole
      minutes truncated toward zero. */
  function NumMinutes(d: int): (m: int)
    ensures d >= 0 ==> 0 <= m * NanosPerMinute <= d < m * NanosPerMinute + NanosPerMinute
    ensures d < 0 ==> m * NanosPerMinute - NanosPerMinute < d <= m * NanosPerMinute <= 0
  {
    TruncDiv(TruncDiv(d, NanosPerSecond), 60)
  }

  /** The save state written for a timer: the start as it is, the duration as
      its whole minutes cast to `u32`. */
  function ToSaveState(t: Timer): (s: SaveState)
    ensures s.startTime == t.start
    ensures 0 <= t.duration < TwoTo32 * NanosPerMinute ==>
      s.durationMin * NanosPerMinute <= t.duration < s.durationMin * NanosPerMinute + NanosPerMinute
  {
    SaveState(t.start, AsU32(NumMinutes(t.duration)))
  }

  /** The timer read back from a save state: the start as it is and a duration
      of 60 seconds per saved minute. */
  function FromSaveState(s: SaveState): (t: Timer)
    ensures t.start == s.startTime
    ensures t.duration == s.durationMin * NanosPerMinute
    ensures t.duration >= 0 && t.duration % NanosPerMinute == 0
  {
    Timer(s.startTime, 60 * s.durationMin * NanosPerSecond)
  }

  /** `get_persisted_time` on a given slot: nothing when there is no file or its
      content does not parse, otherwise the timer it records. */
  function LoadFrom(slot: Option<Stored>): (r: Option<Timer>)
    ensures r.None? <==> (slot.None? || slot.value.Unreadable?)
    ensures r.Some? ==> r.value.start == slot.value.state.startTime
    ensures r.Some? ==> r.value.duration == slot.value.state.durationMin * NanosPerMinute
  {
    match slot
    case Some(Saved(s)) => Some(FromSaveState(s))
    case _ => None
  }

  /** A whole-minute duration of 0 to 2^32 - 1 minutes survives a save and a
      load unchanged, and so does the finish instant. */
  lemma RoundTrip(t: Timer)
    requires t.duration % NanosPerMinute == 0
    requires 0 <= t.duration < TwoTo32 * NanosPerMinute
    ensures LoadFrom(Some(Saved(ToSaveState(t)))) == Some(t)
    ensures FinishOf(LoadFrom(Some(Saved(ToSaveState(t))))) == FinishOf(Some(t))
  {
    var s := ToSaveState(t);
    var k := t.duration / NanosPerMinute;
    assert t.duration == k * NanosPerMinute;
    MinuteCountUnique(t.duration, s.durationMin, k);
  }

  /** A save and a load round the duration down to its whole minutes. */
  lemma SubMinuteRemainderLost(t: Timer)
    requires 0 <= t.duration < TwoTo32 * NanosPerMinute
    ensures LoadFrom(Some(Saved(ToSaveState(t)))).value.duration == t.duration - t.duration % NanosPerMinute
  {
    var s := ToSaveState(t);
    var k := t.duration / NanosPerMinute;
    assert k * NanosPerMinute <= t.duration < k * NanosPerMinute + NanosPerMinute;
    MinuteCountUnique(t.duration, s.durationMin, k);
  }

  /** A negative duration never comes back from a save and a load, since the
      loaded duration is never negative. */
  lemma NegativeDurationNotRestored(t: Timer)
    requires t.duration < 0
    ensures LoadFrom(Some(Saved(ToSaveState(t)))) != Some(t)
  {
  }

  /** The `as u32` cast wraps: a duration of minus one minute is saved as
      2^32 - 1 minutes. */
  lemma MinusOneMinuteWraps(start: int)
    ensures ToSaveState(Timer(start, -NanosPerMinute)).durationMin == TwoTo32 - 1
  {
    assert NumMinutes(-NanosPerMinute) == -1;
  }

  /** Two minute counts that bracket the same non-negative duration agree. */
  lemma MinuteCountUnique(d: int, m1: int, m2: int)
    requires m1 * NanosPerMinute <= d < m1 * NanosPerMinute + NanosPerMinute
    requires m2 * NanosPerMinute <= d < m2 * NanosPerMinute + NanosPerMinute
    ensures m1 == m2
  {
  }

  /** The save file `pp.save`; `slot` is None when the file does not exist. */
  class SaveFile {
    var slot: Option<Stored>

    constructor (initial: Option<Stored>)
      ensures slot == initial
    {
      slot := initial;
    }

    /** `persist_time`: overwrites the file with the save state of `t`. */
    method PersistTime(t: Timer)
      modifies this
      ensures slot == Some(Saved(ToSaveState(t)))
    {
      slot := Some(Saved(ToSaveState(t)));
    }

    /** `delete_persisted_time`: removes the file if it exists. */
    method DeletePersistedTime()
      modifies this
      ensures slot == None
    {
      if slot.Some? {
        slot := None;
      }
    }

    /** `get_persisted_time`: reads the file without changing it. */
    method GetPersistedTime() returns (r: Option<Timer>)
      ensures r.None? <==> (slot.None? || slot.value.Unreadable?)
      ensures r.Some? ==> r.value == FromSaveState(slot.value.state)
    {
      match slot
      case Some(Saved(s)) =>
        r := Some(FromSaveState(s));
      case _ =>
        r := None;
    }
  }

  /** Whatever the file held before, the last timer persisted is the one loaded,
      and after a delete nothing is loaded. */
  method PersistThenLoad(file: SaveFile, first: Timer, second: Timer) returns (loaded: Option<Timer>, afterDelete: Option<Timer>)
    modifies file
    ensures loaded == Some(FromSaveState(ToSaveState(second)))
    ensures afterDelete == None
    ensures file.slot == None
  {
    file.PersistTime(first);
    file.PersistTime(second);
    loaded := file.GetPersistedTime();
    file.DeletePersistedTime();
    afterDelete := file.GetPersistedTime();
  }
}
