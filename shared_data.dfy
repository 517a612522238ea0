/**
 * The state shared between the control panel, the keyboard poller and the
 * timer page: the roster of client workstations and the exam timer slot.
 * Instants are nanoseconds since the Unix epoch (UTC) and durations are
 * nanoseconds, the resolution of the time library the program uses.
 */
module SharedState {
  import opened Common

  const NanosPerSecond: int := 1_000_000_000
  const NanosPerMinute: int := 60 * NanosPerSecond

  /** A running exam timer: when it was started and how long the exam lasts. */
  datatype Timer = Timer(start: int, duration: int)

  /** One exam workstation: its short host name, its address and the keyboard
      layer its daemon last reported (None when unknown). */
  datatype Client = Client(name: string, address: Ipv4, currentLayer: Option<string>)

  /** `DateTime::timestamp`: the whole seconds since the epoch, rounded down. */
  function UnixSeconds(instant: int): (s: int)
    ensures s * NanosPerSecond <= instant < s * NanosPerSecond + NanosPerSecond
  {
    instant / NanosPerSecond
  }

  /** The finish instant `start + duration` in whole Unix seconds, when the
      timer has been started. */
  function FinishOf(times: Option<Timer>): (r: Option<int>)
    ensures r.None? <==> times.None?
    ensures times.Some? ==>
      r.value * NanosPerSecond <= times.value.start + times.value.duration < r.value * NanosPerSecond + NanosPerSecond
  {
    match times
    case None => None
    case Some(t) => Some(UnixSeconds(t.start + t.duration))
  }

  /** Changing the duration by whole minutes moves the finish by 60 seconds
      per minute, in the same direction. */
  lemma FinishMovesByMinutes(t: Timer, minutes: int)
    ensures FinishOf(Some(Timer(t.start, t.duration + minutes * NanosPerMinute))).value
         == FinishOf(Some(t)).value + 60 * minutes
  {
    var x := t.start + t.duration;
    var s := UnixSeconds(x);
    var y := x + minutes * NanosPerMinute;
    assert y == x + (60 * minutes) * NanosPerSecond;
    assert (s + 60 * minutes) * NanosPerSecond <= y < (s + 60 * minutes) * NanosPerSecond + NanosPerSecond;
    UnixSecondsUnique(y, UnixSeconds(y), s + 60 * minutes);
  }

  /** The whole-second count of an instant is determined by the bracketing
      inequality of `UnixSeconds`. */
  lemma UnixSecondsUnique(instant: int, s1: int, s2: int)
    requires s1 * NanosPerSecond <= instant < s1 * NanosPerSecond + NanosPerSecond
    requires s2 * NanosPerSecond <= instant < s2 * NanosPerSecond + NanosPerSecond
    ensures s1 == s2
  {
  }

  /** `SharedData`: the roster (each client's `current_layer` is written in
      place by the poller) and the timer slot `times`. */
  class SharedData {
    var clients: seq<Client>
    var times: Option<Timer>

    /** `SharedData::new`: keeps the given roster and starts without a timer. */
    constructor (clients: seq<Client>)
      ensures this.clients == clients
      ensures times == None
    {
      this.clients := clients;
      times := None;
    }

    /** `finish_time_as_unix`: a read of the timer slot; as a function it
        cannot change it. */
    function FinishTimeAsUnix(): (r: Option<int>)
      reads this
      ensures r.None? <==> times.None?
      ensures times.Some? ==>
        r.value * NanosPerSecond <= times.value.start + times.value.duration < r.value * NanosPerSecond + NanosPerSecond
    {
      FinishOf(times)
    }
  }
}
