/**
 * The proctor's control panel: the key presses that start and adjust the
 * exam timer, switch every keyboard on or off, hide or reveal the task
 * description, and quit; the loop that feeds key presses to it until the
 * proctor quits; and the padding of table cells.
 *
 * The terminal is left out: the loop receives its input as a sequence of
 * ticks, each with what the terminal delivered and the current time. The
 * task-description symlink is represented by the requests made to it.
 */
module Tui {
  import opened Common
  import opened SharedState
  import opened Persistence
  import opened KanataTcp
  import InputParser

  /** The key codes the panel distinguishes; `OtherKey` is every other key. */
  datatype KeyCode = Char(c: char) | Enter | Esc | OtherKey

  /** What one poll of the terminal delivers: a key press, or something the
      panel ignores (key release or repeat events, other input, or nothing
      within the poll's 50 ms). */
  datatype InputEvent = KeyPress(code: KeyCode) | Ignored

  /** One pass of the run loop: the terminal input and the wall-clock time
      (nanoseconds since the Unix epoch) at which it is handled. */
  datatype Tick = Tick(event: InputEvent, now: int)

  /** A request to the task-description symlink. */
  datatype SymlinkAction = UnlockTaskDescription | LockTaskDescription

  /** What a key press does to the save file. */
  datatype SaveOp = NoSave | Persist(timer: Timer) | DeleteSave

  /** Everything one key press does: the new timer slot, whether the panel
      quits, the save-file operation, the symlink request and the layer sent
      to every keyboard. */
  datatype Reaction = Reaction(
    times: Option<Timer>,
    quit: bool,
    save: SaveOp,
    symlink: Option<SymlinkAction>,
    keyboards: Option<string>)

  function Unchanged(times: Option<Timer>): Reaction
  {
    Reaction(times, false, NoSave, None, None)
  }

  /** `handle_key_event` as a value: what `key`, pressed at `now`, does to the
      timer slot `times` when the configured exam length is `timerMinutes`. */
  function React(times: Option<Timer>, key: KeyCode, now: int, timerMinutes: int): (r: Reaction)
    ensures r.quit <==> key == Char('q')
    ensures r.times.Some? <==> times.Some? || key == Enter
    ensures times.Some? ==> r.times.Some? && r.times.value.start == times.value.start
    ensures r.times != times ==> r.save == Persist(r.times.value)
    ensures r.save.Persist? ==> r.times == Some(r.save.timer)
    ensures r.save.Persist? <==> r.times != times
    ensures r.save.DeleteSave? <==> key == Char('q')
    ensures key !in {Enter, Char('+'), Char('-')} ==> r.times == times
  {
    match key
    case Char('q') =>
      Reaction(times, true, DeleteSave, None, None)
    case Enter =>
      if times.None? then
        var t := Timer(now, timerMinutes * NanosPerMinute);
        Reaction(Some(t), false, Persist(t), Some(UnlockTaskDescription), None)
      else Unchanged(times)
    case Char('+') =>
      if times.Some? then
        var t := Timer(times.value.start, times.value.duration + NanosPerMinute);
        Reaction(Some(t), false, Persist(t), None, None)
      else Unchanged(times)
    case Char('-') =>
      if times.Some? then
        var t := Timer(times.value.start, times.value.duration - NanosPerMinute);
        Reaction(Some(t), false, Persist(t), None, None)
      else Unchanged(times)
    case Char(' ') =>
      Reaction(times, false, NoSave, None, Some("disabled"))
    case Esc =>
      Reaction(times, false, NoSave, None, Some("enabled"))
    case Char('d') =>
      Reaction(times, false, NoSave, Some(LockTaskDescription), None)
    case Char('r') =>
      Reaction(times, false, NoSave, Some(UnlockTaskDescription), None)
    case _ =>
      Unchanged(times)
  }

  /** Enter on a timer that has not been started starts it now with the
      configured length, saves exactly that and reveals the task description. */
  lemma EnterStartsTimer(now: int, timerMinutes: int)
    ensures var t := Timer(now, timerMinutes * NanosPerMinute);
      React(None, Enter, now, timerMinutes) == Reaction(Some(t), false, Persist(t), Some(UnlockTaskDescription), None)
  {
  }

  /** Enter on a running timer does nothing at all. */
  lemma EnterKeepsRunningTimer(t: Timer, now: int, timerMinutes: int)
    ensures React(Some(t), Enter, now, timerMinutes) == Unchanged(Some(t))
  {
  }

  /** `+` and `-` on a running timer move its duration by exactly one minute,
      keep its start and save the new timer; `-` has no lower bound. */
  lemma AdjustRunningTimer(t: Timer, now: int, timerMinutes: int)
    ensures var up := Timer(t.start, t.duration + NanosPerMinute);
      React(Some(t), Char('+'), now, timerMinutes) == Reaction(Some(up), false, Persist(up), None, None)
    ensures var down := Timer(t.start, t.duration - NanosPerMinute);
      React(Some(t), Char('-'), now, timerMinutes) == Reaction(Some(down), false, Persist(down), None, None)
  {
  }

  /** `+` and `-` on a timer that has not been started do nothing. */
  lemma AdjustUnstartedTimer(now: int, timerMinutes: int)
    ensures React(None, Char('+'), now, timerMinutes) == Unchanged(None)
    ensures React(None, Char('-'), now, timerMinutes) == Unchanged(None)
  {
  }

  /** `+` then `-` (in either order) gives back the duration it started from. */
  lemma PlusMinusCancel(times: Option<Timer>, now1: int, now2: int, timerMinutes: int)
    ensures React(React(times, Char('+'), now1, timerMinutes).times, Char('-'), now2, timerMinutes).times == times
    ensures React(React(times, Char('-'), now1, timerMinutes).times, Char('+'), now2, timerMinutes).times == times
  {
  }

  /** Each one-minute adjustment of a running timer moves the finish time by
      exactly 60 seconds in the same direction. */
  lemma AdjustMovesFinish(t: Timer, now: int, timerMinutes: int)
    ensures FinishOf(React(Some(t), Char('+'), now, timerMinutes).times).value == FinishOf(Some(t)).value + 60
    ensures FinishOf(React(Some(t), Char('-'), now, timerMinutes).times).value == FinishOf(Some(t)).value - 60
  {
    FinishMovesByMinutes(t, 1);
    FinishMovesByMinutes(t, -1);
  }

  /** Space and Esc only switch every keyboard off or on, and `d` and `r`
      only lock or unlock the task description: none of them touches the
      timer or the save file. */
  lemma KeyboardAndSymlinkKeys(times: Option<Timer>, now: int, timerMinutes: int)
    ensures React(times, Char(' '), now, timerMinutes) == Reaction(times, false, NoSave, None, Some("disabled"))
    ensures React(times, Esc, now, timerMinutes) == Reaction(times, false, NoSave, None, Some("enabled"))
    ensures React(times, Char('d'), now, timerMinutes) == Reaction(times, false, NoSave, Some(LockTaskDescription), None)
    ensures React(times, Char('r'), now, timerMinutes) == Reaction(times, false, NoSave, Some(UnlockTaskDescription), None)
  {
  }

  /** `q` only deletes the save file and quits: it keeps the timer slot,
      makes no symlink request and sends nothing to the keyboards. */
  lemma QuitOnlyDeletesAndExits(times: Option<Timer>, now: int, timerMinutes: int)
    ensures React(times, Char('q'), now, timerMinutes) == Reaction(times, true, DeleteSave, None, None)
  {
  }

  /** The keys without a binding change nothing. */
  lemma UnboundKeysDoNothing(times: Option<Timer>, key: KeyCode, now: int, timerMinutes: int)
    requires key !in {Char('q'), Enter, Char('+'), Char('-'), Char(' '), Esc, Char('d'), Char('r')}
    ensures React(times, key, now, timerMinutes) == Unchanged(times)
  {
  }

  /** The observable state of the panel and what it drives: the timer slot,
      the exit flag, the save file, the symlink requests so far and the
      network trace. */
  datatype Panel = Panel(times: Option<Timer>, exit: bool, saved: Option<Stored>, symlinks: seq<SymlinkAction>, trace: seq<Event>)

  /** The save file after a save-file operation. */
  function ApplySave(slot: Option<Stored>, op: SaveOp): (r: Option<Stored>)
    ensures op.Persist? ==> LoadFrom(r) == Some(FromSaveState(ToSaveState(op.timer)))
    ensures op.DeleteSave? ==> LoadFrom(r) == None
    ensures op.NoSave? ==> r == slot
  {
    match op
    case NoSave => slot
    case Persist(t) => Some(Saved(ToSaveState(t)))
    case DeleteSave => None
  }

  /** The panel after one key press, on a roster `clients` whose daemons
      behave as `peers`. */
  function Step(p: Panel, key: KeyCode, now: int, timerMinutes: int, clients: seq<Client>, peers: Ipv4 -> Peer): (q: Panel)
    ensures q.exit <==> p.exit || key == Char('q')
    ensures q.times == React(p.times, key, now, timerMinutes).times
    ensures p.symlinks <= q.symlinks && |q.symlinks| <= |p.symlinks| + 1
    ensures p.trace <= q.trace
    ensures key !in {Char(' '), Esc} ==> q.trace == p.trace
    ensures key !in {Enter, Char('+'), Char('-'), Char('q')} ==> q.saved == p.saved
  {
    var r := React(p.times, key, now, timerMinutes);
    Panel(
      r.times,
      p.exit || r.quit,
      ApplySave(p.saved, r.save),
      p.symlinks + (if r.symlink.Some? then [r.symlink.value] else []),
      p.trace + (if r.keyboards.Some? then BroadcastEvents(clients, peers, r.keyboards.value) else []))
  }

  predicate IsQuit(t: Tick)
  {
    t.event == KeyPress(Char('q'))
  }

  /** The run loop as a value: the panel after handling `ticks` from `p` on,
      and how many ticks were handled before the exit flag stopped it. */
  function RunFrom(p: Panel, ticks: seq<Tick>, timerMinutes: int, clients: seq<Client>, peers: Ipv4 -> Peer): (r: (Panel, nat))
    ensures r.1 <= |ticks|
    ensures p.exit ==> r == (p, 0)
    ensures p.trace <= r.0.trace && p.symlinks <= r.0.symlinks
    ensures p.exit ==> r.0.exit
    decreases |ticks|
  {
    if p.exit || ticks == [] then (p, 0)
    else
      var next := match ticks[0].event
        case KeyPress(key) => Step(p, key, ticks[0].now, timerMinutes, clients, peers)
        case Ignored => p;
      var (q, n) := RunFrom(next, ticks[1..], timerMinutes, clients, peers);
      (q, n + 1)
  }

  /** The loop stops exactly when the exit flag is set: it handles nothing
      once the flag is set, and otherwise stops right after the first `q`,
      or when the input runs out. */
  lemma {:induction false} RunStopsAtFirstQuit(p: Panel, ticks: seq<Tick>, timerMinutes: int, clients: seq<Client>, peers: Ipv4 -> Peer)
    ensures var (q, n) := RunFrom(p, ticks, timerMinutes, clients, peers);
      && n <= |ticks|
      && (p.exit ==> n == 0 && q == p)
      && (!p.exit ==> (q.exit <==> 0 < n && IsQuit(ticks[n - 1])))
      && (!p.exit ==> forall j :: 0 <= j < n - 1 ==> !IsQuit(ticks[j]))
      && (q.exit || n == |ticks|)
    decreases |ticks|
  {
    if !p.exit && ticks != [] {
      var next := match ticks[0].event
        case KeyPress(key) => Step(p, key, ticks[0].now, timerMinutes, clients, peers)
        case Ignored => p;
      RunStopsAtFirstQuit(next, ticks[1..], timerMinutes, clients, peers);
      var (q, n) := RunFrom(next, ticks[1..], timerMinutes, clients, peers);
      assert next.exit <==> IsQuit(ticks[0]);
      forall j | 0 < j < n ensures ticks[j] == ticks[1..][j - 1] { }
    }
  }

  /** Once started, the timer stays started with the same start time however
      the run goes on: no key clears it or restarts it. */
  lemma {:induction false} RunKeepsStart(p: Panel, ticks: seq<Tick>, timerMinutes: int, clients: seq<Client>, peers: Ipv4 -> Peer)
    requires p.times.Some?
    ensures RunFrom(p, ticks, timerMinutes, clients, peers).0.times.Some?
    ensures RunFrom(p, ticks, timerMinutes, clients, peers).0.times.value.start == p.times.value.start
    decreases |ticks|
  {
    if !p.exit && ticks != [] {
      var next := match ticks[0].event
        case KeyPress(key) => Step(p, key, ticks[0].now, timerMinutes, clients, peers)
        case Ignored => p;
      RunKeepsStart(next, ticks[1..], timerMinutes, clients, peers);
    }
  }

  /** `App`: the exit flag and the handles the panel acts on. */
  class App {
    var exit: bool
    var symlinkRequests: seq<SymlinkAction>
    const shared: SharedData
    const saveFile: SaveFile
    const net: Network
    /** The configuration; the panel reads its `timer_duration_minutes`. */
    const config: InputParser.Config

    constructor (shared: SharedData, saveFile: SaveFile, net: Network, config: InputParser.Config)
      ensures !exit && symlinkRequests == []
      ensures this.shared == shared && this.saveFile == saveFile && this.net == net
      ensures this.config == config
    {
      exit := false;
      symlinkRequests := [];
      this.shared := shared;
      this.saveFile := saveFile;
      this.net := net;
      this.config := config;
    }

    ghost function Snapshot(): Panel
      reads this, shared, saveFile, net
    {
      Panel(shared.times, exit, saveFile.slot, symlinkRequests, net.trace)
    }

    /** `handle_key_event`. */
    method HandleKeyEvent(key: KeyCode, now: int)
      modifies this`exit, this`symlinkRequests, shared`times, saveFile, net`trace
      ensures Snapshot() == Step(old(Snapshot()), key, now, config.timerDurationMinutes, shared.clients, net.peers)
    {
      match key
      case Char('q') =>
        saveFile.DeletePersistedTime();
        exit := true;
      case Enter =>
        if shared.times.None? {
          var duration := config.timerDurationMinutes * NanosPerMinute;
          shared.times := Some(Timer(now, duration));
          symlinkRequests := symlinkRequests + [UnlockTaskDescription];
          saveFile.PersistTime(Timer(now, duration));
        }
      case Char('+') =>
        if shared.times.Some? {
          var Timer(start, duration) := shared.times.value;
          var newDuration := duration + NanosPerMinute;
          shared.times := Some(Timer(start, newDuration));
          saveFile.PersistTime(Timer(start, newDuration));
        }
      case Char('-') =>
        if shared.times.Some? {
          var Timer(start, duration) := shared.times.value;
          var newDuration := duration - NanosPerMinute;
          shared.times := Some(Timer(start, newDuration));
          saveFile.PersistTime(Timer(start, newDuration));
        }
      case Char(' ') =>
        DisableKeyboards(shared, net);
      case Esc =>
        EnableKeyboards(shared, net);
      case Char('d') =>
        symlinkRequests := symlinkRequests + [LockTaskDescription];
      case Char('r') =>
        symlinkRequests := symlinkRequests + [UnlockTaskDescription];
      case _ =>
    }

    /** `handle_events`: only key presses reach `handle_key_event`. */
    method HandleEvents(tick: Tick)
      modifies this`exit, this`symlinkRequests, shared`times, saveFile, net`trace
      ensures tick.event.Ignored? ==> Snapshot() == old(Snapshot())
      ensures tick.event.KeyPress? ==>
        Snapshot() == Step(old(Snapshot()), tick.event.code, tick.now, config.timerDurationMinutes, shared.clients, net.peers)
    {
      match tick.event
      case KeyPress(key) =>
        HandleKeyEvent(key, tick.now);
      case Ignored =>
    }

    /** `run`: handles ticks while the exit flag is not set; returns how many
        ticks it handled. */
    method Run(ticks: seq<Tick>) returns (handled: nat)
      modifies this`exit, this`symlinkRequests, shared`times, saveFile, net`trace
      ensures (Snapshot(), handled) == RunFrom(old(Snapshot()), ticks, config.timerDurationMinutes, shared.clients, net.peers)
    {
      handled := 0;
      while !exit && handled < |ticks|
        invariant handled <= |ticks|
        invariant var (q, n) := RunFrom(Snapshot(), ticks[handled..], config.timerDurationMinutes, shared.clients, net.peers);
          RunFrom(old(Snapshot()), ticks, config.timerDurationMinutes, shared.clients, net.peers) == (q, n + handled)
        decreases |ticks| - handled
      {
        assert ticks[handled..][1..] == ticks[handled + 1..];
        HandleEvents(ticks[handled]);
        handled := handled + 1;
      }
    }
  }

  // ---------------------------------------------------------------------
  // Padding of table cells
  // ---------------------------------------------------------------------

  /** The number of bytes of the UTF-8 encoding of `c`. */
  function Utf8Width(c: char): nat
  {
    if c as int < 0x80 then 1
    else if c as int < 0x800 then 2
    else if c as int < 0x1_0000 then 3
    else 4
  }

  /** `String::len`: the length of the UTF-8 encoding of `s`, in bytes. */
  function Utf8Len(s: string): (n: nat)
    ensures |s| <= n <= 4 * |s|
  {
    if s == [] then 0 else Utf8Len(s[..|s| - 1]) + Utf8Width(s[|s| - 1])
  }

  predicate IsAscii(s: string)
  {
    forall i :: 0 <= i < |s| ==> s[i] as int < 0x80
  }

  /** An ASCII string takes one byte per character. */
  lemma {:induction false} AsciiUtf8Len(s: string)
    requires IsAscii(s)
    ensures Utf8Len(s) == |s|
  {
    if s != [] {
      AsciiUtf8Len(s[..|s| - 1]);
    }
  }

  /** `try_pad_string`: `s` followed by as many copies of `padChar` as the
      byte length of `s` falls short of `desiredLength`. */
  function TryPadString(s: string, padChar: char, desiredLength: nat): (r: string)
    ensures |r| >= |s| && r[..|s|] == s
    ensures |r| - |s| == if desiredLength > Utf8Len(s) then desiredLength - Utf8Len(s) else 0
    ensures forall i :: |s| <= i < |r| ==> r[i] == padChar
  {
    var padLen := desiredLength - Utf8Len(s);
    if padLen > 0 then s + seq(padLen, _ => padChar) else s
  }

  /** For ASCII text the result is as many characters long as the longer of
      the input and the desired length, and an input that is long enough
      comes back unchanged. */
  lemma PadAsciiLength(s: string, padChar: char, desiredLength: nat)
    requires IsAscii(s)
    ensures |TryPadString(s, padChar, desiredLength)| == if desiredLength > |s| then desiredLength else |s|
    ensures desiredLength <= |s| ==> TryPadString(s, padChar, desiredLength) == s
  {
    AsciiUtf8Len(s);
  }

  /** The byte length of a concatenation is the sum of the byte lengths. */
  lemma {:induction false} Utf8LenAppend(a: string, b: string)
    ensures Utf8Len(a + b) == Utf8Len(a) + Utf8Len(b)
    decreases |b|
  {
    if b != [] {
      var b' := b[..|b| - 1];
      assert (a + b)[..|a + b| - 1] == a + b';
      Utf8LenAppend(a, b');
    } else {
      assert a + b == a;
    }
  }

  /** With a one-byte pad character, any text is padded to at least the
      desired byte length: the result's byte length is the larger of the
      input's byte length and the desired length. */
  lemma PadByteLength(s: string, padChar: char, desiredLength: nat)
    requires padChar as int < 0x80
    ensures Utf8Len(TryPadString(s, padChar, desiredLength)) ==
      if desiredLength > Utf8Len(s) then desiredLength else Utf8Len(s)
  {
    var r := TryPadString(s, padChar, desiredLength);
    if desiredLength > Utf8Len(s) {
      var padding := r[|s|..];
      assert r == s + padding;
      assert IsAscii(padding);
      AsciiUtf8Len(padding);
      Utf8LenAppend(s, padding);
    }
  }
}
