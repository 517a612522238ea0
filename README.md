# pp_klausur_manager, modelled in Dafny

pp_klausur_manager is the exam-room manager of a programming course. A
proctor runs a terminal control panel that:

- starts the exam timer and adjusts it minute by minute;
- locks or unlocks every workstation's keyboard through the keyboard daemon
  (kanata) running on the workstation;
- switches the task-description symlink.

Every workstation's browser polls a countdown page. The timer survives a
restart through a save file. The roster of workstations comes from a
configuration of rooms, whose host names are resolved to IPv4 addresses.

This project models the sequential core of the system and proves properties
of it. It has one Dafny module per source file:

| module | file | what it models |
|---|---|---|
| `Common` | `common.dfy` | `Option`, the `Outcome` of code that may panic, bytes, IPv4 addresses, Rust's truncating `/` and the `as u32` cast |
| `SharedState` | `shared_data.dfy` | the timer slot `(start, duration)` and the roster, in a `SharedData` object, and the finish time in Unix seconds |
| `Persistence` | `persistance.dfy` | the save state (start, whole minutes as `u32`) and the save file as an optional slot, with persist, delete and load |
| `KanataTcp` | `kanata_tcp.dfy` | the layer-change command, the status query and its reply parsing, the broadcast to the roster, and the refresh of every client's current layer |
| `InputParser` | `input_parser.dfy` | choosing a room by name, resolving its host names, and building the roster |
| `TimingWebserver` | `timing_webserver.dfy` | the countdown page with its two numbers, and the route choice between it and 404 |
| `Tui` | `tui.dfy` | the key bindings of the control panel, its run loop, and the padding of table cells |

Conventions of the model:

- Time is an integer count of nanoseconds, which is chrono's resolution.
  - Instants count from the Unix epoch.
  - `timestamp()` rounds down to whole seconds.
  - `num_minutes()` truncates toward zero twice, first to whole seconds and
    then to whole minutes.
  - Both are therefore real operations in the model.
- The current time is a parameter, `now`.
- The foreign code becomes function parameters:
  - `parse: seq<byte> -> Option<Json>` stands for the lossy UTF-8 decoding
    followed by `serde_json::from_str`; `None` means the text is not JSON.
  - `lookup: string -> Option<seq<SocketAddr>>` stands for `to_socket_addrs`;
    `None` means the lookup failed.
- Code that panics (an `unwrap` on an error) yields `Outcome.Panicked`.
- The network is a `Network` object:
  - for each address it holds how the daemon there behaves (`Peer`):
    whether it accepts the connection, whether the read succeeds, and which
    bytes it sends;
  - it also holds the trace of reads and writes made so far.
- Threads are replaced by a sequential visit of the roster, in roster order.
  Mutexes are replaced by plain fields.

In these places the code's behaviour is easy to misread; the model follows
the code as written:

- `q` deletes the save file and sets the exit flag. It does not clear the
  timer slot (src/tui.rs:81-84).
- A refresh erases the current layer when the query fails. When the reply's
  first line is not JSON, however, the `unwrap` panics before
  `current_layer` is written, so that client keeps its previous layer (src/kanata_tcp.rs:66, 77-78).
  `KanataTcp.Refreshed` and `KanataTcp.RefreshOverwrites` state both cases.
  A daemon that accepts but never answers the read also leaves the old layer,
  because that refresh never finishes; the model leaves this case out (see
  "## Left out").
- The reply buffer is always the full 1024 bytes, zero padded. Because of
  that, `lines().next()` never finds an empty text and never returns `None`
  (`KanataTcp.BufferHasFirstLine`).
- `finish_time_as_unix` is in seconds (src/shared_data.rs:25). The page's
  script compares `targetDate` with `Date().getTime()`, which is in
  milliseconds (src/timing_webserver.rs:74-81). Any conversion happens
  outside these files, so the page keeps the value in whatever unit it is
  given.

## Model

| member | source | states |
|---|---|---|
| Common.TruncDiv | src/persistance.rs:30 | Rust's integer division by a positive number: the quotient times the divisor lies between zero and the dividend, less than one divisor away from it (truncation toward zero for either sign) |
| Common.AsU32 | src/persistance.rs:30 | `as u32` yields a value in 0..2^32 that is congruent to its input modulo 2^32, and leaves values already in range unchanged |
| SharedState.UnixSeconds | src/shared_data.rs:25 | `timestamp()` is the whole number of seconds s with s·10^9 ≤ instant < (s+1)·10^9 (rounding down, also before the epoch) |
| SharedState.FinishOf | src/shared_data.rs:21-26 | the finish is None exactly when no timer is set; otherwise it is start + duration rounded down to whole Unix seconds |
| SharedState.FinishMovesByMinutes | src/shared_data.rs:25 | adding m minutes to the duration moves the finish by exactly 60·m seconds |
| SharedState.SharedData.constructor | src/shared_data.rs:14-19 | `new` keeps the given client list unchanged and starts with no timer |
| SharedState.SharedData.FinishTimeAsUnix | src/shared_data.rs:21-26 | reading the finish time is None exactly when no timer is set, is start + duration rounded down to seconds otherwise, and (being a function) does not change the slot |
| Persistence.NumMinutes | src/persistance.rs:30 | `num_minutes()` gives the whole minutes of a duration, truncated toward zero for both signs |
| Persistence.ToSaveState | src/persistance.rs:27-31 | the save state keeps the start; for a duration of 0 to 2^32 minutes the saved count is its whole minutes |
| Persistence.FromSaveState | src/persistance.rs:20-24 | a loaded timer keeps the saved start and has a duration of 60 seconds per saved minute, never negative and always whole minutes |
| Persistence.LoadFrom | src/persistance.rs:17-25 | loading gives None exactly when there is no file or its content does not parse as a save state, and otherwise the saved start and minutes |
| Persistence.RoundTrip | src/persistance.rs:17-35 | a whole-minute duration of 0 to 2^32-1 minutes comes back from a save and a load identical, and so does its finish |
| Persistence.SubMinuteRemainderLost | src/persistance.rs:30 | a save and a load round the duration down to whole minutes, losing the sub-minute remainder |
| Persistence.NegativeDurationNotRestored | src/persistance.rs:30 | a negative duration never comes back from a save and a load |
| Persistence.MinusOneMinuteWraps | src/persistance.rs:30 | a duration of -1 minute is saved as 2^32-1 minutes because of the `as u32` cast |
| Persistence.SaveFile.PersistTime | src/persistance.rs:27-35 | persisting overwrites the file with the save state of the given timer |
| Persistence.SaveFile.DeletePersistedTime | src/persistance.rs:37-42 | deleting leaves no file, whether or not one existed |
| Persistence.SaveFile.GetPersistedTime | src/persistance.rs:17-25 | loading does not change the file, gives None exactly when there is no file or it is unreadable, and otherwise the timer the save state records |
| Persistence.PersistThenLoad | src/persistance.rs:17-42 | whatever the file held, the last timer persisted is the one loaded, and after a delete nothing is loaded |
| KanataTcp.Member | src/kanata_tcp.rs:67 | indexing a JSON value by a key gives that member of an object that has it, and null otherwise |
| KanataTcp.LayerOfStatus | src/kanata_tcp.rs:67 | the reported layer exists exactly when the value has an object `LayerChange` whose member `new` is a string, and it is that string |
| KanataTcp.LayerChangeCommand | src/kanata_tcp.rs:21 | the command is the fixed opening, the layer name as it is, and the fixed closing with a newline |
| KanataTcp.Escape | src/kanata_tcp.rs:21 | reference escaping of RFC 8259 section 7: it leaves a name with no quotation mark, backslash or control character unchanged and lengthens every other name |
| KanataTcp.CommandIsJsonExactlyForPlainNames | src/kanata_tcp.rs:21 | the command equals the JSON object `{"ChangeLayer":{"new":<layer as a JSON string>}}` plus a newline exactly when the layer name needs no escaping |
| KanataTcp.ReadBuffer | src/kanata_tcp.rs:60-61 | the buffer that is read is 1024 bytes: the received bytes, then zeros |
| KanataTcp.FirstLine | src/kanata_tcp.rs:64-65 | the first line is None exactly for an empty text, holds no line feed, is a prefix of the text, and is the whole text when the text holds no line feed |
| KanataTcp.FirstLineOfLines | src/kanata_tcp.rs:64-65 | of a line followed by a line feed, the first line is that line without a trailing carriage return |
| KanataTcp.BufferHasFirstLine | src/kanata_tcp.rs:60-65 | a 1024-byte read buffer always has a first line, so `lines().next()` never returns None |
| KanataTcp.ChangeEvents | src/kanata_tcp.rs:23-34 | a layer change touches the daemon exactly when it accepts, and then reads once and writes the command once, in that order |
| KanataTcp.QueryEvents | src/kanata_tcp.rs:53-63 | a query writes `{}` exactly when connect and read succeed, touches the daemon only if it accepts, and always reads first |
| KanataTcp.Interpret | src/kanata_tcp.rs:64-69 | only the first line is interpreted: no line gives None, a line that is not JSON panics, and otherwise the result is the `LayerChange.new` string or None |
| KanataTcp.QueryOutcome | src/kanata_tcp.rs:53-70 | the query is None when connect or read fails, and otherwise the interpretation of the 1024-byte buffer |
| KanataTcp.QueryReportsStatus | src/kanata_tcp.rs:53-70 | a daemon whose first line is the status message for a layer is reported as being in that layer |
| KanataTcp.Network.TryLayerChange | src/kanata_tcp.rs:20-35 | a layer change reads and then writes the command when the daemon accepts, and leaves no trace (and no error) when it does not |
| KanataTcp.Network.GetCurrentLayer | src/kanata_tcp.rs:53-70 | the query's result is its outcome on the daemon at that address; its trace is empty when the connect fails, one read when the read fails, and a read followed by the write of `{}` otherwise |
| KanataTcp.BroadcastEvents | src/kanata_tcp.rs:37-43 | a broadcast makes at most one read and one write per roster client, in pairs |
| KanataTcp.Reachable | src/kanata_tcp.rs:37-43 | the reachable addresses are exactly the roster addresses whose daemons accept: each one returned is such an address, and every accepting roster client's address is included |
| KanataTcp.BroadcastIsReadWritePairs | src/kanata_tcp.rs:37-43 | a broadcast is one read followed by one write of the command per reachable roster client, in roster order, at that client's address |
| KanataTcp.TryLayerChangeAll | src/kanata_tcp.rs:37-43 | the broadcast extends the trace by one attempt per roster client and changes nothing else |
| KanataTcp.EnableKeyboards | src/kanata_tcp.rs:45-47 | enabling broadcasts layer "enabled" |
| KanataTcp.DisableKeyboards | src/kanata_tcp.rs:49-51 | disabling broadcasts layer "disabled" |
| KanataTcp.Refreshed | src/kanata_tcp.rs:72-79 | a refresh keeps a client's name and address, sets its layer to the query result when the query returns, and keeps the client when the query panics |
| KanataTcp.RefreshOverwrites | src/kanata_tcp.rs:72-79 | a failed connect or read erases the old layer, a returned query overwrites it, and only a panic leaves it as it was |
| KanataTcp.UpdateClient | src/kanata_tcp.rs:72-79 | refreshing one client changes that roster entry and no other, and queries only that client's address |
| KanataTcp.RoundEvents | src/kanata_tcp.rs:81-86 | a refresh round makes at most two events per roster client |
| KanataTcp.RoundTouchesReachable | src/kanata_tcp.rs:81-86 | a refresh round reads from an address exactly when it is the address of a client whose daemon accepts, reads or writes no other address, and makes between one and two events per such client in all |
| KanataTcp.UpdateClients | src/kanata_tcp.rs:81-86 | a round refreshes every index of the roster exactly once (the bounds `expect` never fires), keeps the roster's length, and queries the clients in order |
| KanataTcp.RefreshScenario | src/kanata_tcp.rs:72-86 | of two clients, the one reporting "enabled" is shown in "enabled" and the unreachable one is shown with no layer, whatever was known before |
| InputParser.FirstIpv4 | src/input_parser.rs:63-68 | the address picked is None exactly when the list holds no IPv4 entry, and otherwise the first IPv4 entry's address |
| InputParser.FirstIpv4Position | src/input_parser.rs:63-68 | an IPv4 entry preceded only by IPv6 entries is the one picked |
| InputParser.Resolve | src/input_parser.rs:59-69 | resolving as the roster uses it: a panic exactly when the lookup of the name with `:80` fails, otherwise the first IPv4 address of the answer, and None exactly when the answer holds only IPv6 entries |
| InputParser.ResolveIpv4Addr | src/input_parser.rs:59-69 | the early-return loop looks up the host name with `:80`, panics when the lookup fails, otherwise returns the first IPv4 address found, and so agrees with `Resolve` on every input |
| InputParser.ResolveAll | src/input_parser.rs:37-43 | resolution stops at the first host name (short name + domain) that does not resolve, and on success pairs every short name, in order, with its address |
| InputParser.ResolveAllSucceedsExactly | src/input_parser.rs:39-43 | resolution is all-or-nothing: it yields a list exactly when every host name resolves |
| InputParser.RoomRoster | src/input_parser.rs:36-48 | a room's roster holds one client per host name, in configuration order, with its short name, its resolved address and no layer, exactly when every name resolves |
| InputParser.RoomsNamed | src/input_parser.rs:29-33 | filtering keeps exactly the rooms with the requested name |
| InputParser.NoRoomNamed | src/input_parser.rs:29-33 | with no room of that name, the filter is empty |
| InputParser.OneRoomNamed | src/input_parser.rs:29-35 | with exactly one room of that name, the filter is that room alone |
| InputParser.TwoRoomsNamed | src/input_parser.rs:29-34 | with two rooms of that name, the filter has at least two rooms |
| InputParser.GetIpAddressesOfRoom | src/input_parser.rs:28-52 | the roster is None unless exactly one room has the requested name, and then it is that room's roster |
| TimingWebserver.ReadIntOfFormatted | src/timing_webserver.rs:102 | a number written in decimal, followed by anything but a digit, reads back as itself |
| TimingWebserver.IntToString | src/timing_webserver.rs:102 | a formatted integer is a minus sign exactly for negative numbers, followed by decimal digits |
| TimingWebserver.Render | src/timing_webserver.rs:45-103 | the page is the fixed template with exactly the refresh delay and the target filled in: both read back from the page |
| TimingWebserver.GenerateHtml | src/timing_webserver.rs:39-103 | with a time the page shows a refresh delay of 30 and that time as target; without one, a delay of 3 and target -1 |
| TimingWebserver.PageDeterminesTime | src/timing_webserver.rs:39-44 | two equal pages were generated for the same argument |
| TimingWebserver.Route | src/timing_webserver.rs:22-32 | path "/" gets status 200, the header `Content-Type: text/html` and the page; every other path gets status 404 and "404 Not Found" |
| TimingWebserver.HandleRequest | src/timing_webserver.rs:22-32 | serving a request only reads the shared time and answers with the route for it |
| Tui.React | src/tui.rs:79-130 | only `q` quits, and only `q` deletes the save file; the timer is set afterwards exactly when it was set before or the key is Enter; a set timer keeps its start; the save file is written exactly when the timer changes, and with the new timer; keys other than Enter, `+` and `-` leave the timer as it was |
| Tui.EnterStartsTimer | src/tui.rs:85-96 | Enter on an unset timer sets it to (now, configured minutes), requests unlocking the task description and saves exactly that timer |
| Tui.EnterKeepsRunningTimer | src/tui.rs:85-97 | Enter on a running timer changes and saves nothing |
| Tui.AdjustRunningTimer | src/tui.rs:98-114 | `+` and `-` on a running timer add or subtract exactly one minute (no lower bound), keep the start and save the new timer |
| Tui.AdjustUnstartedTimer | src/tui.rs:98-114 | `+` and `-` on an unset timer leave it unset and save nothing |
| Tui.PlusMinusCancel | src/tui.rs:98-114 | `+` then `-`, or `-` then `+`, give back the timer they started from |
| Tui.AdjustMovesFinish | src/tui.rs:98-114 | each one-minute adjustment moves the finish time by exactly 60 seconds in the same direction |
| Tui.QuitOnlyDeletesAndExits | src/tui.rs:81-84 | `q` deletes the save file and quits, and does nothing else: the timer slot is kept, no symlink request is made and no layer is sent to the keyboards |
| Tui.KeyboardAndSymlinkKeys | src/tui.rs:116-127 | Space broadcasts "disabled", Esc broadcasts "enabled", `d` requests locking and `r` unlocking the task description, and none of them touches the timer or the save file |
| Tui.UnboundKeysDoNothing | src/tui.rs:128 | a key without a binding changes nothing |
| Tui.Step | src/tui.rs:79-134 | one key press sets the exit flag exactly when it is `q` (once set it stays set), moves the timer as `React` does, adds at most one symlink request, only extends the network trace and does so only for Space and Esc, and touches the save file only for Enter, `+`, `-` and `q` |
| Tui.ApplySave | src/tui.rs:82-113 | after a persist the file loads the saved form of that timer, after a delete it loads nothing, otherwise it is unchanged |
| Tui.RunFrom | src/tui.rs:42-48 | the run handles at most the ticks it is given, handles none once the exit flag is set, and only extends the trace and the symlink requests |
| Tui.RunStopsAtFirstQuit | src/tui.rs:42-48 | the loop handles nothing once the exit flag is set, stops right after the first `q`, and otherwise runs until the input ends |
| Tui.RunKeepsStart | src/tui.rs:79-129 | once started, the timer stays started with the same start for the rest of the run |
| Tui.App.constructor | src/tui.rs:32-37 | a new panel has the exit flag clear, the given shared state and the configuration whose timer length Enter uses |
| Tui.App.HandleKeyEvent | src/tui.rs:79-134 | a key press changes the timer slot, the exit flag, the save file, the symlink requests and the keyboard broadcast exactly as `React` says |
| Tui.App.HandleEvents | src/tui.rs:65-77 | only key presses are handled; every other input changes nothing |
| Tui.App.Run | src/tui.rs:42-48 | the loop handles input as `RunFrom` does, stopping once the exit flag is set |
| Tui.Utf8Len | src/tui.rs:324 | `String::len` counts UTF-8 bytes: between one and four per character |
| Tui.TryPadString | src/tui.rs:323-330 | the result is the input followed by only pad characters, as many as the input's byte length falls short of the desired length |
| Tui.PadAsciiLength | src/tui.rs:323-330 | for ASCII text, whatever the pad character, the result's length in characters is the larger of the input's length and the desired length, and a long enough input comes back unchanged |
| Tui.PadByteLength | src/tui.rs:323-330 | for any text and a one-byte pad character, the result's byte length is the larger of the input's byte length and the desired length |

## Left out

- Threads and polling: `thread::spawn`, the fan-out over the roster and the
  refresh loop with its two-second sleep (src/kanata_tcp.rs:37-43, 81-93,
  src/timing_webserver.rs:8-10). The roster is visited sequentially, and
  mutexes are plain fields.
- Sockets are not modelled. Connect timeouts, the port and the timeout
  constants (src/kanata_tcp.rs:16-18) are left out. A daemon is only
  whether it accepts, whether the read succeeds and which bytes it sends.
  Partial writes and write errors are ignored, as the code ignores them.
- Reads that never return: the program sets a timeout on connecting but not
  on reading (src/kanata_tcp.rs:23-31, 54-61). A daemon that accepts and then
  sends nothing blocks that thread in `stream.read` for ever. In that case
  `try_layer_change` never writes the command, and `update_client` never
  overwrites `current_layer`, so the old layer stays. The model has no such
  behaviour: every read on a made connection returns, successfully or not,
  so its refresh always ends.
- `serde_json` is an uninterpreted parser parameter, and so is the lossy
  UTF-8 decoding of the reply. The serialised JSON of the save file is
  represented by the save state itself or by "unreadable".
- DNS is an uninterpreted lookup parameter. Its `unwrap` on a failed lookup
  is a panic in the model.
- File I/O: the save file is an optional slot. Read and write errors, which
  the code ignores, are not modelled. `parse_config` is a file read plus
  `serde_json`, and is left out.
- src/symlinks.rs is not part of this model. Locking and unlocking the task
  description are recorded as requests in `App.symlinkRequests`.
- Terminal rendering, crossterm's 50 ms poll, and event reads that fail
  (src/tui.rs:18-23, 50-77, 137-321). Input arrives as a finite sequence of
  ticks. `Run` ends when the input ends, where the program would keep
  polling.
- The tiny_http server loop, the logging, and `respond(...).unwrap()`
  (src/timing_webserver.rs:12-20, 34-36). Headers that tiny_http adds by
  itself, such as the text/plain type of `from_string`, are not listed in
  `Response.headers`.
- The embedded JavaScript countdown is only text inside the page template.
- chrono range limits: `Duration::minutes` and `+`/`-` on durations panic
  outside about ±2^63 milliseconds. The model's integers are unbounded.
- Tui.TryPadString: the lengths are unbounded naturals. The `as isize` casts
  would wrap only for lengths of 2^63 bytes or more.
- `Client.is_online`, `last_timer_access` and the journal of non-client
  timer accesses do not appear with any logic in these files.
- src/client.rs, src/main.rs and src/nonclient_timeraccess.rs are records and
  wiring. A client is modelled as its name, its address and its current
  layer.
