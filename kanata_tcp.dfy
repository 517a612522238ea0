/**
 * The client side of the keyboard daemon's line-based JSON protocol, and the
 * two roster-wide operations built on it: a layer change sent to every
 * workstation, and a refresh of every workstation's reported layer.
 *
 * The TCP connection is replaced by a `Network` object: for every address it
 * holds one fixed behaviour of the daemon there (`Peer`), which every
 * connection to that address meets alike, also after a layer change was sent
 * to it; and it keeps a trace of the reads and writes the program performs. The roster is
 * visited in order, one client at a time, where the program starts one thread
 * per client.
 */
module KanataTcp {
  import opened Common
  import opened SharedState

  // ---------------------------------------------------------------------
  // JSON values and the layer-change command
  // ---------------------------------------------------------------------

  /** A JSON value (RFC 8259). Numbers are kept as integers; an object maps
      each member name to its value. */
  datatype Json =
    | JNull
    | JBool(b: bool)
    | JNumber(n: int)
    | JString(s: string)
    | JArray(items: seq<Json>)
    | JObject(members: map<string, Json>)

  /** `value[key]` on a JSON value: the member's value, or null when the value
      is not an object or has no such member. */
  function Member(v: Json, key: string): (r: Json)
    ensures v.JObject? && key in v.members ==> r == v.members[key]
    ensures !(v.JObject? && key in v.members) ==> r == JNull
  {
    if v.JObject? && key in v.members then v.members[key] else JNull
  }

  /** `msg_json["LayerChange"]["new"].as_str()`. */
  function LayerOfStatus(v: Json): (r: Option<string>)
    ensures r.Some? <==>
      && v.JObject? && "LayerChange" in v.members
      && v.members["LayerChange"].JObject? && "new" in v.members["LayerChange"].members
      && v.members["LayerChange"].members["new"].JString?
    ensures r.Some? ==> r.value == v.members["LayerChange"].members["new"].s
  {
    match Member(Member(v, "LayerChange"), "new")
    case JString(s) => Some(s)
    case _ => None
  }

  /** The status notification a daemon sends: `{"LayerChange":{"new":layer}}`. */
  function StatusMessage(layer: string): Json
  {
    JObject(map["LayerChange" := JObject(map["new" := JString(layer)])])
  }

  /** The fixed text before and after the layer name in the command. */
  const CommandHead: string := "{\"ChangeLayer\":{\"new\":\""
  const CommandTail: string := "\"}}\n"

  /** The command line written to ask a daemon for `layer`, built by splicing
      the name between fixed text, without escaping. */
  function LayerChangeCommand(layer: string): (cmd: string)
    ensures |cmd| == |layer| + |CommandHead| + |CommandTail|
  {
    CommandHead + layer + CommandTail
  }

  /** A character that RFC 8259 section 7 requires to be escaped inside a
      string: quotation mark, reverse solidus and U+0000 to U+001F. */
  predicate NeedsEscape(c: char)
  {
    c == '"' || c == '\\' || c < ' '
  }

  predicate IsPlain(s: string)
  {
    forall i :: 0 <= i < |s| ==> !NeedsEscape(s[i])
  }

  function HexDigit(n: int): char
    requires 0 <= n < 16
  {
    "0123456789abcdef"[n]
  }

  /** The escaped form of one character inside a JSON string. */
  function EscapeChar(c: char): (r: string)
    ensures NeedsEscape(c) ==> |r| >= 2 && r[0] == '\\'
    ensures !NeedsEscape(c) ==> r == [c]
  {
    if c == '"' then "\\\""
    else if c == '\\' then "\\\\"
    else if c < ' ' then "\\u00" + [HexDigit(c as int / 16), HexDigit(c as int % 16)]
    else [c]
  }

  /** The body of a JSON string literal for `s`: every character that needs
      it escaped, the others as they are. */
  function Escape(s: string): (r: string)
    ensures |r| >= |s|
    ensures IsPlain(s) ==> r == s
    ensures !IsPlain(s) ==> |r| > |s|
  {
    if s == [] then []
    else
      var r := EscapeChar(s[0]) + Escape(s[1..]);
      assert !IsPlain(s) && !NeedsEscape(s[0]) ==> !IsPlain(s[1..]) by {
        if !IsPlain(s) && !NeedsEscape(s[0]) {
          var i :| 0 <= i < |s| && NeedsEscape(s[i]);
          assert i > 0 && NeedsEscape(s[1..][i - 1]);
        }
      }
      r
  }

  /** A JSON string literal (RFC 8259 section 7). */
  function JsonString(s: string): string
  {
    "\"" + Escape(s) + "\""
  }

  /** The JSON text `{"ChangeLayer":{"new":` that opens the layer-change
      object, up to its innermost value. */
  const ObjectOpening: string := "{\"ChangeLayer\":{\"new\":"

  /** The JSON text of the object `{"ChangeLayer":{"new":layer}}`, laid out
      as the daemon's command is, but with the layer escaped. */
  function ChangeLayerJson(layer: string): string
  {
    ObjectOpening + JsonString(layer) + "}}"
  }

  /** The spliced command is the JSON text of the layer-change object, plus a
      newline, exactly when the layer name needs no escaping. */
  lemma CommandIsJsonExactlyForPlainNames(layer: string)
    ensures LayerChangeCommand(layer) == ChangeLayerJson(layer) + "\n" <==> IsPlain(layer)
  {
    var open := ObjectOpening;
    assert open + "\"" == CommandHead;
    var esc := Escape(layer);
    calc {
      ChangeLayerJson(layer) + "\n";
      open + ("\"" + esc + "\"") + "}}" + "\n";
      { assert "\"" + "}}" + "\n" == CommandTail; }
      CommandHead + esc + CommandTail;
    }
    if IsPlain(layer) {
      assert esc == layer;
    } else {
      assert |esc| > |layer|;
    }
  }

  // ---------------------------------------------------------------------
  // The reply buffer and its first line
  // ---------------------------------------------------------------------

  const LineFeed: byte := 10
  const CarriageReturn: byte := 13

  /** The size of the buffer a daemon's greeting is read into. */
  const BufferSize: nat := 1024

  /** The zero-initialised buffer after one read that delivered `received`:
      as many received bytes as fit, then zeros. */
  function ReadBuffer(received: seq<byte>): (buf: seq<byte>)
    ensures |buf| == BufferSize
    ensures forall i :: 0 <= i < BufferSize ==> buf[i] == (if i < |received| then received[i] else 0)
  {
    if |received| >= BufferSize then received[..BufferSize]
    else received + seq(BufferSize - |received|, _ => 0)
  }

  /** The index of the first `x` in `s`, or `|s|` when there is none. */
  function IndexOf(s: seq<byte>, x: byte): (k: nat)
    ensures k <= |s|
    ensures forall j :: 0 <= j < k ==> s[j] != x
    ensures k < |s| ==> s[k] == x
  {
    if s == [] then 0
    else if s[0] == x then 0
    else 1 + IndexOf(s[1..], x)
  }

  /** The first item of `str::lines`: the text before the first line feed
      (with a carriage return right before it removed), or the whole text when
      it holds no line feed; nothing for empty text. */
  function FirstLine(text: seq<byte>): (line: Option<seq<byte>>)
    ensures line.None? <==> text == []
    ensures line.Some? ==> LineFeed !in line.value && line.value <= text
    ensures text != [] && LineFeed !in text ==> line == Some(text)
  {
    if text == [] then None
    else
      var k := IndexOf(text, LineFeed);
      if k == |text| then Some(text)
      else if k > 0 && text[k - 1] == CarriageReturn then Some(text[..k - 1])
      else Some(text[..k])
  }

  /** Only the first line is looked at: what follows the first line feed does
      not matter. */
  lemma FirstLineOfLines(line: seq<byte>, rest: seq<byte>)
    requires LineFeed !in line
    ensures FirstLine(line + [LineFeed] + rest) ==
      Some(if |line| > 0 && line[|line| - 1] == CarriageReturn then line[..|line| - 1] else line)
  {
    var text := line + [LineFeed] + rest;
    var k := IndexOf(text, LineFeed);
    assert text[|line|] == LineFeed;
    assert k == |line|;
    assert text[..k] == line;
    if |line| > 0 {
      assert text[k - 1] == line[|line| - 1];
      assert text[..k - 1] == line[..|line| - 1];
    }
  }

  /** The buffer is never empty, so the first line always exists and the
      `?` after `lines().next()` never returns early. */
  lemma BufferHasFirstLine(received: seq<byte>)
    ensures FirstLine(ReadBuffer(received)).Some?
  {
    assert |ReadBuffer(received)| == BufferSize;
  }

  // ---------------------------------------------------------------------
  // One connection to one daemon
  // ---------------------------------------------------------------------

  /** How the daemon at one address behaves, the same on every connection:
      whether the connection is made within the timeout, whether the first
      read succeeds, and the bytes that read delivers. A read that never
      returns is not among these behaviours. */
  datatype Peer = Peer(accepts: bool, readSucceeds: bool, received: seq<byte>)

  /** What the program does on a connection: read from it, or write to it. */
  datatype Event = Read(from: Ipv4) | Write(to: Ipv4, data: string)

  /** The reads and writes of `try_layer_change`: on a made connection, one
      read of the greeting and then one write of the command, whatever the
      read returned. */
  function ChangeEvents(peer: Peer, ip: Ipv4, layer: string): (t: seq<Event>)
    ensures t != [] <==> peer.accepts
    ensures Write(ip, LayerChangeCommand(layer)) in t <==> peer.accepts
    ensures t != [] ==> |t| == 2 && t[0] == Read(ip) && t[1] == Write(ip, LayerChangeCommand(layer))
  {
    if peer.accepts then [Read(ip), Write(ip, LayerChangeCommand(layer))] else []
  }

  /** The reads and writes of `get_current_layer`: a read, and only after a
      successful read the write of the invalid message `{}` that makes the
      daemon drop the connection. */
  function QueryEvents(peer: Peer, ip: Ipv4): (t: seq<Event>)
    ensures Write(ip, "{}") in t <==> peer.accepts && peer.readSucceeds
    ensures t != [] <==> peer.accepts
    ensures t != [] ==> t[0] == Read(ip)
  {
    if !peer.accepts then []
    else if !peer.readSucceeds then [Read(ip)]
    else [Read(ip), Write(ip, "{}")]
  }

  /** The interpretation of a read buffer: its first line parsed as JSON (a
      parse error panics), then the string at `LayerChange.new`. `parse`
      stands for lossy UTF-8 decoding followed by the JSON parser. */
  function Interpret(buf: seq<byte>, parse: seq<byte> -> Option<Json>): (r: Outcome<Option<string>>)
    ensures FirstLine(buf).None? ==> r == Returned(None)
    ensures FirstLine(buf).Some? && parse(FirstLine(buf).value).None? ==> r.Panicked?
    ensures FirstLine(buf).Some? && parse(FirstLine(buf).value).Some? ==>
      r == Returned(LayerOfStatus(parse(FirstLine(buf).value).value))
  {
    match FirstLine(buf)
    case None => Returned(None)
    case Some(line) =>
      match parse(line)
      case None => Panicked
      case Some(v) => Returned(LayerOfStatus(v))
  }

  /** The result of `get_current_layer` against a daemon behaving as `peer`:
      None when the connection or the read fails, otherwise the
      interpretation of the read buffer. */
  function QueryOutcome(peer: Peer, parse: seq<byte> -> Option<Json>): (r: Outcome<Option<string>>)
    ensures !(peer.accepts && peer.readSucceeds) ==> r == Returned(None)
    ensures peer.accepts && peer.readSucceeds ==> r == Interpret(ReadBuffer(peer.received), parse)
  {
    if peer.accepts && peer.readSucceeds then Interpret(ReadBuffer(peer.received), parse)
    else Returned(None)
  }

  /** A daemon that answers with the status line for `layer`, shorter than
      the buffer, is reported as being on `layer`, whatever it sends after
      that line. */
  lemma QueryReportsStatus(layer: string, line: seq<byte>, rest: seq<byte>, parse: seq<byte> -> Option<Json>)
    requires LineFeed !in line && |line| < BufferSize
    requires |line| > 0 && line[|line| - 1] != CarriageReturn
    requires parse(line) == Some(StatusMessage(layer))
    ensures QueryOutcome(Peer(true, true, line + [LineFeed] + rest), parse) == Returned(Some(layer))
  {
    var received := line + [LineFeed] + rest;
    var buf := ReadBuffer(received);
    if |received| <= BufferSize {
      assert buf == received + seq(BufferSize - |received|, _ => 0);
      assert buf == line + [LineFeed] + (rest + seq(BufferSize - |received|, _ => 0));
      FirstLineOfLines(line, rest + seq(BufferSize - |received|, _ => 0));
    } else {
      assert buf == line + [LineFeed] + received[|line| + 1..BufferSize];
      FirstLineOfLines(line, received[|line| + 1..BufferSize]);
    }
  }

  /** The daemon's network environment and the trace of what the program did
      on its connections. */
  class Network {
    var peers: Ipv4 -> Peer
    var trace: seq<Event>

    constructor (peers: Ipv4 -> Peer)
      ensures this.peers == peers && trace == []
    {
      this.peers := peers;
      trace := [];
    }

    /** `try_layer_change`: a failed connection is ignored; otherwise the
        greeting is read (and its result ignored) before the command is
        written. */
    method TryLayerChange(ip: Ipv4, layer: string)
      modifies this`trace
      ensures trace == old(trace) + ChangeEvents(peers(ip), ip, layer)
    {
      var peer := peers(ip);
      if peer.accepts {
        trace := trace + [Read(ip)];
        trace := trace + [Write(ip, LayerChangeCommand(layer))];
      }
    }

    /** `get_current_layer`. */
    method GetCurrentLayer(ip: Ipv4, parse: seq<byte> -> Option<Json>) returns (r: Outcome<Option<string>>)
      modifies this`trace
      ensures r == QueryOutcome(peers(ip), parse)
      ensures trace == old(trace) + QueryEvents(peers(ip), ip)
    {
      var peer := peers(ip);
      if !peer.accepts {
        return Returned(None);
      }
      trace := trace + [Read(ip)];
      if !peer.readSucceeds {
        return Returned(None);
      }
      var buf := ReadBuffer(peer.received);
      trace := trace + [Write(ip, "{}")];
      r := Interpret(buf, parse);
    }
  }

  // ---------------------------------------------------------------------
  // Roster-wide operations
  // ---------------------------------------------------------------------

  /** The trace of a layer change sent to every client of `clients`, in
      roster order. */
  function BroadcastEvents(clients: seq<Client>, peers: Ipv4 -> Peer, layer: string): (t: seq<Event>)
    ensures |t| <= 2 * |clients| && |t| % 2 == 0
  {
    if clients == [] then []
    else
      var last := clients[|clients| - 1];
      BroadcastEvents(clients[..|clients| - 1], peers, layer) + ChangeEvents(peers(last.address), last.address, layer)
  }

  /** The addresses, in roster order, of the clients whose daemon accepts a
      connection. */
  function Reachable(clients: seq<Client>, peers: Ipv4 -> Peer): (r: seq<Ipv4>)
    ensures |r| <= |clients|
    ensures forall a :: a in r ==> peers(a).accepts && exists c :: c in clients && c.address == a
    ensures forall i :: 0 <= i < |clients| && peers(clients[i].address).accepts ==> clients[i].address in r
  {
    if clients == [] then []
    else
      var last := clients[|clients| - 1];
      Reachable(clients[..|clients| - 1], peers) + (if peers(last.address).accepts then [last.address] else [])
  }

  /** A broadcast makes exactly one attempt per roster client at that client's
      address: for every reachable client a read followed by a write of the
      command, and nothing for the others. */
  lemma {:induction false} BroadcastIsReadWritePairs(clients: seq<Client>, peers: Ipv4 -> Peer, layer: string)
    ensures var t, r := BroadcastEvents(clients, peers, layer), Reachable(clients, peers);
      && |t| == 2 * |r|
      && forall k :: 0 <= k < |r| ==> t[2 * k] == Read(r[k]) && t[2 * k + 1] == Write(r[k], LayerChangeCommand(layer))
  {
    if clients != [] {
      var init := clients[..|clients| - 1];
      var last := clients[|clients| - 1];
      BroadcastIsReadWritePairs(init, peers, layer);
      var t0, r0 := BroadcastEvents(init, peers, layer), Reachable(init, peers);
      var t, r := BroadcastEvents(clients, peers, layer), Reachable(clients, peers);
      if peers(last.address).accepts {
        assert t == t0 + [Read(last.address), Write(last.address, LayerChangeCommand(layer))];
        assert r == r0 + [last.address];
        forall k | 0 <= k < |r|
          ensures t[2 * k] == Read(r[k]) && t[2 * k + 1] == Write(r[k], LayerChangeCommand(layer))
        {
          if k < |r0| {
            assert t[2 * k] == t0[2 * k] && t[2 * k + 1] == t0[2 * k + 1];
          }
        }
      } else {
        assert t == t0 && r == r0;
      }
    }
  }

  /** `try_layer_change_all`: one layer change per roster client, at that
      client's address. */
  method TryLayerChangeAll(shared: SharedData, net: Network, layer: string)
    modifies net`trace
    ensures net.trace == old(net.trace) + BroadcastEvents(shared.clients, net.peers, layer)
  {
    var clients := shared.clients;
    for i := 0 to |clients|
      invariant net.trace == old(net.trace) + BroadcastEvents(clients[..i], net.peers, layer)
    {
      net.TryLayerChange(clients[i].address, layer);
      assert clients[..i + 1][..i] == clients[..i];
    }
    assert clients[..|clients|] == clients;
  }

  /** `enable_keyboards`: every client is asked for the layer "enabled". */
  method EnableKeyboards(shared: SharedData, net: Network)
    modifies net`trace
    ensures net.trace == old(net.trace) + BroadcastEvents(shared.clients, net.peers, "enabled")
  {
    TryLayerChangeAll(shared, net, "enabled");
  }

  /** `disable_keyboards`: every client is asked for the layer "disabled". */
  method DisableKeyboards(shared: SharedData, net: Network)
    modifies net`trace
    ensures net.trace == old(net.trace) + BroadcastEvents(shared.clients, net.peers, "disabled")
  {
    TryLayerChangeAll(shared, net, "disabled");
  }

  /** A client after one refresh: its reported layer is the query result,
      None included; a panicking query leaves it as it was. */
  function Refreshed(c: Client, peer: Peer, parse: seq<byte> -> Option<Json>): (r: Client)
    ensures r.name == c.name && r.address == c.address
  {
    match QueryOutcome(peer, parse)
    case Returned(layer) => c.(currentLayer := layer)
    case Panicked => c
  }

  /** A failed connection or read erases what was known about the client's
      layer; a successful status reply replaces it. */
  lemma RefreshOverwrites(c: Client, peer: Peer, parse: seq<byte> -> Option<Json>)
    ensures !(peer.accepts && peer.readSucceeds) ==> Refreshed(c, peer, parse).currentLayer == None
    ensures QueryOutcome(peer, parse).Returned? ==> Refreshed(c, peer, parse).currentLayer == QueryOutcome(peer, parse).value
    ensures Refreshed(c, peer, parse).currentLayer != c.currentLayer ==> QueryOutcome(peer, parse).Returned?
  {
  }

  /** `update_client`: queries one client and writes the result into its
      `current_layer`; no other client changes. */
  method UpdateClient(shared: SharedData, net: Network, index: nat, parse: seq<byte> -> Option<Json>)
    requires index < |shared.clients|
    modifies shared`clients, net`trace
    ensures shared.clients == old(shared.clients)[index := Refreshed(old(shared.clients)[index], net.peers(old(shared.clients)[index].address), parse)]
    ensures net.trace == old(net.trace) + QueryEvents(net.peers(old(shared.clients)[index].address), old(shared.clients)[index].address)
  {
    var client := shared.clients[index];
    var result := net.GetCurrentLayer(client.address, parse);
    match result
    case Returned(layer) =>
      shared.clients := shared.clients[index := client.(currentLayer := layer)];
    case Panicked =>
  }

  /** The trace of one refresh round over `clients`, in roster order. */
  function RoundEvents(clients: seq<Client>, peers: Ipv4 -> Peer): (t: seq<Event>)
    ensures |t| <= 2 * |clients|
  {
    if clients == [] then []
    else
      var last := clients[|clients| - 1];
      RoundEvents(clients[..|clients| - 1], peers) + QueryEvents(peers(last.address), last.address)
  }

  /** A refresh round touches exactly the reachable clients: each reachable
      address is read, no other address is read or written, and the round
      makes between one and two events per reachable client. */
  lemma {:induction false} RoundTouchesReachable(clients: seq<Client>, peers: Ipv4 -> Peer)
    ensures forall a :: Read(a) in RoundEvents(clients, peers) <==> a in Reachable(clients, peers)
    ensures forall e :: e in RoundEvents(clients, peers) ==>
      (if e.Read? then e.from else e.to) in Reachable(clients, peers)
    ensures |Reachable(clients, peers)| <= |RoundEvents(clients, peers)| <= 2 * |Reachable(clients, peers)|
  {
    if clients != [] {
      RoundTouchesReachable(clients[..|clients| - 1], peers);
    }
  }

  /** `update_clients`: every index of the roster is refreshed exactly once,
      always within bounds. */
  method UpdateClients(shared: SharedData, net: Network, parse: seq<byte> -> Option<Json>)
    modifies shared`clients, net`trace
    ensures |shared.clients| == |old(shared.clients)|
    ensures forall i :: 0 <= i < |shared.clients| ==>
      shared.clients[i] == Refreshed(old(shared.clients)[i], net.peers(old(shared.clients)[i].address), parse)
    ensures net.trace == old(net.trace) + RoundEvents(old(shared.clients), net.peers)
  {
    ghost var before := shared.clients;
    for i := 0 to |shared.clients|
      invariant |shared.clients| == |before|
      invariant forall j :: 0 <= j < i ==> shared.clients[j] == Refreshed(before[j], net.peers(before[j].address), parse)
      invariant forall j :: i <= j < |before| ==> shared.clients[j] == before[j]
      invariant net.trace == old(net.trace) + RoundEvents(before[..i], net.peers)
    {
      assert shared.clients[i] == before[i];
      UpdateClient(shared, net, i, parse);
      assert before[..i + 1][..i] == before[..i];
      assert RoundEvents(before[..i + 1], net.peers)
        == RoundEvents(before[..i], net.peers) + QueryEvents(net.peers(before[i].address), before[i].address);
    }
    assert before[..|before|] == before;
  }

  /** Two clients, A at 10.0.0.1 whose daemon reports "enabled" and B at
      10.0.0.2 that cannot be reached: after one refresh round A is on
      "enabled" and B is unknown, whatever was known of them before. */
  method RefreshScenario(line: seq<byte>, parse: seq<byte> -> Option<Json>, knownA: Option<string>, knownB: Option<string>)
    returns (layerA: Option<string>, layerB: Option<string>)
    requires LineFeed !in line && 0 < |line| < BufferSize && line[|line| - 1] != CarriageReturn
    requires parse(line) == Some(StatusMessage("enabled"))
    ensures layerA == Some("enabled")
    ensures layerB == None
  {
    var a, b := Ipv4(10, 0, 0, 1), Ipv4(10, 0, 0, 2);
    var greeting := line + [LineFeed];
    var net := new Network(ip => if ip == a then Peer(true, true, greeting) else Peer(false, false, []));
    var shared := new SharedData([Client("A", a, knownA), Client("B", b, knownB)]);
    QueryReportsStatus("enabled", line, [], parse);
    assert line + [LineFeed] + [] == greeting;
    UpdateClients(shared, net, parse);
    layerA := shared.clients[0].currentLayer;
    layerB := shared.clients[1].currentLayer;
  }
}
