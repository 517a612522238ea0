/**
 * Choosing the roster of an exam room from the configuration: the room must
 * be named exactly once, and every one of its host names must resolve to an
 * IPv4 address, or there is no roster at all.
 *
 * Name resolution is a parameter `lookup`: given "host:80" it returns the
 * socket addresses the system resolver yields, or None when the lookup fails
 * (the program then panics in `unwrap`).
 */
module InputParser {
  import opened Common
  import opened SharedState

  /** One exam room of the configuration. */
  datatype Room = Room(name: string, domain: string, clientHostnames: seq<string>)

  /** The configuration file's content. */
  datatype Config = Config(
    timerPort: int,
    timerDurationMinutes: int,
    timerWebpageRefreshSeconds: int,
    timerWebpageRefreshUnstartedSeconds: int,
    kanataClientScanIntervalSeconds: int,
    kanataTcpTimeoutMs: int,
    kanataPort: int,
    rooms: seq<Room>)

  /** A resolved socket address; only the IPv4 kind carries an address the
      program uses. */
  datatype SocketAddr = V4(ip: Ipv4, port: int) | V6(port: int)

  /** The first IPv4 address of a resolver answer, if there is one. */
  function FirstIpv4(addrs: seq<SocketAddr>): (r: Option<Ipv4>)
    ensures r.None? <==> forall i :: 0 <= i < |addrs| ==> addrs[i].V6?
    ensures r.Some? ==> exists i :: 0 <= i < |addrs| && addrs[i] == V4(r.value, addrs[i].port) && forall j :: 0 <= j < i ==> addrs[j].V6?
  {
    if addrs == [] then None
    else if addrs[0].V4? then Some(addrs[0].ip)
    else
      var r := FirstIpv4(addrs[1..]);
      assert r.Some? ==> exists i :: 0 < i < |addrs| && addrs[i] == V4(r.value, addrs[i].port) && forall j :: 0 <= j < i ==> addrs[j].V6? by {
        if r.Some? {
          var k :| 0 <= k < |addrs[1..]| && addrs[1..][k] == V4(r.value, addrs[1..][k].port) && forall j :: 0 <= j < k ==> addrs[1..][j].V6?;
          assert forall j :: 0 <= j < k + 1 ==> addrs[j].V6? by {
            forall j | 0 <= j < k + 1 ensures addrs[j].V6? {
              if j > 0 { assert addrs[j] == addrs[1..][j - 1]; }
            }
          }
        }
      }
      r
  }

  /** `resolve_ipv4_addr` as a value: a panic when the lookup fails, else the
      first IPv4 address of the answer. */
  function Resolve(hostname: string, lookup: string -> Option<seq<SocketAddr>>): (r: Outcome<Option<Ipv4>>)
    ensures r.Panicked? <==> lookup(hostname + ":80").None?
    ensures r.Returned? ==> r.value == FirstIpv4(lookup(hostname + ":80").value)
    ensures r == Returned(None) <==>
      lookup(hostname + ":80").Some? && forall i :: 0 <= i < |lookup(hostname + ":80").value| ==> lookup(hostname + ":80").value[i].V6?
  {
    match lookup(hostname + ":80")
    case None => Panicked
    case Some(addrs) => Returned(FirstIpv4(addrs))
  }

  /** `resolve_ipv4_addr`: looks up "hostname:80" and returns the first IPv4
      address of the answer. */
  method ResolveIpv4Addr(hostname: string, lookup: string -> Option<seq<SocketAddr>>) returns (r: Outcome<Option<Ipv4>>)
    ensures lookup(hostname + ":80").None? ==> r.Panicked?
    ensures lookup(hostname + ":80").Some? ==> r == Returned(FirstIpv4(lookup(hostname + ":80").value))
    ensures r == Resolve(hostname, lookup)
  {
    var answer := lookup(hostname + ":80");
    if answer.None? {
      return Panicked;
    }
    var addresses := answer.value;
    for i := 0 to |addresses|
      invariant forall j :: 0 <= j < i ==> addresses[j].V6?
    {
      if addresses[i].V4? {
        FirstIpv4Position(addresses, i);
        return Returned(Some(addresses[i].ip));
      }
    }
    return Returned(None);
  }

  /** An IPv4 entry preceded only by IPv6 entries is the first IPv4 address. */
  lemma FirstIpv4Position(addrs: seq<SocketAddr>, i: nat)
    requires i < |addrs| && addrs[i].V4?
    requires forall j :: 0 <= j < i ==> addrs[j].V6?
    ensures FirstIpv4(addrs) == Some(addrs[i].ip)
  {
    var r := FirstIpv4(addrs);
    var k :| 0 <= k < |addrs| && addrs[k] == V4(r.value, addrs[k].port) && forall j :: 0 <= j < k ==> addrs[j].V6?;
    assert !(k < i) && !(i < k);
  }

  /** A host name resolves when its lookup succeeds and yields an IPv4 address. */
  predicate Resolves(hostname: string, lookup: string -> Option<seq<SocketAddr>>)
  {
    Resolve(hostname, lookup).Returned? && Resolve(hostname, lookup).value.Some?
  }

  /** The host names of a room, each paired with the address of its full name
      `short + domain`, collected lazily: resolution stops at the first name
      without an IPv4 address, whose result is None, or at the first failed
      lookup, which panics. */
  function ResolveAll(hostnames: seq<string>, domain: string, lookup: string -> Option<seq<SocketAddr>>): (r: Outcome<Option<seq<(string, Ipv4)>>>)
    ensures r == Returned(None) || r.Panicked? ==>
      exists i :: 0 <= i < |hostnames| && !Resolves(hostnames[i] + domain, lookup)
        && (forall j :: 0 <= j < i ==> Resolves(hostnames[j] + domain, lookup))
        && (r.Panicked? <==> Resolve(hostnames[i] + domain, lookup).Panicked?)
    ensures r.Returned? && r.value.Some? ==>
      && |r.value.value| == |hostnames|
      && forall i :: 0 <= i < |hostnames| ==>
           r.value.value[i].0 == hostnames[i] && Resolve(hostnames[i] + domain, lookup) == Returned(Some(r.value.value[i].1))
  {
    if hostnames == [] then Returned(Some([]))
    else
      match Resolve(hostnames[0] + domain, lookup)
      case Panicked => Panicked
      case Returned(None) => Returned(None)
      case Returned(Some(ip)) =>
        var rest := ResolveAll(hostnames[1..], domain, lookup);
        assert forall i :: 0 < i < |hostnames| ==> hostnames[i] == hostnames[1..][i - 1];
        match rest
        case Panicked =>
          ShiftFailure(hostnames, domain, lookup, rest);
          Panicked
        case Returned(None) =>
          ShiftFailure(hostnames, domain, lookup, rest);
          Returned(None)
        case Returned(Some(pairs)) => Returned(Some([(hostnames[0], ip)] + pairs))
  }

  /** A failure among the later host names is a failure of the whole list
      once the first host name resolved. */
  lemma ShiftFailure(hostnames: seq<string>, domain: string, lookup: string -> Option<seq<SocketAddr>>, rest: Outcome<Option<seq<(string, Ipv4)>>>)
    requires hostnames != [] && Resolves(hostnames[0] + domain, lookup)
    requires exists i :: (0 <= i < |hostnames[1..]| && !Resolves(hostnames[1..][i] + domain, lookup)
        && (forall j :: 0 <= j < i ==> Resolves(hostnames[1..][j] + domain, lookup))
        && (rest.Panicked? <==> Resolve(hostnames[1..][i] + domain, lookup).Panicked?))
    ensures exists i :: (0 <= i < |hostnames| && !Resolves(hostnames[i] + domain, lookup)
        && (forall j :: 0 <= j < i ==> Resolves(hostnames[j] + domain, lookup))
        && (rest.Panicked? <==> Resolve(hostnames[i] + domain, lookup).Panicked?))
  {
    var i :| 0 <= i < |hostnames[1..]| && !Resolves(hostnames[1..][i] + domain, lookup)
        && (forall j :: 0 <= j < i ==> Resolves(hostnames[1..][j] + domain, lookup))
        && (rest.Panicked? <==> Resolve(hostnames[1..][i] + domain, lookup).Panicked?);
    assert hostnames[i + 1] == hostnames[1..][i];
    forall j | 0 <= j < i + 1 ensures Resolves(hostnames[j] + domain, lookup) {
      if j > 0 { assert hostnames[j] == hostnames[1..][j - 1]; }
    }
  }

  /** Resolution is all-or-nothing: the host names yield a list exactly when
      every one of them resolves. */
  lemma {:induction false} ResolveAllSucceedsExactly(hostnames: seq<string>, domain: string, lookup: string -> Option<seq<SocketAddr>>)
    ensures (ResolveAll(hostnames, domain, lookup).Returned? && ResolveAll(hostnames, domain, lookup).value.Some?)
        <==> forall i :: 0 <= i < |hostnames| ==> Resolves(hostnames[i] + domain, lookup)
  {
    if hostnames != [] {
      ResolveAllSucceedsExactly(hostnames[1..], domain, lookup);
      assert forall i :: 0 < i < |hostnames| ==> hostnames[i] == hostnames[1..][i - 1];
    }
  }

  /** The clients of one room: `Client::new(short_name, address)` for every
      host name, in configuration order, or nothing when some name does not
      resolve. */
  function RoomRoster(room: Room, lookup: string -> Option<seq<SocketAddr>>): (r: Outcome<Option<seq<Client>>>)
    ensures r.Returned? && r.value.Some? ==>
      && |r.value.value| == |room.clientHostnames|
      && forall i :: 0 <= i < |room.clientHostnames| ==>
           && r.value.value[i].name == room.clientHostnames[i]
           && Resolve(room.clientHostnames[i] + room.domain, lookup) == Returned(Some(r.value.value[i].address))
           && r.value.value[i].currentLayer == None
    ensures (r.Returned? && r.value.Some?) <==>
      forall i :: 0 <= i < |room.clientHostnames| ==> Resolves(room.clientHostnames[i] + room.domain, lookup)
  {
    ResolveAllSucceedsExactly(room.clientHostnames, room.domain, lookup);
    match ResolveAll(room.clientHostnames, room.domain, lookup)
    case Panicked => Panicked
    case Returned(None) => Returned(None)
    case Returned(Some(pairs)) =>
      Returned(Some(seq(|pairs|, i requires 0 <= i < |pairs| => Client(pairs[i].0, pairs[i].1, None))))
  }

  /** The rooms called `name`, in configuration order. */
  function RoomsNamed(rooms: seq<Room>, name: string): (r: seq<Room>)
    ensures forall k :: 0 <= k < |r| ==> r[k].name == name && r[k] in rooms
    ensures forall i :: 0 <= i < |rooms| && rooms[i].name == name ==> rooms[i] in r
  {
    if rooms == [] then []
    else
      var rest := RoomsNamed(rooms[1..], name);
      assert forall i :: 0 < i < |rooms| ==> rooms[i] == rooms[1..][i - 1];
      if rooms[0].name == name then [rooms[0]] + rest else rest
  }

  /** With no room called `name` the filter is empty. */
  lemma {:induction false} NoRoomNamed(rooms: seq<Room>, name: string)
    requires forall i :: 0 <= i < |rooms| ==> rooms[i].name != name
    ensures RoomsNamed(rooms, name) == []
  {
    if rooms != [] {
      assert forall i :: 0 < i < |rooms| ==> rooms[i] == rooms[1..][i - 1];
      NoRoomNamed(rooms[1..], name);
    }
  }

  /** With exactly one room called `name` the filter holds only that room. */
  lemma {:induction false} OneRoomNamed(rooms: seq<Room>, name: string, i: int)
    requires UniquelyNamed(rooms, name, i)
    ensures RoomsNamed(rooms, name) == [rooms[i]]
  {
    assert forall k :: 0 < k < |rooms| ==> rooms[k] == rooms[1..][k - 1];
    if i == 0 {
      NoRoomNamed(rooms[1..], name);
    } else {
      OneRoomNamed(rooms[1..], name, i - 1);
    }
  }

  /** With two rooms called `name` the filter holds at least two rooms. */
  lemma {:induction false} TwoRoomsNamed(rooms: seq<Room>, name: string, i: int, j: int)
    requires 0 <= i < j < |rooms| && rooms[i].name == name && rooms[j].name == name
    ensures |RoomsNamed(rooms, name)| >= 2
  {
    assert forall k :: 0 < k < |rooms| ==> rooms[k] == rooms[1..][k - 1];
    if i == 0 {
      assert rooms[1..][j - 1] in RoomsNamed(rooms[1..], name);
    } else {
      TwoRoomsNamed(rooms[1..], name, i - 1, j - 1);
    }
  }

  /** Room `i` is the only room called `name`. */
  predicate UniquelyNamed(rooms: seq<Room>, name: string, i: int)
  {
    0 <= i < |rooms| && rooms[i].name == name
    && forall j :: 0 <= j < |rooms| && rooms[j].name == name ==> j == i
  }

  /** `get_ip_addresses_of_room`: the roster of the one room called
      `roomName`; nothing when no room or more than one room has that name. */
  function GetIpAddressesOfRoom(roomName: string, config: Config, lookup: string -> Option<seq<SocketAddr>>): (r: Outcome<Option<seq<Client>>>)
    ensures (forall i :: !UniquelyNamed(config.rooms, roomName, i)) ==> r == Returned(None)
    ensures forall i :: UniquelyNamed(config.rooms, roomName, i) ==> r == RoomRoster(config.rooms[i], lookup)
  {
    var matching := RoomsNamed(config.rooms, roomName);
    if |matching| == 1 then
      assert forall i :: UniquelyNamed(config.rooms, roomName, i) ==> matching[0] == config.rooms[i] by {
        forall i | UniquelyNamed(config.rooms, roomName, i) ensures matching[0] == config.rooms[i] {
          OneRoomNamed(config.rooms, roomName, i);
        }
      }
      assert exists i :: UniquelyNamed(config.rooms, roomName, i) by {
        var i :| 0 <= i < |config.rooms| && config.rooms[i] == matching[0];
        forall j | 0 <= j < |config.rooms| && config.rooms[j].name == roomName ensures j == i {
          if j < i {
            TwoRoomsNamed(config.rooms, roomName, j, i);
          } else if i < j {
            TwoRoomsNamed(config.rooms, roomName, i, j);
          }
        }
        assert UniquelyNamed(config.rooms, roomName, i);
      }
      RoomRoster(matching[0], lookup)
    else
      assert forall i :: !UniquelyNamed(config.rooms, roomName, i) by {
        forall i | UniquelyNamed(config.rooms, roomName, i) ensures false {
          OneRoomNamed(config.rooms, roomName, i);
        }
      }
      Returned(None)
  }
}
