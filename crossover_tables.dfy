/**
 * The relational state behind cross-channel relaying, as plain values:
 * rooms, directed connections and origin-to-clone message mappings, with
 * the read-only queries the relay command runs over them. The stateful
 * commands that append rows live in module Crossover.
 */
module CrossoverTables {
  import opened Wrappers

  type GuildId = nat
  type ChannelId = nat
  type MessageId = nat
  type UserId = nat
  /** A room's primary key; the text the user types to `connect`. */
  type RoomCode = nat
  type ConnId = nat

  /** The channel kinds a guild can hold; only text channels and threads take part in relaying. */
  datatype ChannelKind = TextChannel | Thread | VoiceChannel | StageChannel | ForumChannel | CategoryChannel

  predicate Accepted(k: ChannelKind) {
    k == TextChannel || k == Thread
  }

  /** A (guild, channel) pair. */
  datatype Endpoint = Endpoint(guild: GuildId, channel: ChannelId)

  /** A published room, anchored to one channel. */
  datatype Room = Room(id: RoomCode, at: Endpoint)

  /** A directed relay edge: messages posted at `source` are copied to `target`. */
  datatype Connection = Connection(id: ConnId, room: RoomCode, source: Endpoint, target: Endpoint)

  /** One clone of one origin message, produced through one connection. */
  datatype Mapping = Mapping(conn: ConnId, origin: MessageId, clone: MessageId)

  /** The guilds and channels the bot can currently see, with each channel's kind. */
  type Directory = map<GuildId, map<ChannelId, ChannelKind>>

  /** A relayed copy as posted by the bot: the embed's description and its decoration. */
  datatype Relayed = Relayed(at: Endpoint, description: string, author: string, footer: string)

  /** The guild and channel lookup: `None` when either the guild or the channel is gone. */
  function Lookup(dir: Directory, e: Endpoint): (r: Option<ChannelKind>)
    ensures r.Some? <==> e.guild in dir && e.channel in dir[e.guild]
  {
    if e.guild in dir && e.channel in dir[e.guild] then Some(dir[e.guild][e.channel]) else None
  }

  /** The endpoint resolves to a live text channel or thread, as the fetches of `connect` find it. */
  predicate Resolves(dir: Directory, e: Endpoint) {
    var k := Lookup(dir, e);
    k.Some? && Accepted(k.value)
  }

  /**
   * The endpoint passes the relay's lookup: a guild's channel lookup does
   * not search threads, so of the accepted kinds only a text channel is found.
   */
  predicate Relayable(dir: Directory, e: Endpoint) {
    Lookup(dir, e) == Some(TextChannel)
  }

  // ---------------------------------------------------------------------
  // find_first

  /** The index of the first element satisfying `p`, as a `find_first` query returns the first matching row. */
  function FindFirst<T>(s: seq<T>, p: T -> bool): (r: Option<nat>)
    ensures r.Some? ==> r.value < |s| && p(s[r.value]) && forall j :: 0 <= j < r.value ==> !p(s[j])
    ensures r.None? ==> forall j :: 0 <= j < |s| ==> !p(s[j])
  {
    if s == [] then None
    else if p(s[0]) then Some(0)
    else match FindFirst(s[1..], p)
      case None => None
      case Some(i) => Some(i + 1)
  }

  /** The room published for channel `at`, if any. */
  function FindRoom(rooms: seq<Room>, at: Endpoint): (r: Option<Room>)
    ensures r.Some? ==> r.value in rooms && r.value.at == at
    ensures r.None? <==> forall i :: 0 <= i < |rooms| ==> rooms[i].at != at
  {
    match FindFirst(rooms, (room: Room) => room.at == at)
    case None => None
    case Some(i) => Some(rooms[i])
  }

  /** The room with code `code`, if any. */
  function FindRoomByCode(rooms: seq<Room>, code: RoomCode): (r: Option<Room>)
    ensures r.Some? ==> r.value in rooms && r.value.id == code
    ensures r.None? <==> forall i :: 0 <= i < |rooms| ==> rooms[i].id != code
  {
    match FindFirst(rooms, (room: Room) => room.id == code)
    case None => None
    case Some(i) => Some(rooms[i])
  }

  // ---------------------------------------------------------------------
  // Table invariants

  /** Each channel has at most one room, and room codes are unique and below the id counter. */
  predicate RoomsValid(rooms: seq<Room>, nextId: nat) {
    (forall i :: 0 <= i < |rooms| ==> rooms[i].id < nextId)
    && (forall i, j :: 0 <= i < j < |rooms| ==> rooms[i].id != rooms[j].id && rooms[i].at != rooms[j].at)
  }

  /** Connection ids are unique and below the counter, no edge is a self-loop, no edge is stored twice, and every edge names an existing room. */
  predicate ConnectionsValid(rooms: seq<Room>, conns: seq<Connection>, nextId: nat) {
    (forall i :: 0 <= i < |conns| ==>
       conns[i].id < nextId && conns[i].source != conns[i].target && FindRoomByCode(rooms, conns[i].room).Some?)
    && (forall i, j :: 0 <= i < j < |conns| ==>
          conns[i].id != conns[j].id && (conns[i].source != conns[j].source || conns[i].target != conns[j].target))
  }

  /** Every mapping row belongs to an existing connection. */
  predicate MappingsValid(conns: seq<Connection>, maps: seq<Mapping>) {
    forall k :: 0 <= k < |maps| ==> exists i :: 0 <= i < |conns| && conns[i].id == maps[k].conn
  }

  predicate TablesValid(rooms: seq<Room>, conns: seq<Connection>, maps: seq<Mapping>, nextId: nat) {
    RoomsValid(rooms, nextId) && ConnectionsValid(rooms, conns, nextId) && MappingsValid(conns, maps)
  }

  // ---------------------------------------------------------------------
  // Publishing a room (find-or-create keyed on the channel)

  datatype Published = Published(rooms: seq<Room>, code: RoomCode, nextId: nat)

  /** The room table after publishing channel `here`, and the code reported to the user. */
  function Publish(rooms: seq<Room>, nextId: nat, here: Endpoint): (p: Published)
    ensures FindRoom(rooms, here).Some? ==> p == Published(rooms, FindRoom(rooms, here).value.id, nextId)
    ensures FindRoom(rooms, here).None? ==> p == Published(rooms + [Room(nextId, here)], nextId, nextId + 1)
  {
    match FindRoom(rooms, here)
    case Some(room) => Published(rooms, room.id, nextId)
    case None => Published(rooms + [Room(nextId, here)], nextId, nextId + 1)
  }

  /** After publishing, looking the channel up finds exactly the room whose code was reported. */
  lemma PublishFindsReportedRoom(rooms: seq<Room>, nextId: nat, here: Endpoint)
    ensures var p := Publish(rooms, nextId, here);
            FindRoom(p.rooms, here) == Some(Room(p.code, here))
  {
    var p := Publish(rooms, nextId, here);
    if FindRoom(rooms, here).None? {
      assert p.rooms[|rooms|] == Room(nextId, here);
      assert forall i :: 0 <= i < |rooms| ==> p.rooms[i].at != here;
    }
  }

  /** Publishing the same channel twice reports the same code and adds no second room. */
  lemma PublishIdempotent(rooms: seq<Room>, nextId: nat, here: Endpoint)
    ensures var p := Publish(rooms, nextId, here);
            Publish(p.rooms, p.nextId, here) == p
  {
    PublishFindsReportedRoom(rooms, nextId, here);
  }

  /** Publishing keeps at most one room per channel and unique codes. */
  lemma PublishKeepsRoomsValid(rooms: seq<Room>, nextId: nat, here: Endpoint)
    requires RoomsValid(rooms, nextId)
    ensures var p := Publish(rooms, nextId, here);
            RoomsValid(p.rooms, p.nextId) && p.nextId >= nextId
            && (forall i :: 0 <= i < |rooms| ==> p.rooms[i] == rooms[i])
  {
  }

  /** Publishing keeps every table invariant: existing edges still name existing rooms. */
  lemma PublishKeepsTablesValid(rooms: seq<Room>, conns: seq<Connection>, maps: seq<Mapping>, nextId: nat, here: Endpoint)
    requires TablesValid(rooms, conns, maps, nextId)
    ensures var p := Publish(rooms, nextId, here);
            TablesValid(p.rooms, conns, maps, p.nextId)
  {
    var p := Publish(rooms, nextId, here);
    PublishKeepsRoomsValid(rooms, nextId, here);
    forall i | 0 <= i < |conns|
      ensures FindRoomByCode(p.rooms, conns[i].room).Some?
    {
      var room := FindRoomByCode(rooms, conns[i].room).value;
      var k :| 0 <= k < |rooms| && rooms[k] == room;
      assert p.rooms[k] == room;
    }
  }

  // ---------------------------------------------------------------------
  // Connection existence

  /** A directed edge from `a` to `b` is stored. */
  function HasEdge(conns: seq<Connection>, a: Endpoint, b: Endpoint): (r: bool)
    ensures r <==> exists i :: 0 <= i < |conns| && conns[i].source == a && conns[i].target == b
  {
    FindFirst(conns, (c: Connection) => c.source == a && c.target == b).Some?
  }

  /** The two endpoints are linked in at least one direction. */
  function IsConnected(conns: seq<Connection>, a: Endpoint, b: Endpoint): (r: bool)
    ensures r <==> exists i :: 0 <= i < |conns| &&
                     ((conns[i].source == a && conns[i].target == b) || (conns[i].source == b && conns[i].target == a))
  {
    HasEdge(conns, a, b) || HasEdge(conns, b, a)
  }

  /** The connection check does not depend on the order of its endpoints. */
  lemma IsConnectedSymmetric(conns: seq<Connection>, a: Endpoint, b: Endpoint)
    ensures IsConnected(conns, a, b) == IsConnected(conns, b, a)
  {
  }

  // ---------------------------------------------------------------------
  // Connecting to a room

  datatype ConnectOutcome =
    | Linked(that: Endpoint)   // both edges created
    | RoomNotFound             // "Room code does not exist!"
    | TargetUnreachable        // the room's guild or channel cannot be fetched or is not text/thread: the command raises
    | WrongChannelType         // "You are not inside our accepted channel type (Text/Thread)."
    | AlreadyConnected         // "Already connected!"
    | SelfConnect              // "Don't connect to yourself!"

  /** The decision `connect` takes, in the order its checks run. */
  function ConnectDecision(rooms: seq<Room>, conns: seq<Connection>, dir: Directory,
                           here: Endpoint, hereKind: ChannelKind, code: RoomCode): (r: ConnectOutcome)
    ensures r.Linked? <==>
              FindRoomByCode(rooms, code).Some? && Accepted(hereKind)
              && Resolves(dir, FindRoomByCode(rooms, code).value.at)
              && !IsConnected(conns, here, FindRoomByCode(rooms, code).value.at)
              && FindRoomByCode(rooms, code).value.at != here
    ensures r.Linked? ==> r.that == FindRoomByCode(rooms, code).value.at
    ensures r == RoomNotFound <==> FindRoomByCode(rooms, code).None?
  {
    match FindRoomByCode(rooms, code)
    case None => RoomNotFound
    case Some(room) =>
      var thatKind := Lookup(dir, room.at);
      if thatKind.None? then TargetUnreachable
      else if !Accepted(hereKind) then WrongChannelType
      else if !Accepted(thatKind.value) then TargetUnreachable
      else if IsConnected(conns, here, room.at) then AlreadyConnected
      else if room.at == here then SelfConnect
      else Linked(room.at)
  }

  /** The two rows a successful `connect` appends: this-to-that, then that-to-this, both in room `code`. */
  function LinkRows(nextId: nat, code: RoomCode, here: Endpoint, that: Endpoint): seq<Connection> {
    [Connection(nextId, code, here, that), Connection(nextId + 1, code, that, here)]
  }

  /** After a successful `connect`, the two endpoints count as connected in both argument orders. */
  lemma {:induction false} LinkConnects(conns: seq<Connection>, nextId: nat, code: RoomCode, here: Endpoint, that: Endpoint)
    ensures var after := conns + LinkRows(nextId, code, here, that);
            HasEdge(after, here, that) && HasEdge(after, that, here)
            && IsConnected(after, here, that) && IsConnected(after, that, here)
  {
    var after := conns + LinkRows(nextId, code, here, that);
    assert after[|conns|].source == here && after[|conns|].target == that;
    assert after[|conns| + 1].source == that && after[|conns| + 1].target == here;
  }

  /** Appending the two rows of a successful `connect` keeps the tables valid: the new edges are fresh, distinct, not self-loops and not duplicates. */
  lemma LinkKeepsTablesValid(rooms: seq<Room>, conns: seq<Connection>, maps: seq<Mapping>, nextId: nat,
                             code: RoomCode, here: Endpoint, that: Endpoint)
    requires TablesValid(rooms, conns, maps, nextId)
    requires FindRoomByCode(rooms, code).Some? && here != that && !IsConnected(conns, here, that)
    ensures TablesValid(rooms, conns + LinkRows(nextId, code, here, that), maps, nextId + 2)
  {
    var after := conns + LinkRows(nextId, code, here, that);
    assert forall i :: 0 <= i < |conns| ==> after[i] == conns[i];
    assert after[|conns|] == Connection(nextId, code, here, that);
    assert after[|conns| + 1] == Connection(nextId + 1, code, that, here);
    forall i, j | 0 <= i < j < |after|
      ensures after[i].id != after[j].id && (after[i].source != after[j].source || after[i].target != after[j].target)
    {
      if j < |conns| {
        assert after[i] == conns[i] && after[j] == conns[j];
      } else if i < |conns| {
        assert after[i] == conns[i];
      }
    }
    forall k | 0 <= k < |maps|
      ensures exists i :: 0 <= i < |after| && after[i].id == maps[k].conn
    {
      var i :| 0 <= i < |conns| && conns[i].id == maps[k].conn;
      assert after[i] == conns[i];
    }
  }

  /** Connecting a channel to its own room is always refused as a self-connection when the tables are valid (valid tables hold no self-loop, so the earlier already-connected check cannot fire). */
  lemma SelfConnectRejected(rooms: seq<Room>, conns: seq<Connection>, dir: Directory,
                            here: Endpoint, hereKind: ChannelKind, code: RoomCode, nextId: nat)
    requires ConnectionsValid(rooms, conns, nextId)
    requires FindRoomByCode(rooms, code).Some? && FindRoomByCode(rooms, code).value.at == here
    requires Resolves(dir, here) && Accepted(hereKind)
    ensures ConnectDecision(rooms, conns, dir, here, hereKind, code) == SelfConnect
  {
  }

  /** The already-connected check runs before the self-connection check: a stored self-loop would report AlreadyConnected. */
  lemma AlreadyConnectedCheckedFirst(rooms: seq<Room>, conns: seq<Connection>, dir: Directory,
                                     here: Endpoint, hereKind: ChannelKind, code: RoomCode)
    requires FindRoomByCode(rooms, code).Some? && FindRoomByCode(rooms, code).value.at == here
    requires Resolves(dir, here) && Accepted(hereKind)
    requires HasEdge(conns, here, here)
    ensures ConnectDecision(rooms, conns, dir, here, hereKind, code) == AlreadyConnected
  {
  }

  /** Duplicate detection is symmetric: with an edge from A to B stored, B connecting to A's room and A connecting to B's room are both refused as AlreadyConnected. */
  lemma DuplicateDetectedBothWays(rooms: seq<Room>, conns: seq<Connection>, dir: Directory,
                                  a: Endpoint, b: Endpoint, kindA: ChannelKind, kindB: ChannelKind,
                                  codeA: RoomCode, codeB: RoomCode)
    requires HasEdge(conns, a, b)
    requires FindRoomByCode(rooms, codeA) == Some(Room(codeA, a)) && FindRoomByCode(rooms, codeB) == Some(Room(codeB, b))
    requires Resolves(dir, a) && Resolves(dir, b) && Accepted(kindA) && Accepted(kindB)
    ensures ConnectDecision(rooms, conns, dir, b, kindB, codeA) == AlreadyConnected
    ensures ConnectDecision(rooms, conns, dir, a, kindA, codeB) == AlreadyConnected
  {
  }

  // ---------------------------------------------------------------------
  // Destination resolution for relaying

  /** The outbound edges of `here` whose target is still found as a text channel, in table order. */
  function Destinations(conns: seq<Connection>, dir: Directory, here: Endpoint): (r: seq<Connection>)
    ensures |r| <= |conns|
  {
    if conns == [] then [] else Relays(conns[0], dir, here) + Destinations(conns[1..], dir, here)
  }

  /** The connection as a destination of `here`: itself when it leaves `here` towards a found target, else nothing. */
  function Relays(c: Connection, dir: Directory, here: Endpoint): seq<Connection> {
    if c.source == here && Relayable(dir, c.target) then [c] else []
  }

  /** A connection is a destination exactly when it is an outbound edge of `here` whose target is found. */
  lemma {:induction false} DestinationsMembers(conns: seq<Connection>, dir: Directory, here: Endpoint)
    ensures forall c :: c in Destinations(conns, dir, here) <==> c in conns && c.source == here && Relayable(dir, c.target)
  {
    if conns != [] {
      DestinationsMembers(conns[1..], dir, here);
      assert forall c :: c in conns <==> c == conns[0] || c in conns[1..];
    }
  }

  /** Each destination is a row of the table. */
  lemma DestinationsInTable(conns: seq<Connection>, dir: Directory, here: Endpoint)
    ensures forall k :: 0 <= k < |Destinations(conns, dir, here)| ==> Destinations(conns, dir, here)[k] in conns
  {
    DestinationsMembers(conns, dir, here);
  }

  /** A connection into a thread is one `connect` accepts, yet the relay never posts to it. */
  lemma ThreadTargetNeverRelayed(conns: seq<Connection>, dir: Directory, here: Endpoint, c: Connection)
    requires c in conns && c.source == here && Lookup(dir, c.target) == Some(Thread)
    ensures Resolves(dir, c.target)
    ensures c !in Destinations(conns, dir, here)
  {
    DestinationsMembers(conns, dir, here);
  }

  /** Destination resolution keeps table order: it distributes over concatenation. */
  lemma {:induction false} DestinationsAppend(a: seq<Connection>, b: seq<Connection>, dir: Directory, here: Endpoint)
    ensures Destinations(a + b, dir, here) == Destinations(a, dir, here) + Destinations(b, dir, here)
  {
    if a == [] {
      assert a + b == b;
    } else {
      var c, rest := a[0], a[1..];
      assert a == [c] + rest;
      assert a + b == [c] + (rest + b);
      DestinationsCons(c, rest, dir, here);
      DestinationsCons(c, rest + b, dir, here);
      DestinationsAppend(rest, b, dir, here);
      var head, dr, db := Relays(c, dir, here), Destinations(rest, dir, here), Destinations(b, dir, here);
      assert head + (dr + db) == (head + dr) + db;
    }
  }

  /** Destinations of a table with one more row in front. */
  lemma DestinationsCons(c: Connection, rest: seq<Connection>, dir: Directory, here: Endpoint)
    ensures Destinations([c] + rest, dir, here) == Relays(c, dir, here) + Destinations(rest, dir, here)
  {
    assert ([c] + rest)[1..] == rest;
  }

  /** No two connections share an id, as the table's primary key guarantees. */
  predicate UniqueIds(conns: seq<Connection>) {
    forall i, j :: 0 <= i < j < |conns| ==> conns[i].id != conns[j].id
  }

  /** Valid tables have unique connection ids, so the round trip below applies to them. */
  lemma ValidTablesHaveUniqueIds(rooms: seq<Room>, conns: seq<Connection>, maps: seq<Mapping>, nextId: nat)
    requires TablesValid(rooms, conns, maps, nextId)
    ensures UniqueIds(conns)
  {
  }

  /** Destinations are a sub-list of the table, so their ids stay unique. */
  lemma {:induction false} DestinationsUniqueIds(conns: seq<Connection>, dir: Directory, here: Endpoint)
    requires UniqueIds(conns)
    ensures UniqueIds(Destinations(conns, dir, here))
  {
    if conns != [] {
      var rest := conns[1..];
      assert UniqueIds(rest) by {
        forall i, j | 0 <= i < j < |rest| ensures rest[i].id != rest[j].id {
          assert rest[i] == conns[i + 1] && rest[j] == conns[j + 1];
        }
      }
      DestinationsUniqueIds(rest, dir, here);
      DestinationsMembers(rest, dir, here);
      var dr := Destinations(rest, dir, here);
      if conns[0].source == here && Relayable(dir, conns[0].target) {
        var d := [conns[0]] + dr;
        forall i, j | 0 <= i < j < |d| ensures d[i].id != d[j].id {
          if i == 0 {
            assert d[j] == dr[j - 1] && dr[j - 1] in rest;
            var m :| 0 <= m < |rest| && rest[m] == dr[j - 1];
            assert conns[m + 1] == d[j];
          } else {
            assert d[i] == dr[i - 1] && d[j] == dr[j - 1];
          }
        }
        assert Destinations(conns, dir, here) == d;
      } else {
        assert Destinations(conns, dir, here) == [] + dr;
      }
    }
  }

  /** Three outbound edges whose second target has disappeared resolve to the first and third only. */
  lemma SkipsVanishedDestination(c1: Connection, c2: Connection, c3: Connection, dir: Directory, here: Endpoint)
    requires c1.source == here && c2.source == here && c3.source == here
    requires Relayable(dir, c1.target) && Lookup(dir, c2.target).None? && Relayable(dir, c3.target)
    ensures Destinations([c1, c2, c3], dir, here) == [c1, c3]
  {
    assert [c3][1..] == [];
    assert Destinations([c3], dir, here) == [c3];
    assert [c2, c3][1..] == [c3];
    assert Destinations([c2, c3], dir, here) == [c3];
    assert [c1, c2, c3][1..] == [c2, c3];
  }

  // ---------------------------------------------------------------------
  // Clone lookup for edits and deletes

  /** Some mapping of connection `conn` records origin message `origin`. */
  predicate HasMapping(maps: seq<Mapping>, conn: ConnId, origin: MessageId) {
    exists i :: 0 <= i < |maps| && maps[i].conn == conn && maps[i].origin == origin
  }

  /** The clone id of the first mapping of `conn` for `origin`. */
  function FirstClone(maps: seq<Mapping>, conn: ConnId, origin: MessageId): (r: Option<MessageId>)
    ensures r.Some? <==> HasMapping(maps, conn, origin)
    ensures r.Some? ==> exists i :: 0 <= i < |maps| && maps[i] == Mapping(conn, origin, r.value)
                                    && forall j :: 0 <= j < i ==> !(maps[j].conn == conn && maps[j].origin == origin)
  {
    match FindFirst(maps, (m: Mapping) => m.conn == conn && m.origin == origin)
    case None => None
    case Some(i) => Some(maps[i].clone)
  }

  /**
   * The clones to fetch for an edit or delete of `origin` posted at `here`:
   * each outbound edge that has a mapping for `origin` and whose target
   * resolves, paired with the clone id of its first such mapping. Since an
   * edge is kept only when a mapping exists, the first mapping always exists.
   */
  function CloneLookup(conns: seq<Connection>, maps: seq<Mapping>, dir: Directory,
                       here: Endpoint, origin: MessageId): (r: seq<(Connection, MessageId)>)
    ensures forall k :: 0 <= k < |r| ==>
              r[k].0 in conns && r[k].0.source == here && Relayable(dir, r[k].0.target)
              && FirstClone(maps, r[k].0.id, origin) == Some(r[k].1)
    ensures forall c :: c in conns && c.source == here && Relayable(dir, c.target) && HasMapping(maps, c.id, origin) ==>
              exists k :: 0 <= k < |r| && r[k].0 == c
  {
    if conns == [] then []
    else
      var c := conns[0];
      var rest := CloneLookup(conns[1..], maps, dir, here, origin);
      assert forall d :: d in conns ==> d == c || d in conns[1..];
      if c.source == here && HasMapping(maps, c.id, origin) && Relayable(dir, c.target) then
        var r := [(c, FirstClone(maps, c.id, origin).value)] + rest;
        assert r[0].0 == c;
        assert forall k :: 0 <= k < |rest| ==> r[k + 1] == rest[k];
        r
      else rest
  }

  /** Fetching message `id` from channel `at` succeeds. */
  predicate Found(posted: map<MessageId, Relayed>, at: Endpoint, id: MessageId) {
    id in posted && posted[id].at == at
  }

  /** Fetching every looked-up clone as the handlers do: the first clone that cannot be fetched raises NotFound and the whole handler stops. */
  function FetchClonesAsWritten(pairs: seq<(Connection, MessageId)>, posted: map<MessageId, Relayed>): (r: Option<seq<MessageId>>)
    ensures r.Some? <==> forall k :: 0 <= k < |pairs| ==> Found(posted, pairs[k].0.target, pairs[k].1)
  {
    if pairs == [] then Some([])
    else if !Found(posted, pairs[0].0.target, pairs[0].1) then None
    else match FetchClonesAsWritten(pairs[1..], posted)
      case None => None
      case Some(rest) => Some([pairs[0].1] + rest)
  }

  /** Fetching every looked-up clone and skipping those that are gone. */
  function FetchClones(pairs: seq<(Connection, MessageId)>, posted: map<MessageId, Relayed>): (r: seq<MessageId>)
    ensures forall id :: id in r <==> exists k :: 0 <= k < |pairs| && pairs[k].1 == id && Found(posted, pairs[k].0.target, id)
    ensures forall id :: id in r ==> id in posted
  {
    if pairs == [] then []
    else
      var rest := FetchClones(pairs[1..], posted);
      if Found(posted, pairs[0].0.target, pairs[0].1) then
        assert forall k :: 0 < k < |pairs| ==> pairs[k] == pairs[1..][k - 1];
        [pairs[0].1] + rest
      else
        assert forall k :: 0 < k < |pairs| ==> pairs[k] == pairs[1..][k - 1];
        rest
  }

  /** When every clone can still be fetched, the handlers' fetch and the skipping fetch agree. */
  lemma {:induction false} FetchAgreesWhenAllFound(pairs: seq<(Connection, MessageId)>, posted: map<MessageId, Relayed>)
    requires forall k :: 0 <= k < |pairs| ==> Found(posted, pairs[k].0.target, pairs[k].1)
    ensures FetchClonesAsWritten(pairs, posted) == Some(FetchClones(pairs, posted))
  {
    if pairs != [] {
      assert forall k :: 0 <= k < |pairs[1..]| ==> pairs[1..][k] == pairs[k + 1];
      FetchAgreesWhenAllFound(pairs[1..], posted);
    }
  }

  /** One clone deleted by hand stops the handlers from reaching any other clone, while the skipping fetch still reaches the others. */
  lemma VanishedCloneBlocksFanOut(c1: Connection, c2: Connection, gone: MessageId, kept: MessageId, posted: map<MessageId, Relayed>)
    requires gone !in posted && Found(posted, c2.target, kept)
    ensures FetchClonesAsWritten([(c1, gone), (c2, kept)], posted) == None
    ensures FetchClones([(c1, gone), (c2, kept)], posted) == [kept]
  {
    assert [(c1, gone), (c2, kept)][1..] == [(c2, kept)];
    assert [(c2, kept)][1..] == [];
    assert FetchClones([(c2, kept)], posted) == [kept];
  }

  /** The clones after replacing the description of each listed clone with `content`. */
  function EditClones(posted: map<MessageId, Relayed>, ids: seq<MessageId>, content: string): (r: map<MessageId, Relayed>)
    ensures r.Keys == posted.Keys
  {
    if ids == [] then posted
    else
      var before := EditClones(posted, ids[..|ids| - 1], content);
      var id := ids[|ids| - 1];
      if id in before then before[id := before[id].(description := content)] else before
  }

  /** Editing touches only the listed clones, and of those only the description. */
  lemma {:induction false} EditClonesEffect(posted: map<MessageId, Relayed>, ids: seq<MessageId>, content: string)
    ensures EditClones(posted, ids, content).Keys == posted.Keys
    ensures forall id :: id in posted ==>
              EditClones(posted, ids, content)[id] == if id in ids then posted[id].(description := content) else posted[id]
  {
    if ids != [] {
      var init := ids[..|ids| - 1];
      EditClonesEffect(posted, init, content);
      forall id | id in posted
        ensures id in ids <==> id in init || id == ids[|ids| - 1]
      {
        assert ids == init + [ids[|ids| - 1]];
      }
    }
  }

  // ---------------------------------------------------------------------
  // Listing rooms

  /** The edge starts or ends at `here`. */
  predicate Touches(c: Connection, here: Endpoint) {
    c.source == here || c.target == here
  }

  /** Room codes of the edges touching `here`, first occurrence kept, skipping codes in `seen`. */
  function DistinctRooms(conns: seq<Connection>, here: Endpoint, seen: set<RoomCode>): (r: seq<RoomCode>)
    ensures forall x :: x in r <==> x !in seen && exists i :: 0 <= i < |conns| && Touches(conns[i], here) && conns[i].room == x
    ensures forall i, j :: 0 <= i < j < |r| ==> r[i] != r[j]
  {
    if conns == [] then []
    else
      var c := conns[0];
      assert forall i :: 0 < i < |conns| ==> conns[i] == conns[1..][i - 1];
      if Touches(c, here) && c.room !in seen then
        [c.room] + DistinctRooms(conns[1..], here, seen + {c.room})
      else
        DistinctRooms(conns[1..], here, seen)
  }

  /** The rooms `here` takes part in, as source or target, each listed once. */
  function ListRooms(conns: seq<Connection>, here: Endpoint): (r: seq<RoomCode>)
    ensures forall x :: x in r <==> exists i :: 0 <= i < |conns| && Touches(conns[i], here) && conns[i].room == x
    ensures forall i, j :: 0 <= i < j < |r| ==> r[i] != r[j]
  {
    DistinctRooms(conns, here, {})
  }
}
