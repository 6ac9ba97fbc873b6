/**
 * The cross-channel relay command: publishing a channel as a room,
 * connecting two channels through a room code, relaying new messages to
 * every connected channel and propagating edits and deletes to the clones.
 * The database tables are the fields of a `Store`; what the bot sees and
 * posts on the chat platform is a `Discord` object.
 */
module Crossover {
  import opened Wrappers
  import opened CrossoverTables

  /** An inbound message event, with the names the relayed embed shows. */
  datatype Inbound = Inbound(id: MessageId, author: UserId, authorName: string, at: Endpoint, kind: ChannelKind,
                             content: string, guildName: string, channelName: string)

  /** The embed relayed to `target`: the message text as description, the author and origin as decoration. */
  function CloneOf(msg: Inbound, target: Endpoint): Relayed {
    Relayed(target, msg.content, "@" + msg.authorName + " wrote:", msg.guildName + " at #" + msg.channelName)
  }

  /** The mapping rows relaying to the first `n` destinations appends: the k-th destination's clone got id `n0 + k`. */
  function RelayMappings(dests: seq<Connection>, n: nat, origin: MessageId, n0: nat): seq<Mapping>
    requires n <= |dests|
  {
    if n == 0 then [] else RelayMappings(dests, n - 1, origin, n0) + [Mapping(dests[n - 1].id, origin, n0 + n - 1)]
  }

  /** The clones relaying to the first `n` destinations posts, keyed by their new message ids. */
  function RelayPosts(dests: seq<Connection>, n: nat, msg: Inbound, n0: nat): map<MessageId, Relayed>
    requires n <= |dests|
  {
    if n == 0 then map[] else RelayPosts(dests, n - 1, msg, n0)[n0 + n - 1 := CloneOf(msg, dests[n - 1].target)]
  }

  /** One mapping per destination, in destination order, each naming that destination's connection and its own clone. */
  lemma {:induction false} RelayMappingsShape(dests: seq<Connection>, n: nat, origin: MessageId, n0: nat)
    requires n <= |dests|
    ensures |RelayMappings(dests, n, origin, n0)| == n
    ensures forall k :: 0 <= k < n ==> RelayMappings(dests, n, origin, n0)[k] == Mapping(dests[k].id, origin, n0 + k)
  {
    if n > 0 {
      RelayMappingsShape(dests, n - 1, origin, n0);
    }
  }

  /** The relay posts exactly one clone per destination, under ids n0 .. n0 + n - 1, each carrying the message text. */
  lemma {:induction false} RelayPostsShape(dests: seq<Connection>, n: nat, msg: Inbound, n0: nat)
    requires n <= |dests|
    ensures forall id :: id in RelayPosts(dests, n, msg, n0) <==> n0 <= id < n0 + n
    ensures forall k :: 0 <= k < n ==> RelayPosts(dests, n, msg, n0)[n0 + k] == CloneOf(msg, dests[k].target)
  {
    if n > 0 {
      RelayPostsShape(dests, n - 1, msg, n0);
    }
  }

  /** Every mapping a relay records names one of the connections it relayed through, so mapping rows keep pointing at existing connections. */
  lemma RelayKeepsMappingsValid(conns: seq<Connection>, maps: seq<Mapping>, dests: seq<Connection>, origin: MessageId, n0: nat)
    requires MappingsValid(conns, maps)
    requires forall c :: c in dests ==> c in conns
    ensures MappingsValid(conns, maps + RelayMappings(dests, |dests|, origin, n0))
  {
    var added := RelayMappings(dests, |dests|, origin, n0);
    RelayMappingsShape(dests, |dests|, origin, n0);
    var all := maps + added;
    forall k | 0 <= k < |all|
      ensures exists i :: 0 <= i < |conns| && conns[i].id == all[k].conn
    {
      if k < |maps| {
        assert all[k] == maps[k];
      } else {
        var d := dests[k - |maps|];
        assert all[k] == added[k - |maps|] == Mapping(d.id, origin, n0 + (k - |maps|));
        assert d in conns;
        var i :| 0 <= i < |conns| && conns[i] == d;
        assert conns[i].id == all[k].conn;
      }
    }
    assert forall k :: 0 <= k < |all| ==> exists i :: 0 <= i < |conns| && conns[i].id == all[k].conn;
  }

  /** The clone ids an edit or delete of `origin` at `at` reaches: the looked-up clones that can still be fetched. */
  function ReachableClones(conns: seq<Connection>, maps: seq<Mapping>, dir: Directory,
                           posted: map<MessageId, Relayed>, at: Endpoint, origin: MessageId): seq<MessageId> {
    FetchClones(CloneLookup(conns, maps, dir, at, origin), posted)
  }

  /** Two connections of a table with unique ids that share an id are the same connection. */
  lemma SameIdSameConnection(conns: seq<Connection>, a: Connection, b: Connection)
    requires UniqueIds(conns) && a in conns && b in conns && a.id == b.id
    ensures a == b
  {
    var i :| 0 <= i < |conns| && conns[i] == a;
    var j :| 0 <= j < |conns| && conns[j] == b;
    assert i == j;
  }

  /** After a relay of a message no earlier mapping mentions, every mapping of it is the one recorded for some destination. */
  lemma RelayedMappingAt(maps: seq<Mapping>, dests: seq<Connection>, origin: MessageId, n0: nat, i: nat)
    requires forall k :: 0 <= k < |maps| ==> maps[k].origin != origin
    requires i < |maps + RelayMappings(dests, |dests|, origin, n0)|
    ensures (maps + RelayMappings(dests, |dests|, origin, n0))[i].origin == origin ==>
              |maps| <= i < |maps| + |dests| && (maps + RelayMappings(dests, |dests|, origin, n0))[i] == Mapping(dests[i - |maps|].id, origin, n0 + i - |maps|)
  {
    RelayMappingsShape(dests, |dests|, origin, n0);
  }

  /** After the relay, the first mapping of the k-th destination for the message names clone `n0 + k`. */
  lemma {:induction false} FirstCloneOfDestination(maps: seq<Mapping>, dests: seq<Connection>, origin: MessageId, n0: nat, k: nat)
    requires UniqueIds(dests)
    requires forall j :: 0 <= j < |maps| ==> maps[j].origin != origin
    requires k < |dests|
    ensures FirstClone(maps + RelayMappings(dests, |dests|, origin, n0), dests[k].id, origin) == Some(n0 + k)
  {
    var all := maps + RelayMappings(dests, |dests|, origin, n0);
    RelayMappingsShape(dests, |dests|, origin, n0);
    assert all[|maps| + k] == Mapping(dests[k].id, origin, n0 + k);
    assert HasMapping(all, dests[k].id, origin);
    var r := FirstClone(all, dests[k].id, origin);
    var i :| 0 <= i < |all| && all[i] == Mapping(dests[k].id, origin, r.value)
             && forall j :: 0 <= j < i ==> !(all[j].conn == dests[k].id && all[j].origin == origin);
    RelayedMappingAt(maps, dests, origin, n0, i);
    var m := i - |maps|;
    assert dests[m].id == dests[k].id;
    assert m == k;
  }

  /** After a relay of a message no earlier mapping mentions, a mapping of it found for a connection is the one recorded for the m-th destination. */
  lemma {:induction false} RelayedFirstClone(maps: seq<Mapping>, dests: seq<Connection>, origin: MessageId, n0: nat,
                                             conn: ConnId, clone: MessageId) returns (m: nat)
    requires forall j :: 0 <= j < |maps| ==> maps[j].origin != origin
    requires FirstClone(maps + RelayMappings(dests, |dests|, origin, n0), conn, origin) == Some(clone)
    ensures m < |dests| && dests[m].id == conn && clone == n0 + m
  {
    var all := maps + RelayMappings(dests, |dests|, origin, n0);
    var i :| 0 <= i < |all| && all[i] == Mapping(conn, origin, clone);
    RelayedMappingAt(maps, dests, origin, n0, i);
    m := i - |maps|;
  }

  /** A looked-up pair whose first mapping was recorded by the relay is the m-th destination with its clone. */
  lemma {:induction false} PairIsRelayed(conns: seq<Connection>, maps: seq<Mapping>, dests: seq<Connection>, origin: MessageId,
                                         n0: nat, p: (Connection, MessageId)) returns (m: nat)
    requires UniqueIds(conns)
    requires forall j :: 0 <= j < |dests| ==> dests[j] in conns
    requires forall j :: 0 <= j < |maps| ==> maps[j].origin != origin
    requires p.0 in conns && FirstClone(maps + RelayMappings(dests, |dests|, origin, n0), p.0.id, origin) == Some(p.1)
    ensures m < |dests| && p == (dests[m], n0 + m)
  {
    m := RelayedFirstClone(maps, dests, origin, n0, p.0.id, p.1);
    SameIdSameConnection(conns, p.0, dests[m]);
  }

  /** Right after a relay, every looked-up pair names a clone the relay posted, and that clone can be fetched. */
  lemma {:induction false} PairsFound(conns: seq<Connection>, maps: seq<Mapping>, posted: map<MessageId, Relayed>,
                                      msg: Inbound, n0: nat, dests: seq<Connection>, pairs: seq<(Connection, MessageId)>)
    requires UniqueIds(conns)
    requires forall j :: 0 <= j < |dests| ==> dests[j] in conns
    requires forall j :: 0 <= j < |maps| ==> maps[j].origin != msg.id
    requires forall k :: 0 <= k < |pairs| ==>
               pairs[k].0 in conns && FirstClone(maps + RelayMappings(dests, |dests|, msg.id, n0), pairs[k].0.id, msg.id) == Some(pairs[k].1)
    ensures forall k :: 0 <= k < |pairs| ==>
              n0 <= pairs[k].1 < n0 + |dests| && Found(posted + RelayPosts(dests, |dests|, msg, n0), pairs[k].0.target, pairs[k].1)
  {
    var posts := posted + RelayPosts(dests, |dests|, msg, n0);
    RelayPostsShape(dests, |dests|, msg, n0);
    forall k | 0 <= k < |pairs|
      ensures n0 <= pairs[k].1 < n0 + |dests| && Found(posts, pairs[k].0.target, pairs[k].1)
    {
      var m := PairIsRelayed(conns, maps, dests, msg.id, n0, pairs[k]);
      assert posts[n0 + m] == CloneOf(msg, dests[m].target);
    }
  }

  /** Right after a relay, the lookup pairs the k-th destination with the clone the relay posted to it. */
  lemma {:induction false} DestinationLookedUp(conns: seq<Connection>, maps: seq<Mapping>, dir: Directory,
                                               msg: Inbound, n0: nat, dests: seq<Connection>, k: nat) returns (j: nat)
    requires dests == Destinations(conns, dir, msg.at)
    requires UniqueIds(conns)
    requires forall i :: 0 <= i < |maps| ==> maps[i].origin != msg.id
    requires k < |dests|
    ensures j < |CloneLookup(conns, maps + RelayMappings(dests, |dests|, msg.id, n0), dir, msg.at, msg.id)|
    ensures CloneLookup(conns, maps + RelayMappings(dests, |dests|, msg.id, n0), dir, msg.at, msg.id)[j] == (dests[k], n0 + k)
  {
    var all := maps + RelayMappings(dests, |dests|, msg.id, n0);
    var pairs := CloneLookup(conns, all, dir, msg.at, msg.id);
    var c := dests[k];
    assert c in conns && c.source == msg.at && Relayable(dir, c.target) by {
      DestinationsMembers(conns, dir, msg.at);
      assert c in dests;
    }
    assert HasMapping(all, c.id, msg.id) by {
      RelayMappingsShape(dests, |dests|, msg.id, n0);
      assert all[|maps| + k] == Mapping(c.id, msg.id, n0 + k);
    }
    DestinationsUniqueIds(conns, dir, msg.at);
    FirstCloneOfDestination(maps, dests, msg.id, n0, k);
    j :| 0 <= j < |pairs| && pairs[j].0 == c;
  }

  /** Some looked-up pair carries clone `id`. */
  predicate Listed(pairs: seq<(Connection, MessageId)>, id: MessageId) {
    exists j :: 0 <= j < |pairs| && pairs[j].1 == id
  }

  /**
   * A fetch over looked-up clones that are all found, whose ids are exactly
   * n0 .. n0 + count - 1, yields exactly those ids, and the handlers' fetch
   * agrees with it.
   */
  lemma ReachExactly(pairs: seq<(Connection, MessageId)>, posted: map<MessageId, Relayed>, n0: nat, count: nat)
    requires forall k :: 0 <= k < |pairs| ==> n0 <= pairs[k].1 < n0 + count && Found(posted, pairs[k].0.target, pairs[k].1)
    requires forall id :: n0 <= id < n0 + count ==> Listed(pairs, id)
    ensures forall id :: id in FetchClones(pairs, posted) <==> n0 <= id < n0 + count
    ensures FetchClonesAsWritten(pairs, posted) == Some(FetchClones(pairs, posted))
  {
    forall id | n0 <= id < n0 + count
      ensures id in FetchClones(pairs, posted)
    {
      assert Listed(pairs, id);
      var j :| 0 <= j < |pairs| && pairs[j].1 == id;
      assert Found(posted, pairs[j].0.target, pairs[j].1);
    }
    FetchAgreesWhenAllFound(pairs, posted);
  }

  /**
   * The relay round trip: right after a message is relayed to its N
   * destinations, an edit or delete of it reaches exactly the N clones the
   * relay posted, and the handlers' unguarded fetch finds every one of them.
   * `UniqueIds(conns)` holds of every valid table (`ValidTablesHaveUniqueIds`).
   */
  lemma {:induction false} RelayThenReach(conns: seq<Connection>, maps: seq<Mapping>, dir: Directory, posted: map<MessageId, Relayed>,
                                          msg: Inbound, n0: nat, dests: seq<Connection>)
    requires dests == Destinations(conns, dir, msg.at)
    requires UniqueIds(conns)
    requires forall j :: 0 <= j < |maps| ==> maps[j].origin != msg.id
    ensures forall id ::
              id in ReachableClones(conns, maps + RelayMappings(dests, |dests|, msg.id, n0), dir,
                                    posted + RelayPosts(dests, |dests|, msg, n0), msg.at, msg.id)
              <==> n0 <= id < n0 + |dests|
    ensures FetchClonesAsWritten(CloneLookup(conns, maps + RelayMappings(dests, |dests|, msg.id, n0), dir, msg.at, msg.id),
                                 posted + RelayPosts(dests, |dests|, msg, n0))
            == Some(ReachableClones(conns, maps + RelayMappings(dests, |dests|, msg.id, n0), dir,
                                    posted + RelayPosts(dests, |dests|, msg, n0), msg.at, msg.id))
  {
    var posts := posted + RelayPosts(dests, |dests|, msg, n0);
    var pairs := CloneLookup(conns, maps + RelayMappings(dests, |dests|, msg.id, n0), dir, msg.at, msg.id);
    DestinationsInTable(conns, dir, msg.at);
    PairsFound(conns, maps, posted, msg, n0, dests, pairs);
    forall id | n0 <= id < n0 + |dests|
      ensures Listed(pairs, id)
    {
      var j := DestinationLookedUp(conns, maps, dir, msg, n0, dests, id - n0);
    }
    ReachExactly(pairs, posts, n0, |dests|);
  }

  /** An edit or delete of a message that was never relayed reaches nothing, and the handlers' fetch has nothing to fail on. */
  lemma {:induction false} UnrelayedReachesNothing(conns: seq<Connection>, maps: seq<Mapping>, dir: Directory, posted: map<MessageId, Relayed>,
                                                   at: Endpoint, origin: MessageId)
    requires forall j :: 0 <= j < |maps| ==> maps[j].origin != origin
    ensures CloneLookup(conns, maps, dir, at, origin) == []
    ensures ReachableClones(conns, maps, dir, posted, at, origin) == []
    ensures FetchClonesAsWritten(CloneLookup(conns, maps, dir, at, origin), posted) == Some([])
  {
    if conns != [] {
      UnrelayedReachesNothing(conns[1..], maps, dir, posted, at, origin);
      assert !HasMapping(maps, conns[0].id, origin);
    }
  }

  /** The set of elements of a sequence. */
  function Elements<T>(s: seq<T>): set<T> {
    set x | x in s
  }

  /** The database: guilds, rooms, connections and message mappings, with the id generator for new rows. */
  class Store {
    var guilds: set<GuildId>
    var rooms: seq<Room>
    var connections: seq<Connection>
    var mappings: seq<Mapping>
    var nextId: nat

    ghost predicate Valid()
      reads this
    {
      TablesValid(rooms, connections, mappings, nextId)
    }

    constructor ()
      ensures Valid()
      ensures guilds == {} && rooms == [] && connections == [] && mappings == []
    {
      guilds, rooms, connections, mappings, nextId := {}, [], [], [], 0;
    }

    /** Creates the guild row if it does not exist yet. */
    method UpsertGuild(g: GuildId)
      modifies this
      ensures guilds == old(guilds) + {g}
      ensures rooms == old(rooms) && connections == old(connections) && mappings == old(mappings) && nextId == old(nextId)
    {
      guilds := guilds + {g};
    }

    method CreateRoom(at: Endpoint) returns (code: RoomCode)
      modifies this
      ensures code == old(nextId) && nextId == old(nextId) + 1
      ensures rooms == old(rooms) + [Room(code, at)]
      ensures guilds == old(guilds) && connections == old(connections) && mappings == old(mappings)
    {
      code := nextId;
      rooms := rooms + [Room(code, at)];
      nextId := nextId + 1;
    }

    method CreateConnection(room: RoomCode, source: Endpoint, target: Endpoint) returns (id: ConnId)
      modifies this
      ensures id == old(nextId) && nextId == old(nextId) + 1
      ensures connections == old(connections) + [Connection(id, room, source, target)]
      ensures guilds == old(guilds) && rooms == old(rooms) && mappings == old(mappings)
    {
      id := nextId;
      connections := connections + [Connection(id, room, source, target)];
      nextId := nextId + 1;
    }

    method CreateMapping(conn: ConnId, origin: MessageId, clone: MessageId)
      modifies this
      ensures mappings == old(mappings) + [Mapping(conn, origin, clone)]
      ensures guilds == old(guilds) && rooms == old(rooms) && connections == old(connections) && nextId == old(nextId)
    {
      mappings := mappings + [Mapping(conn, origin, clone)];
    }
  }

  /** What the bot sees and has posted on the chat platform. */
  class Discord {
    /** The guilds and channels the bot can resolve. */
    var directory: Directory
    /** The relayed embeds the bot has posted that still exist. */
    var posted: map<MessageId, Relayed>
    /** The id the next posted message receives. */
    var nextMessageId: MessageId

    ghost predicate Valid()
      reads this
    {
      forall id :: id in posted ==> id < nextMessageId
    }

    constructor (directory: Directory)
      ensures Valid()
      ensures this.directory == directory && posted == map[]
    {
      this.directory := directory;
      posted := map[];
      nextMessageId := 0;
    }

    /** Posts an embed; the new message gets a fresh id. */
    method Send(embed: Relayed) returns (id: MessageId)
      requires Valid()
      modifies this
      ensures Valid()
      ensures id == old(nextMessageId) && id !in old(posted) && nextMessageId == id + 1
      ensures posted == old(posted)[id := embed] && directory == old(directory)
    {
      id := nextMessageId;
      posted := posted[id := embed];
      nextMessageId := nextMessageId + 1;
    }

    /** Replaces the embed of a posted message. */
    method Edit(id: MessageId, embed: Relayed)
      requires Valid() && id in posted
      modifies this
      ensures Valid()
      ensures posted == old(posted)[id := embed]
      ensures nextMessageId == old(nextMessageId) && directory == old(directory)
    {
      posted := posted[id := embed];
    }

    /** Deletes a posted message; `found` is false where the platform answers NotFound. */
    method Delete(id: MessageId) returns (found: bool)
      requires Valid()
      modifies this
      ensures Valid()
      ensures found == (id in old(posted)) && posted == old(posted) - {id}
      ensures nextMessageId == old(nextMessageId) && directory == old(directory)
    {
      found := id in posted;
      posted := posted - {id};
    }
  }

  /** The relay command group and its message listeners. */
  class CrossOverCommand {
    /** The bot's own user id: its own messages are never relayed. */
    const bot: UserId
    const db: Store
    const discord: Discord

    ghost predicate Valid()
      reads this, db, discord
    {
      db.Valid() && discord.Valid()
    }

    constructor (bot: UserId, db: Store, discord: Discord)
      requires db.Valid() && discord.Valid()
      ensures Valid() && this.bot == bot && this.db == db && this.discord == discord
    {
      this.bot, this.db, this.discord := bot, db, discord;
    }

    /** Listeners ignore the bot's own messages and messages outside text channels and threads. */
    predicate Ignored(msg: Inbound) {
      msg.author == bot || !Accepted(msg.kind)
    }

    /** `crossover`: publish the current channel, reporting its room code; find-or-create keyed on the channel. */
    method Crossover(here: Endpoint, kind: ChannelKind) returns (code: Option<RoomCode>)
      requires Valid()
      modifies db
      ensures Valid()
      ensures db.connections == old(db.connections) && db.mappings == old(db.mappings)
      ensures !Accepted(kind) ==>
                code.None? && db.rooms == old(db.rooms) && db.guilds == old(db.guilds) && db.nextId == old(db.nextId)
      ensures Accepted(kind) ==>
                var p := Publish(old(db.rooms), old(db.nextId), here);
                code == Some(p.code) && db.rooms == p.rooms && db.nextId == p.nextId
                && db.guilds == old(db.guilds) + {here.guild}
    {
      if !Accepted(kind) {
        return None;
      }
      PublishKeepsTablesValid(db.rooms, db.connections, db.mappings, db.nextId, here);
      db.UpsertGuild(here.guild);
      var room := FindRoom(db.rooms, here);
      if room.None? {
        var created := db.CreateRoom(here);
        code := Some(created);
      } else {
        code := Some(room.value.id);
      }
    }

    /** `connect`: link the current channel with the room `code` names, by two directed edges. */
    method Connect(here: Endpoint, kind: ChannelKind, code: RoomCode) returns (r: ConnectOutcome)
      requires Valid()
      modifies db
      ensures Valid()
      ensures r == ConnectDecision(old(db.rooms), old(db.connections), discord.directory, here, kind, code)
      ensures db.rooms == old(db.rooms) && db.mappings == old(db.mappings)
      ensures r.Linked? ==>
                db.connections == old(db.connections) + LinkRows(old(db.nextId), code, here, r.that)
                && db.guilds == old(db.guilds) + {here.guild, r.that.guild}
      ensures !r.Linked? ==>
                db.connections == old(db.connections) && db.guilds == old(db.guilds) && db.nextId == old(db.nextId)
    {
      var room := FindRoomByCode(db.rooms, code);
      if room.None? {
        return RoomNotFound;
      }
      var that := room.value.at;
      var thatKind := Lookup(discord.directory, that);
      if thatKind.None? {
        return TargetUnreachable;
      }
      if !Accepted(kind) {
        return WrongChannelType;
      }
      if !Accepted(thatKind.value) {
        return TargetUnreachable;
      }
      if IsConnected(db.connections, here, that) {
        return AlreadyConnected;
      }
      if that == here {
        return SelfConnect;
      }
      Link(code, here, that);
      r := Linked(that);
    }

    /** The writes of a successful `connect`: upsert both guilds, then store this-to-that and that-to-this. */
    method Link(code: RoomCode, here: Endpoint, that: Endpoint)
      requires db.Valid()
      requires FindRoomByCode(db.rooms, code).Some? && here != that && !IsConnected(db.connections, here, that)
      modifies db
      ensures db.Valid()
      ensures db.connections == old(db.connections) + LinkRows(old(db.nextId), code, here, that)
      ensures db.guilds == old(db.guilds) + {here.guild, that.guild}
      ensures db.rooms == old(db.rooms) && db.mappings == old(db.mappings)
    {
      LinkKeepsTablesValid(db.rooms, db.connections, db.mappings, db.nextId, code, here, that);
      ghost var conns0, id0 := db.connections, db.nextId;
      db.UpsertGuild(here.guild);
      db.UpsertGuild(that.guild);
      var first := db.CreateConnection(code, here, that);
      var second := db.CreateConnection(code, that, here);
      assert db.connections == conns0 + LinkRows(id0, code, here, that);
    }

    /** `on_message`: copy the message to every resolvable destination and record one mapping per copy. */
    method OnMessage(msg: Inbound)
      requires Valid()
      modifies db, discord
      ensures Valid()
      ensures db.guilds == old(db.guilds) && db.rooms == old(db.rooms) && db.connections == old(db.connections)
      ensures db.nextId == old(db.nextId) && discord.directory == old(discord.directory)
      ensures Ignored(msg) ==>
                db.mappings == old(db.mappings) && discord.posted == old(discord.posted)
                && discord.nextMessageId == old(discord.nextMessageId)
      ensures !Ignored(msg) ==>
                var dests := Destinations(db.connections, discord.directory, msg.at);
                var n0 := old(discord.nextMessageId);
                db.mappings == old(db.mappings) + RelayMappings(dests, |dests|, msg.id, n0)
                && discord.posted == old(discord.posted) + RelayPosts(dests, |dests|, msg, n0)
                && discord.nextMessageId == n0 + |dests|
    {
      if msg.author == bot || !Accepted(msg.kind) {
        return;
      }
      var dests := Destinations(db.connections, discord.directory, msg.at);
      ghost var maps0 := db.mappings;
      DestinationsMembers(db.connections, discord.directory, msg.at);
      Relay(msg, dests);
      RelayKeepsMappingsValid(db.connections, maps0, dests, msg.id, old(discord.nextMessageId));
    }

    /** The fan-out loop of `on_message`: post one clone per destination, recording a mapping right after each send. */
    method Relay(msg: Inbound, dests: seq<Connection>)
      requires discord.Valid()
      modifies db, discord
      ensures discord.Valid() && discord.directory == old(discord.directory)
      ensures db.guilds == old(db.guilds) && db.rooms == old(db.rooms) && db.connections == old(db.connections)
      ensures db.nextId == old(db.nextId)
      ensures db.mappings == old(db.mappings) + RelayMappings(dests, |dests|, msg.id, old(discord.nextMessageId))
      ensures discord.posted == old(discord.posted) + RelayPosts(dests, |dests|, msg, old(discord.nextMessageId))
      ensures discord.nextMessageId == old(discord.nextMessageId) + |dests|
    {
      ghost var n0, maps0, posted0 := discord.nextMessageId, db.mappings, discord.posted;
      var i := 0;
      while i < |dests|
        invariant 0 <= i <= |dests|
        invariant discord.Valid() && discord.nextMessageId == n0 + i && discord.directory == old(discord.directory)
        invariant db.mappings == maps0 + RelayMappings(dests, i, msg.id, n0)
        invariant discord.posted == posted0 + RelayPosts(dests, i, msg, n0)
        invariant db.guilds == old(db.guilds) && db.rooms == old(db.rooms) && db.connections == old(db.connections)
        invariant db.nextId == old(db.nextId)
      {
        var conn := dests[i];
        var clone := CloneOf(msg, conn.target);
        var sent := discord.Send(clone);
        db.CreateMapping(conn.id, msg.id, sent);
        i := i + 1;
      }
    }

    /** `on_message_edit`: replace the description of every reachable clone with the new text. */
    method OnMessageEdit(msg: Inbound)
      requires Valid()
      modifies discord
      ensures Valid()
      ensures discord.directory == old(discord.directory) && discord.nextMessageId == old(discord.nextMessageId)
      ensures discord.posted ==
                if Ignored(msg) then old(discord.posted)
                else EditClones(old(discord.posted),
                                ReachableClones(db.connections, db.mappings, discord.directory, old(discord.posted), msg.at, msg.id),
                                msg.content)
    {
      if msg.author == bot || !Accepted(msg.kind) {
        return;
      }
      var ids := ReachableClones(db.connections, db.mappings, discord.directory, discord.posted, msg.at, msg.id);
      EditEach(ids, msg.content);
    }

    /** The fan-out loop of `on_message_edit`: edit each clone in turn. */
    method EditEach(ids: seq<MessageId>, content: string)
      requires discord.Valid()
      requires forall id :: id in ids ==> id in discord.posted
      modifies discord
      ensures discord.Valid()
      ensures discord.directory == old(discord.directory) && discord.nextMessageId == old(discord.nextMessageId)
      ensures discord.posted == EditClones(old(discord.posted), ids, content)
    {
      ghost var posted0 := discord.posted;
      var i := 0;
      while i < |ids|
        invariant 0 <= i <= |ids|
        invariant discord.Valid()
        invariant discord.posted == EditClones(posted0, ids[..i], content)
        invariant discord.directory == old(discord.directory) && discord.nextMessageId == old(discord.nextMessageId)
      {
        EditClonesEffect(posted0, ids[..i], content);
        var clone := discord.posted[ids[i]];
        discord.Edit(ids[i], clone.(description := content));
        assert ids[..i + 1][..i] == ids[..i];
        i := i + 1;
      }
      assert ids[..i] == ids;
    }

    /** `on_message_delete`: delete every reachable clone, ignoring NotFound; mapping rows are kept. */
    method OnMessageDelete(msg: Inbound)
      requires Valid()
      modifies discord
      ensures Valid()
      ensures discord.directory == old(discord.directory) && discord.nextMessageId == old(discord.nextMessageId)
      ensures discord.posted ==
                if Ignored(msg) then old(discord.posted)
                else old(discord.posted)
                     - Elements(ReachableClones(db.connections, db.mappings, discord.directory, old(discord.posted), msg.at, msg.id))
    {
      if msg.author == bot || !Accepted(msg.kind) {
        return;
      }
      var ids := ReachableClones(db.connections, db.mappings, discord.directory, discord.posted, msg.at, msg.id);
      DeleteEach(ids);
    }

    /** The fan-out loop of `on_message_delete`: delete each clone in turn, a NotFound answer being ignored. */
    method DeleteEach(ids: seq<MessageId>)
      requires discord.Valid()
      modifies discord
      ensures discord.Valid()
      ensures discord.directory == old(discord.directory) && discord.nextMessageId == old(discord.nextMessageId)
      ensures discord.posted == old(discord.posted) - Elements(ids)
    {
      ghost var posted0 := discord.posted;
      var i := 0;
      while i < |ids|
        invariant 0 <= i <= |ids|
        invariant discord.Valid()
        invariant discord.posted == posted0 - Elements(ids[..i])
        invariant discord.directory == old(discord.directory) && discord.nextMessageId == old(discord.nextMessageId)
      {
        var _ := discord.Delete(ids[i]);
        assert Elements(ids[..i + 1]) == Elements(ids[..i]) + {ids[i]};
        i := i + 1;
      }
      assert ids[..i] == ids;
    }
  }
}
