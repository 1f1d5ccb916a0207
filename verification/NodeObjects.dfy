// The objects of a node, updated in place as the program updates them. Each method leaves
// the node in the state the machine prescribes.
module NodeObjects {
  import opened Text
  import opened Primitives
  import opened Protocol
  import opened Tables
  import opened Store
  import opened Auth
  import opened Merge
  import opened Machine
  import opened Replies

  class ConnectionRegistry {
    var conns: map<string, Conn>

    constructor ()
      ensures conns == map[]
    {
      conns := map[];
    }

    method Add(conn: Conn)
      modifies this
      ensures conns == old(conns)[conn.peerNodeId := conn]
    {
      conns := conns[conn.peerNodeId := conn];
    }

    method Remove(id: string)
      modifies this
      ensures conns == old(conns) - {id}
    {
      conns := conns - {id};
    }

    method Get(id: string) returns (conn: Option<Conn>)
      ensures conn == if id in conns then Some(conns[id]) else None
    {
      conn := if id in conns then Some(conns[id]) else None;
    }
  }

  /** The state of the node made of these two objects. */
  ghost function Snapshot(storage: Storage, transport: Transport): State
    reads storage, transport, transport.registry
  {
    State(storage.nodes, storage.cells, storage.presence, storage.buffer,
          transport.registry.conns, transport.accepted, transport.log, transport.tick)
  }

  class Transport {
    const cfg: Config
    const registry: ConnectionRegistry
    // the number of attempts made on the network
    var tick: nat
    // what became of the packets, and the connections that completed a handshake
    ghost var log: seq<Fate>
    ghost var accepted: set<Conn>

    constructor (cfg: Config)
      ensures this.cfg == cfg && fresh(registry) && registry.conns == map[]
      ensures tick == 0 && log == [] && accepted == {}
    {
      this.cfg := cfg;
      registry := new ConnectionRegistry();
      tick, log, accepted := 0, [], {};
    }

    /** False where the program raises ConnectionClosed; the packet is signed either way. */
    method SendVia(conn: Conn, pkt: PacketObject, ghost storage: Storage) returns (ok: bool)
      modifies this, pkt
      ensures Attempt(Snapshot(storage, this), pkt.value, ok)
           == Machine.SendVia(cfg, old(Snapshot(storage, this)), conn, old(pkt.value))
    {
      pkt.SignPacket(cfg.lib, cfg.who.signKey);
      ok := cfg.luck(tick).delivered;
      if ok {
        log := log + [Sent(conn, pkt.value)];
      }
      tick := tick + 1;
    }

    method SendTo(id: string, pkt: PacketObject, ghost storage: Storage) returns (ok: bool)
      modifies this, registry, pkt
      ensures Attempt(Snapshot(storage, this), pkt.value, ok)
           == Machine.SendTo(cfg, old(Snapshot(storage, this)), id, old(pkt.value))
    {
      var conn := registry.Get(id);
      if conn == None {
        return false;
      }
      ok := SendVia(conn.value, pkt, storage);
      if !ok {
        registry.Remove(id);
      }
    }

    method AddAuthenticated(reply: Reply, expected: Option<string>, ghost storage: Storage) returns (conn: Option<Conn>)
      modifies this, registry
      ensures conn == Authenticate(cfg, reply, expected)
      ensures Snapshot(storage, this)
           == if conn.Some? then Register(old(Snapshot(storage, this)), conn.value) else old(Snapshot(storage, this))
    {
      conn := Authenticate(cfg, reply, expected);
      if conn.Some? {
        registry.Add(conn.value);
        accepted := accepted + {conn.value};
      }
    }

    method ConnectToNode(id: string, ghost storage: Storage) returns (conn: Option<Conn>)
      modifies this, registry
      ensures (Snapshot(storage, this), conn) == Machine.ConnectToNode(cfg, old(Snapshot(storage, this)), id)
    {
      var reached := cfg.luck(tick).reached;
      tick := tick + 1;
      if reached == None {
        return None;
      }
      conn := AddAuthenticated(reached.value, Some(id), storage);
    }
  }

  class Router {
    const storage: Storage
    const transport: Transport

    constructor (storage: Storage, transport: Transport)
      ensures this.storage == storage && this.transport == transport
    {
      this.storage := storage;
      this.transport := transport;
    }

    ghost function Now(): State
      reads this, storage, transport, transport.registry
    {
      Snapshot(storage, transport)
    }

    method DeliverLocal(pkt: PacketObject)
      modifies transport, transport.registry, pkt
      ensures Attempt(Now(), pkt.value, true) == Machine.DeliverLocal(transport.cfg, old(Now()), old(pkt.value))
    {
      var cell := ParseAddr(pkt.value.body.toAddr).0;
      if cell.Some? && cell.value != "" {
        var sent := transport.SendTo(cell.value, pkt, storage);
        if sent {
          return;
        }
      }
      if transport.cfg.hasHandler {
        transport.log := transport.log + [Handled(pkt.value)];
      } else {
        transport.log := transport.log + [Dropped(NoHandler, pkt.value.body)];
      }
    }

    method SendToNode(id: string, pkt: PacketObject) returns (ok: bool)
      modifies transport, transport.registry, pkt
      ensures Attempt(Now(), pkt.value, ok) == Machine.SendToNode(transport.cfg, old(Now()), id, old(pkt.value))
    {
      if id == Me(transport.cfg) {
        DeliverLocal(pkt);
        return true;
      }
      ok := transport.SendTo(id, pkt, storage);
      if ok || id !in storage.nodes || storage.nodes[id].status != ONLINE {
        return;
      }
      var conn := transport.ConnectToNode(id, storage);
      if conn == None {
        return false;
      }
      ok := transport.SendVia(conn.value, pkt, storage);
    }

    /** The visiting node, then the home node. */
    method TryNodes(presence: PresenceRow, pkt: PacketObject) returns (ok: bool)
      modifies transport, transport.registry, pkt
      ensures Attempt(Now(), pkt.value, ok) == Machine.TryNodes(transport.cfg, old(Now()), presence, old(pkt.value))
    {
      if presence.visiting.Some? && presence.visiting.value != "" {
        ok := SendToNode(presence.visiting.value, pkt);
        if ok {
          return;
        }
      }
      ok := SendToNode(presence.home, pkt);
    }

    /** INSERT OR IGNORE: an id that is taken swallows the packet. */
    method Park(cell: string, home: string, pkt: PacketObject, now: int)
      modifies storage`buffer, transport`log
      ensures Now() == Machine.Park(transport.cfg, old(Now()), cell, home, pkt.value, now)
    {
      if pkt.value.body.id in storage.buffer {
        transport.log := transport.log + [Dropped(DuplicateId, pkt.value.body)];
      }
      storage.BufferMessage(pkt.value.body.id, cell, home, SerializePacket(transport.cfg.lib, pkt.value), now);
    }

    /** True unless the packet was put into the buffer. */
    method Route(pkt: PacketObject, now: int) returns (ok: bool)
      modifies storage`buffer, transport, transport.registry, pkt
      ensures Attempt(Now(), pkt.value, ok) == Machine.Route(transport.cfg, old(Now()), old(pkt.value), now)
    {
      var (cell, node) := ParseAddr(pkt.value.body.toAddr);
      if cell == None {
        var sent := SendToNode(node, pkt);
        if !sent {
          transport.log := transport.log + [Dropped(Unreachable, pkt.value.body)];
        }
        return true;
      }
      if cell.value !in storage.presence {
        if cell.value in storage.cells {
          DeliverLocal(pkt);
        } else {
          transport.log := transport.log + [Dropped(UnknownCell, pkt.value.body)];
        }
        return true;
      }
      var presence := storage.presence[cell.value];
      var taken := pkt.value.body.id in storage.buffer;
      ok := TryNodes(presence, pkt);
      if !ok {
        Park(cell.value, presence.home, pkt, now);
        ok := taken;
      }
    }

    method FlushBuffer(cell: string, now: int) returns (ghost ids: seq<string>)
      modifies storage`buffer, transport, transport.registry
      ensures Lists(ids, Buffered(old(storage.buffer), cell, now).Keys)
      ensures Now() == Flush(transport.cfg, old(Now()), old(storage.buffer), ids, now)
    {
      var rows := storage.buffer;
      var messages := storage.GetBuffered(cell, now);
      ids := messages;
      assert forall id :: id in messages ==> id in Buffered(rows, cell, now).Keys;
      var i := 0;
      while i < |messages|
        invariant 0 <= i <= |messages|
        invariant forall id :: id in messages ==> id in rows
        invariant Flush(transport.cfg, Now(), rows, messages[i..], now)
               == Flush(transport.cfg, old(Now()), rows, messages, now)
      {
        var id := messages[i];
        assert messages[i..][0] == id && messages[i..][1..] == messages[i + 1..];
        var stored := Unpack(transport.cfg.lib, rows[id].payload);
        if stored.Some? {
          var pkt := new PacketObject(stored.value);
          var _ := Route(pkt, now);
          storage.DeleteBuffered(id);
        }
        i := i + 1;
      }
    }
  }

  class GossipEngine {
    const storage: Storage
    const transport: Transport

    constructor (storage: Storage, transport: Transport)
      ensures this.storage == storage && this.transport == transport
    {
      this.storage := storage;
      this.transport := transport;
    }

    ghost function Now(): State
      reads this, storage, transport, transport.registry
    {
      Snapshot(storage, transport)
    }

    method HandleGossip(payload: Bytes, now: int)
      modifies storage`nodes
      ensures storage.nodes == MergeOf(old(storage.nodes), DecodeGossip(transport.cfg.lib, payload), now)
    {
      var data := transport.cfg.lib.unpack(payload);
      if data.Some? && data.value.Dict? && "nodes" in data.value.fields && data.value.fields["nodes"].List? {
        MergeItems(data.value.fields["nodes"].items, now);
      } else {
        MergeNothing(storage.nodes, now);
      }
    }

    // The merge loop computes the first-wins merge of the entries up to the first bad one.
    method MergeItems(items: seq<Value>, now: int)
      modifies storage`nodes
      ensures storage.nodes == MergeOf(old(storage.nodes), EntryList(items), now)
    {
      ghost var merged: seq<Heard> := [];
      ghost var known := storage.nodes.Keys;
      var i := 0;
      MergeNothing(storage.nodes, now);
      while i < |items|
        invariant 0 <= i <= |items|
        invariant Heeded(old(storage.nodes).Keys, EntryList(items)) == merged + Heeded(known, EntryList(items[i..]))
        invariant storage.nodes == Merged(old(storage.nodes), merged, now) && known == storage.nodes.Keys
      {
        var entry := EntryFrom(items[i]);
        MergeTurn(known, items, i, merged);
        if entry == None {
          break;
        }
        MergeOne(old(storage.nodes), merged, entry.value.heard, now);
        var ok := MergeEntry(entry.value, now);
        if !ok {
          break;
        }
        merged := merged + [entry.value.heard];
        known := Knowing(known, entry.value.heard);
        i := i + 1;
      }
      assert Heeded(old(storage.nodes).Keys, EntryList(items)) == merged;
    }

    /** Only an unknown node with an id and an address is added; false where its type or access
        cannot be stored. */
    method MergeEntry(e: Entry, now: int) returns (ok: bool)
      modifies storage`nodes
      ensures ok == !Stumbles(old(storage.nodes).Keys, e)
      ensures storage.nodes == if ok && Usable(e.heard) && e.heard.nodeId !in old(storage.nodes)
                               then old(storage.nodes)[e.heard.nodeId := NewRow(e.heard, now)] else old(storage.nodes)
    {
      var h := e.heard;
      if h.nodeId == "" || h.address == "" || h.nodeId in storage.nodes {
        return true;
      }
      if !e.legible {
        return false;
      }
      storage.UpsertNode(h.nodeId, NewRow(h, now), now);
      return true;
    }

    method PingNode(id: string, now: int)
      modifies storage`nodes, transport, transport.registry
      ensures Now() == Machine.PingNode(transport.cfg, old(Now()), id, now)
    {
      var conn := transport.registry.Get(id);
      if conn == None {
        conn := transport.ConnectToNode(id, storage);
        if conn == None {
          storage.UpdateNodePing(id, false, now);
          return;
        }
      }
      var ping := new PacketObject(MakePing(transport.cfg, transport.cfg.luck(transport.tick).uuid, id, now));
      var ok := transport.SendVia(conn.value, ping, storage);
      storage.UpdateNodePing(id, ok, now);
    }

    method PingAll(ids: seq<string>, now: int)
      modifies storage`nodes, transport, transport.registry
      ensures Now() == Machine.PingAll(transport.cfg, old(Now()), ids, now)
    {
      var i := 0;
      while i < |ids|
        invariant 0 <= i <= |ids|
        invariant Machine.PingAll(transport.cfg, Now(), ids[i..], now)
               == Machine.PingAll(transport.cfg, old(Now()), ids, now)
      {
        assert ids[i..][0] == ids[i] && ids[i..][1..] == ids[i + 1..];
        if ids[i] != Me(transport.cfg) {
          PingNode(ids[i], now);
        }
        i := i + 1;
      }
    }

    method Cleanup(now: int)
      modifies storage`nodes, storage`buffer, transport`log
      ensures Now() == Machine.Cleanup(old(Now()), now)
    {
      storage.CleanupExpiredNodes(now);
      transport.log := transport.log + [Expired(ExpiredMessages(storage.buffer, now))];
      storage.CleanupExpiredMessages(now);
    }

    method Exchange(peers: seq<string>, listing: seq<string>, now: int)
      requires forall id :: id in listing ==> id in storage.nodes
      modifies transport
      ensures Now() == Machine.Exchange(transport.cfg, old(Now()), peers, listing, now)
    {
      var i := 0;
      while i < |peers|
        invariant 0 <= i <= |peers|
        invariant Machine.Exchange(transport.cfg, Now(), peers[i..], listing, now)
               == Machine.Exchange(transport.cfg, old(Now()), peers, listing, now)
      {
        assert peers[i..][0] == peers[i] && peers[i..][1..] == peers[i + 1..];
        var conn := transport.registry.Get(peers[i]);
        if conn.Some? {
          var uuid := transport.cfg.luck(transport.tick).uuid;
          var push := new PacketObject(MakeGossip(transport.cfg, uuid, storage.nodes, listing, now));
          var _ := transport.SendVia(conn.value, push, storage);
        }
        i := i + 1;
      }
    }

    /** random.sample: any distinct members, GOSSIP_FANOUT of them or all there are. */
    method DrawSample(t: NodeTable) returns (peers: seq<string>)
      ensures Sample(transport.cfg, t, peers)
    {
      var online := set id | id in t && t[id].status == ONLINE && id != Me(transport.cfg);
      var left := online;
      peers := [];
      while |peers| < GOSSIP_FANOUT && left != {}
        invariant left <= online && |left| + |peers| == |online| && |peers| <= GOSSIP_FANOUT
        invariant forall id :: id in peers ==> id in online - left
        invariant forall i, j :: 0 <= i < j < |peers| ==> peers[i] != peers[j]
        decreases left
      {
        var id :| id in left;
        assert id !in peers;
        left := left - {id};
        peers := peers + [id];
      }
    }

    method Round(now: int) returns (ghost ids: seq<string>, ghost peers: seq<string>, ghost listing: seq<string>)
      modifies storage`nodes, storage`buffer, transport, transport.registry
      ensures RoundOrders(transport.cfg, old(Now()), ids, peers, listing, now)
      ensures Now() == Machine.Round(transport.cfg, old(Now()), ids, peers, listing, now)
    {
      var nodes := storage.nodes;
      var all := ListKeys(nodes);
      PingAll(all, now);
      Cleanup(now);
      var sample := DrawSample(nodes);
      var entries := ListKeys(storage.nodes);
      ids, peers, listing := all, sample, entries;
      Exchange(sample, entries, now);
    }
  }

  class Node {
    const storage: Storage
    const transport: Transport
    const router: Router
    const gossip: GossipEngine

    constructor (cfg: Config)
      ensures Wired() && fresh(storage) && fresh(transport) && fresh(transport.registry)
      ensures transport.cfg == cfg
      ensures Now() == State(map[], map[], map[], map[], map[], {}, [], 0)
    {
      var s := new Storage();
      var t := new Transport(cfg);
      storage, transport := s, t;
      router := new Router(s, t);
      gossip := new GossipEngine(s, t);
    }

    /** The parts share one storage and one transport. */
    ghost predicate Wired() {
      router.storage == gossip.storage == storage && router.transport == gossip.transport == transport
    }

    ghost function Now(): State
      reads this, storage, transport, transport.registry
    {
      Snapshot(storage, transport)
    }

    method HandleCellRegister(payload: Bytes, conn: Conn, now: int) returns (ghost order: seq<string>)
      requires Wired()
      modifies storage, transport, transport.registry
      ensures FlushOrder(transport.cfg, old(Now()), payload, conn, now, order)
      ensures Now() == Machine.HandleCellRegister(transport.cfg, old(Now()), payload, conn, now, order)
    {
      order := [];
      var claim := DecodeClaim(transport.cfg.lib, payload);
      if claim == None {
        return;
      }
      var cl := claim.value;
      if cl.signingPub != conn.signingPub {
        return;
      }
      if cl.cellId != conn.peerNodeId {
        return;
      }
      storage.RegisterCell(cl.cellId, cl.signingPub, cl.encPub, cl.isHome, now);
      storage.UpdatePresence(cl.cellId, Me(transport.cfg), None, now);
      order := router.FlushBuffer(cl.cellId, now);
    }

    method HandlePing(pkt: Packet, conn: Conn, now: int)
      requires Wired() && pkt.body.kind == PING
      modifies transport
      ensures Now() == Machine.DispatchControl(transport.cfg, old(Now()), pkt, conn, now)
    {
      var pong := new PacketObject(MakePong(transport.cfg, transport.cfg.luck(transport.tick).uuid, pkt, now));
      var _ := transport.SendVia(conn, pong, storage);
    }

    method HandlePresenceQuery(pkt: Packet, conn: Conn, now: int)
      requires Wired() && pkt.body.kind == PRESENCE_QUERY
      modifies transport
      ensures Now() == Machine.DispatchControl(transport.cfg, old(Now()), pkt, conn, now)
    {
      var cell := StrField(transport.cfg.lib.unpack(pkt.body.payload), "cell_id");
      PresenceAnswer(transport.cfg, Now(), pkt, conn, now);
      if cell.Some? {
        var answer := new PacketObject(MakePresenceResponse(
          transport.cfg, transport.cfg.luck(transport.tick).uuid, storage.presence, pkt, cell.value, now));
        var _ := transport.SendVia(conn, answer, storage);
      }
    }

    method HandleNodeRemove(payload: Bytes)
      requires Wired()
      modifies storage`nodes
      ensures storage.nodes == match StrField(transport.cfg.lib.unpack(payload), "node_id")
                               case Some(id) => Tables.RemoveNode(old(storage.nodes), id)
                               case None => old(storage.nodes)
    {
      var id := StrField(transport.cfg.lib.unpack(payload), "node_id");
      if id.Some? {
        storage.RemoveNode(id.value);
      }
    }

    method HandleNodeLeaving(pkt: Packet, conn: Conn, now: int)
      requires Wired() && pkt.body.kind == NODE_LEAVING
      modifies storage`nodes, transport.registry
      ensures Now() == Machine.DispatchControl(transport.cfg, old(Now()), pkt, conn, now)
    {
      storage.RemoveNode(pkt.body.fromAddr);
      transport.registry.Remove(pkt.body.fromAddr);
    }

    /** Packets that only the node table hears of. */
    method DispatchTable(pkt: Packet, conn: Conn, now: int)
      requires Wired()
      requires pkt.body.kind != PING && pkt.body.kind != PRESENCE_QUERY && pkt.body.kind != NODE_LEAVING
      modifies storage`nodes
      ensures Now() == Machine.DispatchControl(transport.cfg, old(Now()), pkt, conn, now)
    {
      match pkt.body.kind {
        case "pong" => storage.UpdateNodePing(pkt.body.fromAddr, true, now);
        case "gossip" => gossip.HandleGossip(pkt.body.payload, now);
        case "node_remove" => HandleNodeRemove(pkt.body.payload);
        case _ =>
      }
    }

    method DispatchControl(pkt: Packet, conn: Conn, now: int)
      requires Wired()
      modifies storage`nodes, transport, transport.registry
      ensures Now() == Machine.DispatchControl(transport.cfg, old(Now()), pkt, conn, now)
    {
      match pkt.body.kind {
        case "ping" => HandlePing(pkt, conn, now);
        case "presence_query" => HandlePresenceQuery(pkt, conn, now);
        case "node_leaving" => HandleNodeLeaving(pkt, conn, now);
        case _ => DispatchTable(pkt, conn, now);
      }
    }

    method Dispatch(pkt: Packet, conn: Conn, now: int) returns (ghost order: seq<string>)
      requires Wired()
      modifies storage, transport, transport.registry
      ensures pkt.body.kind == CELL_REGISTER ==>
                FlushOrder(transport.cfg, old(Now()), pkt.body.payload, conn, now, order)
      ensures Now() == Machine.Dispatch(transport.cfg, old(Now()), pkt, conn, now, order)
    {
      order := [];
      if pkt.body.kind == MSG {
        var message := new PacketObject(pkt);
        var _ := router.Route(message, now);
      } else if pkt.body.kind == CELL_REGISTER {
        order := HandleCellRegister(pkt.body.payload, conn, now);
      } else {
        DispatchControl(pkt, conn, now);
      }
    }

    /** One turn of the receive loop; false when the loop ends. */
    method Receive(raw: Bytes, conn: Conn, now: int) returns (goOn: bool, ghost order: seq<string>)
      requires Wired()
      modifies storage, transport, transport.registry
      ensures goOn == Unpack(transport.cfg.lib, raw).Some?
      ensures ReceiveOrder(transport.cfg, old(Now()), raw, conn, now, order)
      ensures Now() == Machine.Receive(transport.cfg, old(Now()), raw, conn, now, order)
    {
      order := [];
      var pkt := Unpack(transport.cfg.lib, raw);
      goOn := pkt.Some?;
      if pkt == None {
        transport.registry.Remove(conn.peerNodeId);
        return;
      }
      if VerifyPacket(transport.cfg.lib, pkt.value, conn.signingPub) {
        order := Dispatch(pkt.value, conn, now);
      }
    }

    /** False where the program raises. */
    method Join(address: string, reply: Reply, now: int) returns (ok: bool)
      requires Wired()
      modifies storage`nodes, transport, transport.registry
      ensures ok == (':' in address && Authenticate(transport.cfg, reply, None).Some?)
      ensures Now() == Machine.Join(transport.cfg, old(Now()), address, reply, now)
    {
      if ':' !in address {
        return false;
      }
      var conn := transport.AddAuthenticated(reply, None, storage);
      if conn == None {
        return false;
      }
      storage.UpsertNode(conn.value.peerNodeId, SelfRow(address, "open", now), now);
      return true;
    }

    method CreateGenesis(address: string, access: string, now: int)
      requires Wired()
      modifies storage`nodes
      ensures Now() == Genesis(transport.cfg, old(Now()), address, access, now)
    {
      storage.UpsertNode(Me(transport.cfg), SelfRow(address, access, now), now);
    }

    method RegisterCellLocally(cell: string, signingPub: Bytes, encPub: Bytes, now: int)
      requires Wired()
      modifies storage`cells, storage`presence
      ensures Now() == Step(transport.cfg, old(Now()), RegisteredLocally(cell, signingPub, encPub, now))
    {
      storage.RegisterCell(cell, signingPub, encPub, true, now);
      storage.UpdatePresence(cell, Me(transport.cfg), None, now);
    }
  }
}
