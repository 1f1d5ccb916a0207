// One node as a state machine: what each packet handler, each gossip round and each call
// from outside does to the tables, the connections and the packets. Whatever the network
// decides - whether a send goes through, who answers a connection attempt - and each fresh
// packet id is an input, luck(tick), where tick counts the attempts made so far.
module Machine {
  import opened Text
  import opened Primitives
  import opened Protocol
  import opened Tables
  import opened Auth
  import opened Merge

  /** An authenticated connection. */
  datatype Conn = Conn(peerNodeId: string, signingPub: Bytes, encPub: Bytes)

  /** The peer's answer in a handshake, and the nonce it answers. */
  datatype Reply = Reply(response: Packet, nonce: Bytes)

  datatype Luck = Luck(delivered: bool, reached: Option<Reply>, uuid: string)

  datatype Config = Config(lib: Library, who: Identity, hasHandler: bool, luck: nat -> Luck)

  datatype Reason = UnknownCell | NoHandler | Unreachable | DuplicateId

  /** What became of a packet. */
  datatype Fate =
    | Sent(conn: Conn, pkt: Packet)
    | Handled(pkt: Packet)
    | Dropped(reason: Reason, body: Body)
    | Expired(rows: Buffer)

  datatype State = State(
    nodes: NodeTable, cells: CellTable, presence: PresenceTable, buffer: Buffer,
    conns: map<string, Conn>, accepted: set<Conn>, log: seq<Fate>, tick: nat)

  /** The state after trying to pass a packet on, the packet as it then is, and the verdict. */
  datatype Attempt = Attempt(s: State, pkt: Packet, ok: bool)

  function Me(c: Config): string {
    IdOf(c.lib, c.who)
  }

  /** A fresh packet id. */
  function Uuid(c: Config, s: State): string {
    c.luck(s.tick).uuid
  }

  // --- transport ---

  function ConnOf(r: AuthResult): Conn {
    Conn(r.nodeId, r.signingPub, r.encPub)
  }

  /** The connection to a peer that answered honestly. */
  function PeerConn(lib: Library, who: Identity): Conn {
    Conn(IdOf(lib, who), lib.signPub(who.signKey), lib.dhPub(who.encKey))
  }

  function Authenticate(c: Config, reply: Reply, expected: Option<string>): Option<Conn> {
    match VerifyResponse(c.lib, reply.response, reply.nonce, expected)
    case Some(r) => Some(ConnOf(r))
    case None => None
  }

  function Register(s: State, conn: Conn): State {
    s.(conns := s.conns[conn.peerNodeId := conn], accepted := s.accepted + {conn})
  }

  function Unregister(s: State, id: string): State {
    s.(conns := s.conns - {id})
  }

  function SendVia(c: Config, s: State, conn: Conn, pkt: Packet): Attempt {
    var signed := Signed(c.lib, pkt, c.who.signKey);
    if c.luck(s.tick).delivered
    then Attempt(s.(tick := s.tick + 1, log := s.log + [Sent(conn, signed)]), signed, true)
    else Attempt(s.(tick := s.tick + 1), signed, false)
  }

  function SendTo(c: Config, s: State, id: string, pkt: Packet): Attempt {
    if id !in s.conns then Attempt(s, pkt, false)
    else
      var a := SendVia(c, s, s.conns[id], pkt);
      if a.ok then a else a.(s := Unregister(a.s, id))
  }

  function ConnectToNode(c: Config, s: State, id: string): (State, Option<Conn>) {
    var s1 := s.(tick := s.tick + 1);
    match c.luck(s.tick).reached
    case None => (s1, None)
    case Some(reply) =>
      match Authenticate(c, reply, Some(id))
      case None => (s1, None)
      case Some(conn) => (Register(s1, conn), Some(conn))
  }

  // --- router ---

  function DeliverLocal(c: Config, s: State, pkt: Packet): Attempt {
    var cell := ParseAddr(pkt.body.toAddr).0;
    var a := if cell.Some? && cell.value != "" then SendTo(c, s, cell.value, pkt) else Attempt(s, pkt, false);
    if a.ok then a
    else
      var f := if c.hasHandler then Handled(a.pkt) else Dropped(NoHandler, a.pkt.body);
      Attempt(a.s.(log := a.s.log + [f]), a.pkt, true)
  }

  function SendToNode(c: Config, s: State, id: string, pkt: Packet): Attempt {
    if id == Me(c) then DeliverLocal(c, s, pkt)
    else
      var a := SendTo(c, s, id, pkt);
      if a.ok || id !in a.s.nodes || a.s.nodes[id].status != ONLINE then a
      else
        match ConnectToNode(c, a.s, id)
        case (s1, None) => Attempt(s1, a.pkt, false)
        case (s1, Some(conn)) => SendVia(c, s1, conn, a.pkt)
  }

  function Park(c: Config, s: State, cell: string, home: string, pkt: Packet, now: int): State {
    if pkt.body.id in s.buffer then s.(log := s.log + [Dropped(DuplicateId, pkt.body)])
    else s.(buffer := BufferMessage(s.buffer, pkt.body.id, cell, home, SerializePacket(c.lib, pkt), now))
  }

  /** To the visiting node, if the presence row names one. */
  function TryVisiting(c: Config, s: State, p: PresenceRow, pkt: Packet): Attempt {
    if p.visiting.Some? && p.visiting.value != "" then SendToNode(c, s, p.visiting.value, pkt)
    else Attempt(s, pkt, false)
  }

  /** The visiting node, then the home node. */
  function TryNodes(c: Config, s: State, p: PresenceRow, pkt: Packet): Attempt {
    var a := TryVisiting(c, s, p, pkt);
    if a.ok then a else SendToNode(c, a.s, p.home, a.pkt)
  }

  /** ok says that the packet was not put in the buffer. */
  function Route(c: Config, s: State, pkt: Packet, now: int): Attempt {
    match ParseAddr(pkt.body.toAddr)
    case (None, node) =>
      var a := SendToNode(c, s, node, pkt);
      if a.ok then a else Attempt(a.s.(log := a.s.log + [Dropped(Unreachable, a.pkt.body)]), a.pkt, true)
    case (Some(cell), _) =>
      if cell !in s.presence then
        if cell in s.cells then DeliverLocal(c, s, pkt)
        else Attempt(s.(log := s.log + [Dropped(UnknownCell, pkt.body)]), pkt, true)
      else
        var a := TryNodes(c, s, s.presence[cell], pkt);
        if a.ok then a
        else Attempt(Park(c, a.s, cell, s.presence[cell].home, a.pkt, now), a.pkt, pkt.body.id in s.buffer)
  }

  /** One buffered message: route it, then delete its row. An unreadable row stays. */
  function FlushOne(c: Config, s: State, id: string, row: BufferRow, now: int): State {
    match Unpack(c.lib, row.payload)
    case None => s
    case Some(pkt) =>
      var a := Route(c, s, pkt, now);
      a.s.(buffer := DeleteBuffered(a.s.buffer, id))
  }

  /** ids are rows of b, the buffer as it was read before the loop. */
  function Flush(c: Config, s: State, b: Buffer, ids: seq<string>, now: int): State
    requires forall id :: id in ids ==> id in b
    decreases |ids|
  {
    if ids == [] then s else Flush(c, FlushOne(c, s, ids[0], b[ids[0]], now), b, ids[1..], now)
  }

  // --- node ---

  datatype Claim = Claim(cellId: string, signingPub: Bytes, encPub: Bytes, isHome: bool)

  function DecodeClaim(lib: Library, payload: Bytes): Option<Claim> {
    var data := lib.unpack(payload);
    match (StrField(data, "cell_id"), BinField(data, "signing_pubkey"), BinField(data, "enc_pubkey"))
    case (Some(cell), Some(signingPub), Some(encPub)) =>
      var d := data.value.fields;
      Some(Claim(cell, signingPub, encPub, if "is_home" in d then !Falsy(d["is_home"]) else true))
    case _ => None
  }

  function RegisterClaim(c: Config, s: State, cl: Claim, now: int): State {
    s.(cells := RegisterCell(s.cells, cl.cellId, cl.signingPub, cl.encPub, cl.isHome, now),
       presence := UpdatePresence(s.presence, cl.cellId, Me(c), None, now))
  }

  /** The claim, if the connection has proven it. */
  function ProvenClaim(c: Config, payload: Bytes, conn: Conn): Option<Claim> {
    match DecodeClaim(c.lib, payload)
    case Some(cl) =>
      if cl.signingPub == conn.signingPub && cl.cellId == conn.peerNodeId then Some(cl) else None
    case None => None
  }

  /** The ids flush_buffer reads, once the claim is registered, in some order. */
  ghost predicate FlushOrder(c: Config, s: State, payload: Bytes, conn: Conn, now: int, order: seq<string>) {
    match ProvenClaim(c, payload, conn)
    case Some(cl) => Lists(order, Buffered(s.buffer, cl.cellId, now).Keys)
    case None => order == []
  }

  ghost function HandleCellRegister(c: Config, s: State, payload: Bytes, conn: Conn, now: int, order: seq<string>)
    : State
    requires FlushOrder(c, s, payload, conn, now, order)
  {
    match ProvenClaim(c, payload, conn)
    case None => s
    case Some(cl) => Flush(c, RegisterClaim(c, s, cl, now), s.buffer, order, now)
  }

  function MakePong(c: Config, uuid: string, ping: Packet, now: int): Packet {
    Packet(PROTO_VERSION,
           Body(uuid, PONG, Me(c), ping.body.fromAddr,
                c.lib.pack(Dict(map["ping_id" := Str(ping.body.id)])), now), [])
  }

  function OrNil(s: Option<string>): Value {
    if s.Some? then Str(s.value) else Nil
  }

  function MakePresenceResponse(c: Config, uuid: string, t: PresenceTable, query: Packet, cell: string, now: int): Packet {
    var payload := Dict(map[
      "cell_id" := Str(cell),
      "home_node_id" := if cell in t then Str(t[cell].home) else Nil,
      "visiting_node_id" := if cell in t then OrNil(t[cell].visiting) else Nil]);
    Packet(PROTO_VERSION,
           Body(uuid, PRESENCE_RESPONSE, Me(c), query.body.fromAddr, c.lib.pack(payload), now), [])
  }

  /** What the liveness packets do to the node table. */
  ghost function TableAfter(lib: Library, t: NodeTable, pkt: Packet, now: int): NodeTable {
    var kind, payload, from := pkt.body.kind, pkt.body.payload, pkt.body.fromAddr;
    if kind == PONG then UpdateNodePing(t, from, true, now)
    else if kind == GOSSIP then MergeOf(t, DecodeGossip(lib, payload), now)
    else if kind == NODE_LEAVING then RemoveNode(t, from)
    else if kind == NODE_REMOVE then
      match StrField(lib.unpack(payload), "node_id")
      case Some(id) => RemoveNode(t, id)
      case None => t
    else t
  }

  /** The answer to a ping or to a presence query, if this is one. */
  function ReplyTo(c: Config, s: State, pkt: Packet, now: int): Option<Packet> {
    if pkt.body.kind == PING then Some(MakePong(c, Uuid(c, s), pkt, now))
    else if pkt.body.kind == PRESENCE_QUERY then
      match StrField(c.lib.unpack(pkt.body.payload), "cell_id")
      case Some(cell) => Some(MakePresenceResponse(c, Uuid(c, s), s.presence, pkt, cell, now))
      case None => None
    else None
  }

  /** Packets that neither route a message nor register a cell. */
  ghost function DispatchControl(c: Config, s: State, pkt: Packet, conn: Conn, now: int): State {
    var s1 := s.(nodes := TableAfter(c.lib, s.nodes, pkt, now));
    if pkt.body.kind == NODE_LEAVING then Unregister(s1, pkt.body.fromAddr)
    else
      match ReplyTo(c, s, pkt, now)
      case Some(reply) => SendVia(c, s1, conn, reply).s
      case None => s1
  }

  ghost function Dispatch(c: Config, s: State, pkt: Packet, conn: Conn, now: int, order: seq<string>): State
    requires pkt.body.kind == CELL_REGISTER ==> FlushOrder(c, s, pkt.body.payload, conn, now, order)
  {
    if pkt.body.kind == MSG then Route(c, s, pkt, now).s
    else if pkt.body.kind == CELL_REGISTER then HandleCellRegister(c, s, pkt.body.payload, conn, now, order)
    else DispatchControl(c, s, pkt, conn, now)
  }

  /** The packet in raw, if it is one and carries the signature of the connection's peer. */
  function Genuine(c: Config, raw: Bytes, conn: Conn): Option<Packet> {
    match Unpack(c.lib, raw)
    case Some(p) => if VerifyPacket(c.lib, p, conn.signingPub) then Some(p) else None
    case None => None
  }

  /** One turn of the receive loop. Bytes that are no packet end the loop. */
  ghost function Receive(c: Config, s: State, raw: Bytes, conn: Conn, now: int, order: seq<string>): State
    requires ReceiveOrder(c, s, raw, conn, now, order)
  {
    if Unpack(c.lib, raw).None? then Unregister(s, conn.peerNodeId)
    else
      match Genuine(c, raw, conn)
      case None => s
      case Some(p) => Dispatch(c, s, p, conn, now, order)
  }

  ghost predicate ReceiveOrder(c: Config, s: State, raw: Bytes, conn: Conn, now: int, order: seq<string>) {
    match Genuine(c, raw, conn)
    case Some(p) => p.body.kind == CELL_REGISTER ==> FlushOrder(c, s, p.body.payload, conn, now, order)
    case None => true
  }

  // --- gossip round ---

  function MakePing(c: Config, uuid: string, to: string, now: int): Packet {
    Packet(PROTO_VERSION, Body(uuid, PING, Me(c), to, [], now), [])
  }

  /** Reach the node - over the connection there is, or a new one - and send a ping. */
  function ProbeNode(c: Config, s: State, id: string, now: int): (State, bool) {
    var (s1, conn) := if id in s.conns then (s, Some(s.conns[id])) else ConnectToNode(c, s, id);
    match conn
    case None => (s1, false)
    case Some(k) =>
      var a := SendVia(c, s1, k, MakePing(c, Uuid(c, s1), id, now));
      (a.s, a.ok)
  }

  function PingNode(c: Config, s: State, id: string, now: int): State {
    var (s1, ok) := ProbeNode(c, s, id, now);
    s1.(nodes := UpdateNodePing(s1.nodes, id, ok, now))
  }

  /** Everyone in the list except ourselves. */
  function PingAll(c: Config, s: State, ids: seq<string>, now: int): State
    decreases |ids|
  {
    if ids == [] then s
    else PingAll(c, if ids[0] == Me(c) then s else PingNode(c, s, ids[0], now), ids[1..], now)
  }

  function ExpireMessages(s: State, now: int): State {
    s.(buffer := CleanupMessages(s.buffer, now), log := s.log + [Expired(ExpiredMessages(s.buffer, now))])
  }

  function Cleanup(s: State, now: int): State {
    ExpireMessages(s.(nodes := CleanupNodes(s.nodes, now)), now)
  }

  function MakeGossip(c: Config, uuid: string, t: NodeTable, listing: seq<string>, now: int): Packet
    requires forall id :: id in listing ==> id in t
  {
    Packet(PROTO_VERSION,
           Body(uuid, GOSSIP, Me(c), "", GossipPayload(c.lib, t, listing), now), [])
  }

  /** Push the whole table to each sampled peer that is connected. */
  function Exchange(c: Config, s: State, peers: seq<string>, listing: seq<string>, now: int): (r: State)
    requires forall id :: id in listing ==> id in s.nodes
    ensures r.nodes == s.nodes
    decreases |peers|
  {
    if peers == [] then s
    else
      var s1 := if peers[0] in s.conns
                then SendVia(c, s, s.conns[peers[0]], MakeGossip(c, Uuid(c, s), s.nodes, listing, now)).s else s;
      Exchange(c, s1, peers[1..], listing, now)
  }

  const GOSSIP_FANOUT := 3

  ghost function OnlinePeers(c: Config, t: NodeTable): set<string> {
    set id | id in t && t[id].status == ONLINE && id != Me(c)
  }

  ghost predicate Sample(c: Config, t: NodeTable, peers: seq<string>) {
    var online := OnlinePeers(c, t);
    && (forall id :: id in peers ==> id in online)
    && (forall i, j :: 0 <= i < j < |peers| ==> peers[i] != peers[j])
    && |peers| == if |online| < GOSSIP_FANOUT then |online| else GOSSIP_FANOUT
  }

  function BeforeExchange(c: Config, s: State, ids: seq<string>, now: int): State {
    Cleanup(PingAll(c, s, ids, now), now)
  }

  /** What a round reads: the table before it, a sample of the peers then online, and the
      table after the cleanup. */
  ghost predicate RoundOrders(c: Config, s: State, ids: seq<string>, peers: seq<string>, listing: seq<string>, now: int) {
    && Lists(ids, s.nodes.Keys)
    && Sample(c, s.nodes, peers)
    && Lists(listing, BeforeExchange(c, s, ids, now).nodes.Keys)
  }

  ghost function Round(c: Config, s: State, ids: seq<string>, peers: seq<string>, listing: seq<string>, now: int): State
    requires RoundOrders(c, s, ids, peers, listing, now)
  {
    Exchange(c, BeforeExchange(c, s, ids, now), peers, listing, now)
  }

  // --- joining ---

  function SelfRow(address: string, access: string, now: int): NodeRow {
    NodeRow(address, Words("permanent"), Words(access), [], "", now, 0, ONLINE, now)
  }

  function Genesis(c: Config, s: State, address: string, access: string, now: int): State {
    s.(nodes := UpsertNode(s.nodes, Me(c), SelfRow(address, access, now), now))
  }

  /** Connect, and put the peer that answered into the table. */
  function Join(c: Config, s: State, address: string, reply: Reply, now: int): State {
    if ':' !in address then s
    else
      match Authenticate(c, reply, None)
      case None => s
      case Some(conn) =>
        var s1 := Register(s, conn);
        s1.(nodes := UpsertNode(s1.nodes, conn.peerNodeId, SelfRow(address, "open", now), now))
  }

  // --- events and runs ---

  datatype Event =
    | Received(conn: Conn, raw: Bytes, now: int, order: seq<string>)
    | Submitted(pkt: Packet, now: int)
    | Accepted(reply: Reply)
    | Closed(peer: string)
    | Gossiped(ids: seq<string>, peers: seq<string>, listing: seq<string>, now: int)
    | Created(address: string, access: string, now: int)
    | Joined(address: string, reply: Reply, now: int)
    | RegisteredLocally(cell: string, signingPub: Bytes, encPub: Bytes, now: int)
    | PresenceSet(cell: string, home: string, visiting: Option<string>, now: int)

  ghost predicate Enabled(c: Config, s: State, e: Event) {
    match e
    case Received(conn, raw, now, order) => conn in s.accepted && ReceiveOrder(c, s, raw, conn, now, order)
    case Submitted(pkt, _) => pkt.body.kind == MSG
    case Gossiped(ids, peers, listing, now) => RoundOrders(c, s, ids, peers, listing, now)
    case _ => true
  }

  ghost function Step(c: Config, s: State, e: Event): State
    requires Enabled(c, s, e)
  {
    match e
    case Received(conn, raw, now, order) => Receive(c, s, raw, conn, now, order)
    case Submitted(pkt, now) => Route(c, s, pkt, now).s
    case Accepted(reply) =>
      (match Authenticate(c, reply, None)
       case Some(conn) => Register(s, conn)
       case None => s)
    case Closed(peer) => Unregister(s, peer)
    case Gossiped(ids, peers, listing, now) => Round(c, s, ids, peers, listing, now)
    case Created(address, access, now) => Genesis(c, s, address, access, now)
    case Joined(address, reply, now) => Join(c, s, address, reply, now)
    case RegisteredLocally(cell, signingPub, encPub, now) =>
      s.(cells := RegisterCell(s.cells, cell, signingPub, encPub, true, now),
         presence := UpdatePresence(s.presence, cell, Me(c), None, now))
    case PresenceSet(cell, home, visiting, now) =>
      s.(presence := UpdatePresence(s.presence, cell, home, visiting, now))
  }

  /** run[0] is the start; each further state is one enabled event on. */
  ghost predicate IsRun(c: Config, states: seq<State>, events: seq<Event>) {
    && |states| == |events| + 1
    && forall i :: 0 <= i < |events| ==> Enabled(c, states[i], events[i]) && states[i + 1] == Step(c, states[i], events[i])
  }
}
