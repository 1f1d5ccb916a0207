// What holds of a node in every reachable state: registered and accepted connections are
// named by the key they proved, registered cells too, whatever was sent carries the node's
// signature, and no message with a fresh id is swallowed by the buffer.
module Invariants {
  import opened Text
  import opened Protocol
  import opened Tables
  import opened Machine
  import opened Ledger
  import opened Fates

  predicate BoundConn(conn: Conn) {
    conn.peerNodeId == Hex(conn.signingPub)
  }

  /** Every accepted connection is named by its key; every registered one is filed under that name. */
  ghost predicate Bound(s: State) {
    && (forall conn :: conn in s.accepted ==> BoundConn(conn))
    && (forall id :: id in s.conns ==> s.conns[id] in s.accepted && s.conns[id].peerNodeId == id)
  }

  /** Whatever was sent carries this node's own signature. */
  ghost predicate AllSigned(c: Config, log: seq<Fate>) {
    forall i :: 0 <= i < |log| && log[i].Sent? ==> log[i].pkt == Signed(c.lib, log[i].pkt, c.who.signKey)
  }

  ghost predicate NoDuplicateDrop(log: seq<Fate>) {
    forall i :: 0 <= i < |log| ==> !(log[i].Dropped? && log[i].reason == DuplicateId)
  }

  /** What every handler keeps, the last when the message it routes has a fresh id. */
  ghost predicate KeptIf(c: Config, s: State, t: State, isFresh: bool) {
    && (Bound(s) ==> Bound(t))
    && (AllSigned(c, s.log) ==> AllSigned(c, t.log))
    && (isFresh && NoDuplicateDrop(s.log) ==> NoDuplicateDrop(t.log))
  }

  ghost predicate Kept(c: Config, s: State, t: State) {
    KeptIf(c, s, t, true)
  }

  lemma KeptThen(c: Config, s: State, t: State, u: State)
    requires Kept(c, s, t) && Kept(c, t, u)
    ensures Kept(c, s, u)
  {
  }

  lemma AcceptKeeps(c: Config, s: State, reply: Reply, expected: Option<string>)
    requires Authenticate(c, reply, expected).Some?
    ensures Kept(c, s, Register(s, Authenticate(c, reply, expected).value))
  {
  }

  lemma TickKeeps(c: Config, s: State)
    ensures Kept(c, s, Ticked(s))
  {
  }

  /** The state a connection attempt starts from. */
  function Ticked(s: State): State {
    s.(tick := s.tick + 1)
  }

  lemma ConnectCases(c: Config, s: State, id: string)
    ensures var t := ConnectToNode(c, s, id).0;
            || t == Ticked(s)
            || exists reply: Reply :: Authenticate(c, reply, Some(id)).Some?
                                      && t == Register(Ticked(s), Authenticate(c, reply, Some(id)).value)
  {
  }

  lemma ConnectKeeps(c: Config, s: State, id: string)
    ensures Kept(c, s, ConnectToNode(c, s, id).0)
  {
    var t := ConnectToNode(c, s, id).0;
    ConnectCases(c, s, id);
    TickKeeps(c, s);
    if t != Ticked(s) {
      var reply: Reply :| Authenticate(c, reply, Some(id)).Some?
                          && t == Register(Ticked(s), Authenticate(c, reply, Some(id)).value);
      AcceptKeeps(c, Ticked(s), reply, Some(id));
      KeptThen(c, s, Ticked(s), t);
    }
  }

  lemma SendToKeeps(c: Config, s: State, id: string, pkt: Packet)
    ensures Kept(c, s, SendTo(c, s, id, pkt).s)
  {
  }

  lemma EndKeeps(c: Config, s: State, t: State, f: Fate)
    requires Kept(c, s, t) && !f.Sent? && (f.Dropped? ==> f.reason != DuplicateId)
    ensures Kept(c, s, t.(log := t.log + [f]))
  {
  }

  lemma LocalKeeps(c: Config, s: State, pkt: Packet)
    ensures Kept(c, s, DeliverLocal(c, s, pkt).s)
  {
    var cell := ParseAddr(pkt.body.toAddr).0;
    var a := if cell.Some? && cell.value != "" then SendTo(c, s, cell.value, pkt) else Attempt(s, pkt, false);
    if cell.Some? && cell.value != "" {
      SendToKeeps(c, s, cell.value, pkt);
    }
    EndKeeps(c, s, a.s, if c.hasHandler then Handled(a.pkt) else Dropped(NoHandler, a.pkt.body));
  }

  lemma SendToNodeKeeps(c: Config, s: State, id: string, pkt: Packet)
    ensures Kept(c, s, SendToNode(c, s, id, pkt).s)
  {
    if id == Me(c) {
      LocalKeeps(c, s, pkt);
    } else {
      SendToKeeps(c, s, id, pkt);
      var a := SendTo(c, s, id, pkt);
      ConnectKeeps(c, a.s, id);
      var (s1, conn) := ConnectToNode(c, a.s, id);
      if conn.Some? {
        SendViaKeeps(c, s1, conn.value, a.pkt);
      }
    }
  }

  lemma TryNodesKeeps(c: Config, s: State, p: PresenceRow, pkt: Packet)
    ensures Kept(c, s, TryNodes(c, s, p, pkt).s)
  {
    if Visits(p) {
      SendToNodeKeeps(c, s, p.visiting.value, pkt);
    }
    var a := TryVisiting(c, s, p, pkt);
    SendToNodeKeeps(c, a.s, p.home, a.pkt);
  }

  lemma ParkKeeps(c: Config, s: State, t: State, cell: string, home: string, pkt: Packet, now: int)
    requires Kept(c, s, t)
    ensures KeptIf(c, s, Park(c, t, cell, home, pkt, now), pkt.body.id !in t.buffer)
  {
  }

  lemma RouteKeeps(c: Config, s: State, pkt: Packet, now: int)
    ensures KeptIf(c, s, Route(c, s, pkt, now).s, pkt.body.id !in s.buffer)
  {
    match ParseAddr(pkt.body.toAddr)
    case (None, node) =>
      SendToNodeKeeps(c, s, node, pkt);
      var a := SendToNode(c, s, node, pkt);
      EndKeeps(c, s, a.s, Dropped(Unreachable, a.pkt.body));
    case (Some(cell), _) =>
      if cell in s.presence {
        TryNodesTried(c, s, s.presence[cell], pkt);
        TryNodesKeeps(c, s, s.presence[cell], pkt);
        var a := TryNodes(c, s, s.presence[cell], pkt);
        ParkKeeps(c, s, a.s, cell, s.presence[cell].home, a.pkt, now);
      } else {
        LocalKeeps(c, s, pkt);
        EndKeeps(c, s, s, Dropped(UnknownCell, pkt.body));
      }
  }

  lemma {:induction false} FlushKeeps(c: Config, s: State, rows: Buffer, ids: seq<string>, now: int, cell: string)
    requires Flushable(c, s, rows, ids, cell)
    ensures Kept(c, s, Flush(c, s, rows, ids, now))
    decreases |ids|
  {
    if ids != [] {
      var s1 := FlushOne(c, s, ids[0], rows[ids[0]], now);
      FlushOneKeeps(c, s, ids[0], rows[ids[0]], now, cell);
      FlushableNext(c, s, rows, ids, now, cell);
      FlushKeeps(c, s1, rows, ids[1..], now, cell);
    }
  }

  lemma FlushOneKeeps(c: Config, s: State, id: string, row: BufferRow, now: int, cell: string)
    requires BufferOk(c.lib, s.buffer) && AtHome(c, s, cell)
    requires id in s.buffer && s.buffer[id] == row && row.toCell == cell
    ensures Kept(c, s, FlushOne(c, s, id, row, now))
  {
    assert RowOk(c.lib, id, row);
    var pkt := Unpack(c.lib, row.payload).value;
    RouteAtHome(c, s, pkt, now, cell);
    LocalKeeps(c, s, pkt);
  }

  lemma {:induction false} PingAllKeeps(c: Config, s: State, ids: seq<string>, now: int)
    ensures Kept(c, s, PingAll(c, s, ids, now))
    decreases |ids|
  {
    if ids != [] {
      var s1 := if ids[0] == Me(c) then s else PingNode(c, s, ids[0], now);
      PingKeeps(c, s, ids[0], now);
      PingAllKeeps(c, s1, ids[1..], now);
    }
  }

  lemma SendViaKeeps(c: Config, s: State, conn: Conn, pkt: Packet)
    ensures Kept(c, s, SendVia(c, s, conn, pkt).s)
  {
  }

  lemma PingKeeps(c: Config, s: State, id: string, now: int)
    ensures Kept(c, s, PingNode(c, s, id, now))
  {
    var (s1, conn) := if id in s.conns then (s, Some(s.conns[id])) else ConnectToNode(c, s, id);
    ConnectKeeps(c, s, id);
    if conn.Some? {
      SendViaKeeps(c, s1, conn.value, MakePing(c, Uuid(c, s1), id, now));
    }
  }

  lemma {:induction false} ExchangeKeeps(c: Config, s: State, peers: seq<string>, listing: seq<string>, now: int)
    requires forall id :: id in listing ==> id in s.nodes
    ensures Kept(c, s, Exchange(c, s, peers, listing, now))
    decreases |peers|
  {
    if peers != [] {
      var s1 := if peers[0] in s.conns
                then SendVia(c, s, s.conns[peers[0]], MakeGossip(c, Uuid(c, s), s.nodes, listing, now)).s else s;
      if peers[0] in s.conns {
        SendViaKeeps(c, s, s.conns[peers[0]], MakeGossip(c, Uuid(c, s), s.nodes, listing, now));
      }
      ExchangeKeeps(c, s1, peers[1..], listing, now);
    }
  }

  lemma RegisterKeeps(c: Config, s: State, payload: Bytes, conn: Conn, now: int, order: seq<string>)
    requires BufferOk(c.lib, s.buffer) && FlushOrder(c, s, payload, conn, now, order)
    ensures Kept(c, s, HandleCellRegister(c, s, payload, conn, now, order))
  {
    match ProvenClaim(c, payload, conn)
    case None =>
    case Some(cl) => FlushKeeps(c, RegisterClaim(c, s, cl, now), s.buffer, order, now, cl.cellId);
  }

  lemma CleanupKeeps(c: Config, s: State, now: int)
    ensures Kept(c, s, Cleanup(s, now))
  {
  }

  lemma RoundKeeps(c: Config, s: State, ids: seq<string>, peers: seq<string>, listing: seq<string>, now: int)
    requires RoundOrders(c, s, ids, peers, listing, now)
    ensures Kept(c, s, Round(c, s, ids, peers, listing, now))
  {
    var pinged, cleaned := PingAll(c, s, ids, now), BeforeExchange(c, s, ids, now);
    PingAllKeeps(c, s, ids, now);
    CleanupKeeps(c, pinged, now);
    ExchangeKeeps(c, cleaned, peers, listing, now);
    KeptThen(c, s, pinged, cleaned);
    KeptThen(c, s, cleaned, Round(c, s, ids, peers, listing, now));
  }

  lemma ReceiveKeeps(c: Config, s: State, raw: Bytes, conn: Conn, now: int, order: seq<string>)
    requires BufferOk(c.lib, s.buffer) && ReceiveOrder(c, s, raw, conn, now, order)
    ensures KeptIf(c, s, Receive(c, s, raw, conn, now, order), FreshFor(c, s, Received(conn, raw, now, order)))
  {
    var p := Genuine(c, raw, conn);
    if p.Some? {
      if p.value.body.kind == MSG {
        RouteKeeps(c, s, p.value, now);
      } else if p.value.body.kind == CELL_REGISTER {
        RegisterKeeps(c, s, p.value.body.payload, conn, now, order);
      } else {
        ControlKeeps(c, s, p.value, conn, now);
      }
    }
  }

  lemma ControlKeeps(c: Config, s: State, pkt: Packet, conn: Conn, now: int)
    ensures Kept(c, s, DispatchControl(c, s, pkt, conn, now))
  {
    var s1 := s.(nodes := TableAfter(c.lib, s.nodes, pkt, now));
    var reply := ReplyTo(c, s, pkt, now);
    if pkt.body.kind != NODE_LEAVING && reply.Some? {
      SendViaKeeps(c, s1, conn, reply.value);
    }
  }

  /** The message this event routes, if any, has an id that is free in the buffer. */
  ghost predicate FreshFor(c: Config, s: State, e: Event) {
    Given(c, e).Some? ==> Given(c, e).value.id !in s.buffer
  }

  lemma BystanderKeeps(c: Config, s: State, e: Event)
    requires Bystander(e)
    ensures Kept(c, s, Step(c, s, e))
  {
    if e.Accepted? && Authenticate(c, e.reply, None).Some? {
      AcceptKeeps(c, s, e.reply, None);
    }
    if e.Joined? && Authenticate(c, e.reply, None).Some? {
      AcceptKeeps(c, s, e.reply, None);
    }
  }

  lemma StepKeeps(c: Config, s: State, e: Event)
    requires BufferOk(c.lib, s.buffer) && Enabled(c, s, e)
    ensures KeptIf(c, s, Step(c, s, e), FreshFor(c, s, e))
  {
    if Bystander(e) {
      BystanderKeeps(c, s, e);
    } else {
      match e
      case Received(conn, raw, now, order) => ReceiveKeeps(c, s, raw, conn, now, order);
      case Submitted(pkt, now) => RouteKeeps(c, s, pkt, now);
      case Gossiped(ids, peers, listing, now) => RoundKeeps(c, s, ids, peers, listing, now);
    }
  }

  // A buffered message was given earlier.
  lemma BufferedWasGiven(c: Config, states: seq<State>, events: seq<Event>, id: string)
    requires c.lib.CodecLaw() && IsRun(c, states, events) && Pristine(states[0]) && DistinctIds(c, events)
    requires id in states[|events|].buffer
    ensures exists i :: 0 <= i < |events| && Given(c, events[i]).Some? && Given(c, events[i]).value.id == id
  {
    var s := states[|events|];
    Conservation(c, states, events, Body("", MSG, "", "", [], 0));
    assert RowOk(c.lib, id, s.buffer[id]);
    var b := Unpack(c.lib, s.buffer[id].payload).value.body;
    Conservation(c, states, events, b);
    GivenOnce(c, events, b);
  }

  lemma FreshIdFree(c: Config, states: seq<State>, events: seq<Event>)
    requires c.lib.CodecLaw() && IsRun(c, states, events) && Pristine(states[0])
    requires DistinctIds(c, events) && events != [] && Given(c, events[|events| - 1]).Some?
    ensures Given(c, events[|events| - 1]).value.id !in states[|events| - 1].buffer
  {
    var n := |events| - 1;
    var id := Given(c, events[n]).value.id;
    var before := events[..n];
    assert forall i :: 0 <= i < n ==> before[i] == events[i];
    if id in states[n].buffer {
      BufferedWasGiven(c, states[..n + 1], before, id);
    }
  }

  lemma LastStepKeeps(c: Config, states: seq<State>, events: seq<Event>)
    requires c.lib.CodecLaw() && IsRun(c, states, events) && Pristine(states[0]) && DistinctIds(c, events)
    requires events != []
    ensures Kept(c, states[|events| - 1], states[|events|])
  {
    var n := |events|;
    Conservation(c, states[..n], events[..n - 1], Body("", MSG, "", "", [], 0));
    if Given(c, events[n - 1]).Some? {
      FreshIdFree(c, states, events);
    }
    StepKeeps(c, states[n - 1], events[n - 1]);
  }

  // With distinct ids, from an empty node, INSERT OR IGNORE never swallows a message.
  lemma {:induction false} DistinctIdsNeverSwallowed(c: Config, states: seq<State>, events: seq<Event>)
    requires c.lib.CodecLaw() && IsRun(c, states, events) && Pristine(states[0]) && DistinctIds(c, events)
    ensures NoDuplicateDrop(states[|events|].log)
    decreases |events|
  {
    if events != [] {
      DistinctIdsNeverSwallowed(c, states[..|events|], events[..|events| - 1]);
      LastStepKeeps(c, states, events);
    }
  }

  // --- identity binding ---

  // Every reachable registry entry is filed under the peer id of its connection, which is
  // the hex of the key the peer proved; and whatever was sent, this node signed.
  lemma {:induction false} RegistryBound(c: Config, states: seq<State>, events: seq<Event>)
    requires c.lib.CodecLaw() && IsRun(c, states, events)
    requires BufferOk(c.lib, states[0].buffer) && Bound(states[0]) && AllSigned(c, states[0].log)
    ensures Bound(states[|events|]) && AllSigned(c, states[|events|].log)
    decreases |events|
  {
    var n := |events|;
    if n > 0 {
      RegistryBound(c, states[..n], events[..n - 1]);
      Conservation(c, states[..n], events[..n - 1], Body("", MSG, "", "", [], 0));
      StepKeeps(c, states[n - 1], events[n - 1]);
    }
  }

  /** The claim a registration packet brings, if it is genuine and its connection proved it. */
  ghost function ClaimIn(c: Config, raw: Bytes, conn: Conn): Option<Claim> {
    match Genuine(c, raw, conn)
    case Some(p) => if p.body.kind == CELL_REGISTER then ProvenClaim(c, p.body.payload, conn) else None
    case None => None
  }

  /** The cells table after an event: only a proven claim or a local registration writes it. */
  ghost function CellsAfter(c: Config, s: State, e: Event): CellTable {
    match e
    case Received(conn, raw, now, _) =>
      (match ClaimIn(c, raw, conn)
       case Some(cl) => RegisterCell(s.cells, cl.cellId, cl.signingPub, cl.encPub, cl.isHome, now)
       case None => s.cells)
    case RegisteredLocally(cell, signingPub, encPub, now) =>
      RegisterCell(s.cells, cell, signingPub, encPub, true, now)
    case _ => s.cells
  }

  lemma RegistrationCells(c: Config, s: State, payload: Bytes, conn: Conn, now: int, order: seq<string>)
    requires BufferOk(c.lib, s.buffer) && FlushOrder(c, s, payload, conn, now, order)
    ensures HandleCellRegister(c, s, payload, conn, now, order).cells
         == match ProvenClaim(c, payload, conn)
            case Some(cl) => RegisterCell(s.cells, cl.cellId, cl.signingPub, cl.encPub, cl.isHome, now)
            case None => s.cells
  {
    match ProvenClaim(c, payload, conn)
    case None =>
    case Some(cl) =>
      FlushAccount(c, RegisterClaim(c, s, cl, now), s.buffer, order, now, cl.cellId, Body("", "", "", "", [], 0));
  }

  lemma ReceiveCells(c: Config, s: State, raw: Bytes, conn: Conn, now: int, order: seq<string>)
    requires BufferOk(c.lib, s.buffer) && ReceiveOrder(c, s, raw, conn, now, order)
    ensures Receive(c, s, raw, conn, now, order).cells == CellsAfter(c, s, Received(conn, raw, now, order))
  {
    var p := Genuine(c, raw, conn);
    if p.Some? {
      if p.value.body.kind == MSG {
        RouteTried(c, s, p.value, now);
      } else if p.value.body.kind == CELL_REGISTER {
        RegistrationCells(c, s, p.value.body.payload, conn, now, order);
      } else {
        DispatchControlAccount(c, s, p.value, conn, now, Body("", MSG, "", "", [], 0));
      }
    }
  }

  lemma StepCells(c: Config, s: State, e: Event)
    requires BufferOk(c.lib, s.buffer) && Enabled(c, s, e)
    ensures Step(c, s, e).cells == CellsAfter(c, s, e)
  {
    if Bystander(e) {
      BystanderCells(c, s, e);
    } else {
      match e
      case Received(conn, raw, now, order) => ReceiveCells(c, s, raw, conn, now, order);
      case Submitted(pkt, now) => RouteTried(c, s, pkt, now);
      case Gossiped(ids, peers, listing, now) => RoundCells(c, s, ids, peers, listing, now);
    }
  }

  lemma BystanderCells(c: Config, s: State, e: Event)
    requires Bystander(e)
    ensures Step(c, s, e).cells == CellsAfter(c, s, e)
  {
  }

  lemma RoundCells(c: Config, s: State, ids: seq<string>, peers: seq<string>, listing: seq<string>, now: int)
    requires RoundOrders(c, s, ids, peers, listing, now)
    ensures Round(c, s, ids, peers, listing, now).cells == s.cells
  {
    var b := Body("", MSG, "", "", [], 0);
    PingAllAccount(c, s, ids, now, b);
    ExchangeAccount(c, BeforeExchange(c, s, ids, now), peers, listing, now, b);
  }

  ghost predicate CellsBound(t: CellTable) {
    forall id :: id in t ==> id == Hex(t[id].signingPub)
  }

  /** Local registrations name the cell by its key, as the wire protocol makes cells do. */
  predicate HonestLocal(e: Event) {
    e.RegisteredLocally? ==> e.cell == Hex(e.signingPub)
  }

  /** Cells stay registered, with their first is_home and registration time. */
  ghost predicate CellsFixed(t: CellTable, u: CellTable) {
    forall id :: id in t ==>
      id in u && u[id].isHome == t[id].isHome && u[id].registeredAt == t[id].registeredAt
  }

  lemma OneCell(t: CellTable, id: string, signingPub: Bytes, encPub: Bytes, isHome: bool, now: int)
    requires CellsBound(t) && id == Hex(signingPub)
    ensures var u := RegisterCell(t, id, signingPub, encPub, isHome, now); CellsBound(u) && CellsFixed(t, u)
  {
  }

  lemma EventCells(c: Config, s: State, e: Event)
    requires Bound(s) && CellsBound(s.cells) && HonestLocal(e)
    requires e.Received? ==> e.conn in s.accepted
    ensures CellsBound(CellsAfter(c, s, e)) && CellsFixed(s.cells, CellsAfter(c, s, e))
  {
    match e
    case Received(conn, raw, now, _) =>
      var claim := ClaimIn(c, raw, conn);
      if claim.Some? {
        var cl := claim.value;
        assert BoundConn(conn);
        assert cl.signingPub == conn.signingPub && cl.cellId == conn.peerNodeId;
        OneCell(s.cells, cl.cellId, cl.signingPub, cl.encPub, cl.isHome, now);
      }
    case RegisteredLocally(cell, signingPub, encPub, now) =>
      OneCell(s.cells, cell, signingPub, encPub, true, now);
    case _ =>
  }

  // In every run, each registered cell is named by its signing key; and a cell, once
  // registered, stays so with its first is_home and its first registration time.
  lemma {:induction false} CellsBoundAndFixed(c: Config, states: seq<State>, events: seq<Event>)
    requires c.lib.CodecLaw() && IsRun(c, states, events)
    requires BufferOk(c.lib, states[0].buffer) && Bound(states[0]) && AllSigned(c, states[0].log)
    requires CellsBound(states[0].cells)
    requires forall i :: 0 <= i < |events| ==> HonestLocal(events[i])
    ensures CellsBound(states[|events|].cells)
    ensures CellsFixed(states[0].cells, states[|events|].cells)
    decreases |events|
  {
    var n := |events|;
    if n > 0 {
      var s, e := states[n - 1], events[n - 1];
      CellsBoundAndFixed(c, states[..n], events[..n - 1]);
      RegistryBound(c, states[..n], events[..n - 1]);
      Conservation(c, states[..n], events[..n - 1], Body("", MSG, "", "", [], 0));
      StepCells(c, s, e);
      EventCells(c, s, e);
      CellsFixedThen(states[0].cells, s.cells, states[n].cells);
    }
  }

  lemma CellsFixedThen(t: CellTable, u: CellTable, v: CellTable)
    requires CellsFixed(t, u) && CellsFixed(u, v)
    ensures CellsFixed(t, v)
  {
  }

  // --- honest forwarding ---

  /** The connection the next hop holds to a node that proved its own key. */
  predicate ProvenBy(conn: Conn, c: Config) {
    conn.signingPub == c.lib.signPub(c.who.signKey)
  }

  // Whatever a node has sent in a run, the receive loop of any peer that completed a
  // handshake with it accepts, with all fields as they left.
  lemma SentIsAccepted(c: Config, states: seq<State>, events: seq<Event>, i: nat, peer: Config, conn: Conn)
    requires c.lib.CodecLaw() && c.lib.SigningLaw() && IsRun(c, states, events)
    requires BufferOk(c.lib, states[0].buffer) && Bound(states[0]) && AllSigned(c, states[0].log)
    requires i < |states[|events|].log| && states[|events|].log[i].Sent?
    requires peer.lib == c.lib && ProvenBy(conn, c)
    ensures var pkt := states[|events|].log[i].pkt;
            Genuine(peer, Pack(c.lib, pkt), conn) == Some(pkt)
  {
    RegistryBound(c, states, events);
    HopAccepted(c.lib, states[|events|].log[i].pkt, c.who.signKey);
  }
}
