// Where each packet went: every packet given to the router is, at every moment, in exactly
// one place - sent to a peer, handed to the application, dropped for a named reason,
// expired, or still in the buffer - with its contents intact.
module Ledger {
  import opened Text
  import opened Primitives
  import opened Protocol
  import opened Tables
  import opened Machine

  // --- one step of a packet ---

  /** f is the end of a packet with this body; a sent copy carries our signature. */
  ghost predicate Settles(c: Config, f: Fate, b: Body) {
    match f
    case Sent(_, p) => p.body == b && p == Signed(c.lib, p, c.who.signKey)
    case Handled(p) => p.body == b
    case Dropped(_, body) => body == b
    case Expired(_) => false
  }

  ghost predicate SameTables(s: State, t: State) {
    s.nodes == t.nodes && s.cells == t.cells && s.presence == t.presence && s.buffer == t.buffer
  }

  /** The log of t is that of s and one more fate, which settles b. */
  ghost predicate Settled(c: Config, s: State, t: State, b: Body) {
    && |t.log| == |s.log| + 1
    && t.log[..|s.log|] == s.log
    && Settles(c, t.log[|s.log|], b)
  }

  ghost predicate Tried(c: Config, s: State, pkt: Packet, a: Attempt) {
    && a.pkt.v == pkt.v && a.pkt.body == pkt.body
    && SameTables(s, a.s)
    && (if a.ok then Settled(c, s, a.s, pkt.body) else a.s.log == s.log)
  }

  lemma SendToTried(c: Config, s: State, id: string, pkt: Packet)
    ensures Tried(c, s, pkt, SendTo(c, s, id, pkt))
  {
  }

  lemma DeliverLocalTried(c: Config, s: State, pkt: Packet)
    ensures Tried(c, s, pkt, DeliverLocal(c, s, pkt)) && DeliverLocal(c, s, pkt).ok
  {
    var cell := ParseAddr(pkt.body.toAddr).0;
    if cell.Some? && cell.value != "" {
      SendToTried(c, s, cell.value, pkt);
    }
  }

  lemma SendToNodeTried(c: Config, s: State, id: string, pkt: Packet)
    ensures Tried(c, s, pkt, SendToNode(c, s, id, pkt))
    ensures id == Me(c) ==> SendToNode(c, s, id, pkt).ok
  {
    if id == Me(c) {
      DeliverLocalTried(c, s, pkt);
    } else {
      var a := SendTo(c, s, id, pkt);
      var (s1, conn) := ConnectToNode(c, a.s, id);
      SendToTried(c, s, id, pkt);
      if !a.ok {
        ConnectSettlesNothing(c, a.s, id);
        if conn.Some? {
          SendViaTried(c, s1, conn.value, a.pkt);
          TriedThen(c, s, pkt, Attempt(s1, a.pkt, false), SendVia(c, s1, conn.value, a.pkt));
        }
      }
    }
  }

  lemma ConnectSettlesNothing(c: Config, s: State, id: string)
    ensures var t := ConnectToNode(c, s, id).0; SameTables(s, t) && t.log == s.log
  {
  }

  lemma SendViaTried(c: Config, s: State, conn: Conn, pkt: Packet)
    ensures Tried(c, s, pkt, SendVia(c, s, conn, pkt))
  {
  }

  // A second attempt after a failed one.
  lemma TriedThen(c: Config, s: State, pkt: Packet, a: Attempt, a1: Attempt)
    requires Tried(c, s, pkt, a) && !a.ok && Tried(c, a.s, a.pkt, a1)
    ensures Tried(c, s, pkt, a1)
  {
  }

  lemma TryNodesTried(c: Config, s: State, p: PresenceRow, pkt: Packet)
    ensures Tried(c, s, pkt, TryNodes(c, s, p, pkt))
    ensures p.visiting == None && p.home == Me(c) ==> TryNodes(c, s, p, pkt).ok
  {
    if p.visiting.Some? && p.visiting.value != "" {
      SendToNodeTried(c, s, p.visiting.value, pkt);
    }
    var a := TryVisiting(c, s, p, pkt);
    if !a.ok {
      SendToNodeTried(c, a.s, p.home, a.pkt);
    }
  }

  /** The row buffer_message writes. */
  ghost predicate ParkedRow(c: Config, s: State, pkt: Packet, row: BufferRow) {
    && ParseAddr(pkt.body.toAddr).0 == Some(row.toCell)
    && exists p: Packet :: row.payload == SerializePacket(c.lib, p) && p.body == pkt.body
  }

  // Routing settles the packet, or puts it into the buffer under its id and settles nothing.
  lemma RouteTried(c: Config, s: State, pkt: Packet, now: int)
    ensures var a := Route(c, s, pkt, now);
            a.ok ==> Tried(c, s, pkt, a)
    ensures var a := Route(c, s, pkt, now);
            !a.ok ==> && a.s.log == s.log && a.pkt.body == pkt.body
                      && SameTables(s, a.s.(buffer := s.buffer))
                      && pkt.body.id !in s.buffer
                      && a.s.buffer.Keys == s.buffer.Keys + {pkt.body.id}
                      && (forall id :: id in s.buffer ==> a.s.buffer[id] == s.buffer[id])
                      && ParkedRow(c, s, pkt, a.s.buffer[pkt.body.id])
  {
    match ParseAddr(pkt.body.toAddr)
    case (None, node) =>
      SendToNodeTried(c, s, node, pkt);
    case (Some(cell), _) =>
      if cell !in s.presence {
        if cell in s.cells {
          DeliverLocalTried(c, s, pkt);
        }
      } else {
        TryNodesTried(c, s, s.presence[cell], pkt);
        var a := TryNodes(c, s, s.presence[cell], pkt);
        if !a.ok {
          var p := a.pkt;
          assert SerializePacket(c.lib, p) == SerializePacket(c.lib, a.pkt) && p.body == pkt.body;
        }
      }
  }

  // --- counting ---

  /** The row under this id holds this body. */
  predicate Held(lib: Library, buffer: Buffer, b: Body) {
    b.id in buffer &&
    match Unpack(lib, buffer[b.id].payload)
    case Some(p) => p.body == b
    case None => false
  }

  predicate Weighs(lib: Library, f: Fate, b: Body) {
    match f
    case Sent(_, p) => p.body == b
    case Handled(p) => p.body == b
    case Dropped(_, body) => body == b
    case Expired(rows) => Held(lib, rows, b)
  }

  function LogCount(lib: Library, log: seq<Fate>, b: Body): nat {
    if log == [] then 0
    else LogCount(lib, log[..|log| - 1], b) + if Weighs(lib, log[|log| - 1], b) then 1 else 0
  }

  /** How many copies of b the node accounts for: settled, expired or buffered. */
  function Account(lib: Library, s: State, b: Body): nat {
    LogCount(lib, s.log, b) + if Held(lib, s.buffer, b) then 1 else 0
  }

  /** Every buffered payload is a message stored under its own id and for its own cell. */
  ghost predicate BufferOk(lib: Library, b: Buffer) {
    forall id :: id in b ==> RowOk(lib, id, b[id])
  }

  ghost predicate RowOk(lib: Library, id: string, row: BufferRow) {
    match Unpack(lib, row.payload)
    case Some(p) => p.body.id == id && p.body.kind == MSG && ParseAddr(p.body.toAddr).0 == Some(row.toCell)
    case None => false
  }

  lemma SettledCount(c: Config, s: State, t: State, x: Body, b: Body)
    requires Settled(c, s, t, x)
    ensures LogCount(c.lib, t.log, b) == LogCount(c.lib, s.log, b) + if x == b then 1 else 0
  {
    assert t.log[..|t.log| - 1] == s.log;
  }

  // Routing a message adds exactly one copy of it to the account, and nothing else.
  lemma RouteAccount(c: Config, s: State, pkt: Packet, now: int, b: Body)
    requires c.lib.CodecLaw() && BufferOk(c.lib, s.buffer) && pkt.body.kind == MSG
    ensures var t := Route(c, s, pkt, now).s;
            && BufferOk(c.lib, t.buffer)
            && Account(c.lib, t, b) == Account(c.lib, s, b) + if pkt.body == b then 1 else 0
  {
    RouteTried(c, s, pkt, now);
    var a := Route(c, s, pkt, now);
    if a.ok {
      SettledCount(c, s, a.s, pkt.body, b);
    } else {
      ParkedAccount(c, s, a.s, pkt, b);
    }
  }

  lemma ParkedRowHolds(c: Config, s: State, pkt: Packet, row: BufferRow)
    requires c.lib.CodecLaw() && pkt.body.kind == MSG && ParkedRow(c, s, pkt, row)
    ensures RowOk(c.lib, pkt.body.id, row)
    ensures Unpack(c.lib, row.payload).Some? && Unpack(c.lib, row.payload).value.body == pkt.body
  {
    var p: Packet :| row.payload == SerializePacket(c.lib, p) && p.body == pkt.body;
    BufferRoundTrip(c.lib, p);
  }

  lemma ParkedAccount(c: Config, s: State, t: State, pkt: Packet, b: Body)
    requires c.lib.CodecLaw() && BufferOk(c.lib, s.buffer) && pkt.body.kind == MSG
    requires t.log == s.log && pkt.body.id !in s.buffer && t.buffer.Keys == s.buffer.Keys + {pkt.body.id}
    requires forall id :: id in s.buffer ==> t.buffer[id] == s.buffer[id]
    requires ParkedRow(c, s, pkt, t.buffer[pkt.body.id])
    ensures BufferOk(c.lib, t.buffer)
    ensures Account(c.lib, t, b) == Account(c.lib, s, b) + if pkt.body == b then 1 else 0
  {
    ParkedRowHolds(c, s, pkt, t.buffer[pkt.body.id]);
    forall id | id in t.buffer
      ensures RowOk(c.lib, id, t.buffer[id])
    {
      assert id == pkt.body.id || id in s.buffer;
    }
  }

  // --- flush ---

  /** The cell is at home here and visits nowhere else. */
  ghost predicate AtHome(c: Config, s: State, cell: string) {
    cell in s.presence && s.presence[cell].home == Me(c) && s.presence[cell].visiting == None
  }

  // A message for a cell that is here is settled, never put back.
  lemma RouteAtHome(c: Config, s: State, pkt: Packet, now: int, cell: string)
    requires ParseAddr(pkt.body.toAddr).0 == Some(cell) && AtHome(c, s, cell)
    ensures Route(c, s, pkt, now) == DeliverLocal(c, s, pkt)
    ensures Tried(c, s, pkt, Route(c, s, pkt, now)) && Route(c, s, pkt, now).ok
  {
    DeliverLocalTried(c, s, pkt);
    TryNodesTried(c, s, s.presence[cell], pkt);
  }

  // Flushing a row moves its message from the buffer to the log.
  lemma FlushOneAccount(c: Config, s: State, id: string, row: BufferRow, now: int, cell: string, b: Body)
    requires BufferOk(c.lib, s.buffer) && AtHome(c, s, cell)
    requires id in s.buffer && s.buffer[id] == row && row.toCell == cell
    ensures var t := FlushOne(c, s, id, row, now);
            && t.buffer == s.buffer - {id}
            && SameTables(s.(buffer := t.buffer), t)
            && Account(c.lib, t, b) == Account(c.lib, s, b)
  {
    assert RowOk(c.lib, id, row);
    var pkt := Unpack(c.lib, row.payload).value;
    RouteAtHome(c, s, pkt, now, cell);
    SettledCount(c, s, Route(c, s, pkt, now).s, pkt.body, b);
  }

  ghost predicate Flushable(c: Config, s: State, rows: Buffer, ids: seq<string>, cell: string) {
    && BufferOk(c.lib, s.buffer) && AtHome(c, s, cell)
    && (forall id :: id in ids ==> id in rows && id in s.buffer && s.buffer[id] == rows[id] && rows[id].toCell == cell)
    && (forall i, j :: 0 <= i < j < |ids| ==> ids[i] != ids[j])
  }

  lemma FlushableNext(c: Config, s: State, rows: Buffer, ids: seq<string>, now: int, cell: string)
    requires Flushable(c, s, rows, ids, cell) && ids != []
    ensures Flushable(c, FlushOne(c, s, ids[0], rows[ids[0]], now), rows, ids[1..], cell)
    ensures FlushOne(c, s, ids[0], rows[ids[0]], now).buffer == s.buffer - {ids[0]}
  {
    FlushOneAccount(c, s, ids[0], rows[ids[0]], now, cell, Body("", "", "", "", [], 0));
    FlushableRest(c, s, FlushOne(c, s, ids[0], rows[ids[0]], now), rows, ids, cell);
  }

  lemma FlushableRest(c: Config, s: State, s1: State, rows: Buffer, ids: seq<string>, cell: string)
    requires Flushable(c, s, rows, ids, cell) && ids != []
    requires s1.buffer == s.buffer - {ids[0]} && s1.presence == s.presence
    ensures Flushable(c, s1, rows, ids[1..], cell)
  {
    assert forall id :: id in ids[1..] ==> id in ids && id != ids[0];
  }

  /** t is s with these rows gone and the copies of b it accounts for unchanged. */
  ghost predicate Drained(c: Config, s: State, t: State, ids: seq<string>, b: Body) {
    && t.buffer == s.buffer - (set id | id in ids)
    && t.nodes == s.nodes && t.cells == s.cells && t.presence == s.presence
    && Account(c.lib, t, b) == Account(c.lib, s, b)
  }

  lemma DrainedThen(c: Config, s: State, s1: State, t: State, ids: seq<string>, b: Body)
    requires ids != [] && Drained(c, s, s1, ids[..1], b) && Drained(c, s1, t, ids[1..], b)
    ensures Drained(c, s, t, ids, b)
  {
    assert (set id | id in ids) == (set id | id in ids[..1]) + (set id | id in ids[1..]) by {
      assert ids == ids[..1] + ids[1..];
    }
  }

  lemma FlushOneDrains(c: Config, s: State, rows: Buffer, ids: seq<string>, now: int, cell: string, b: Body)
    requires Flushable(c, s, rows, ids, cell) && ids != []
    ensures Drained(c, s, FlushOne(c, s, ids[0], rows[ids[0]], now), ids[..1], b)
  {
    FlushOneAccount(c, s, ids[0], rows[ids[0]], now, cell, b);
    assert (set id | id in ids[..1]) == {ids[0]};
  }

  // A flush loses nothing and duplicates nothing, and empties exactly the listed rows.
  lemma {:induction false} FlushAccount(c: Config, s: State, rows: Buffer, ids: seq<string>, now: int, cell: string, b: Body)
    requires Flushable(c, s, rows, ids, cell)
    ensures Drained(c, s, Flush(c, s, rows, ids, now), ids, b)
    decreases |ids|
  {
    if ids != [] {
      var s1 := FlushOne(c, s, ids[0], rows[ids[0]], now);
      FlushOneDrains(c, s, rows, ids, now, cell, b);
      FlushableNext(c, s, rows, ids, now, cell);
      FlushAccount(c, s1, rows, ids[1..], now, cell, b);
      DrainedThen(c, s, s1, Flush(c, s1, rows, ids[1..], now), ids, b);
    }
  }

  // --- control traffic, expiry, and whole steps ---

  lemma ControlSend(c: Config, s: State, conn: Conn, pkt: Packet, b: Body)
    requires pkt.body.kind != b.kind
    ensures var t := SendVia(c, s, conn, pkt).s;
            SameTables(s, t) && LogCount(c.lib, t.log, b) == LogCount(c.lib, s.log, b)
  {
    var t := SendVia(c, s, conn, pkt).s;
    if t.log != s.log {
      assert t.log[..|t.log| - 1] == s.log;
    }
  }

  lemma {:induction false} PingAllAccount(c: Config, s: State, ids: seq<string>, now: int, b: Body)
    requires b.kind == MSG
    ensures var t := PingAll(c, s, ids, now);
            t.buffer == s.buffer && t.cells == s.cells && t.presence == s.presence
            && LogCount(c.lib, t.log, b) == LogCount(c.lib, s.log, b)
    decreases |ids|
  {
    if ids != [] {
      var s1 := if ids[0] == Me(c) then s else PingNode(c, s, ids[0], now);
      if ids[0] != Me(c) {
        var (s0, conn) := if ids[0] in s.conns then (s, Some(s.conns[ids[0]])) else ConnectToNode(c, s, ids[0]);
        if conn.Some? {
          ControlSend(c, s0, conn.value, MakePing(c, Uuid(c, s0), ids[0], now), b);
        }
      }
      PingAllAccount(c, s1, ids[1..], now, b);
    }
  }

  lemma ExpiryAccount(c: Config, s: State, now: int, b: Body)
    requires BufferOk(c.lib, s.buffer)
    ensures BufferOk(c.lib, ExpireMessages(s, now).buffer)
    ensures Account(c.lib, ExpireMessages(s, now), b) == Account(c.lib, s, b)
  {
    var t := ExpireMessages(s, now);
    assert t.log[..|t.log| - 1] == s.log;
  }

  lemma {:induction false} ExchangeAccount(c: Config, s: State, peers: seq<string>, listing: seq<string>, now: int, b: Body)
    requires b.kind == MSG
    requires forall id :: id in listing ==> id in s.nodes
    ensures var t := Exchange(c, s, peers, listing, now);
            SameTables(s, t) && LogCount(c.lib, t.log, b) == LogCount(c.lib, s.log, b)
    decreases |peers|
  {
    if peers != [] {
      var s1 := s;
      if peers[0] in s.conns {
        ControlSend(c, s, s.conns[peers[0]], MakeGossip(c, Uuid(c, s), s.nodes, listing, now), b);
        s1 := SendVia(c, s, s.conns[peers[0]], MakeGossip(c, Uuid(c, s), s.nodes, listing, now)).s;
      }
      ExchangeAccount(c, s1, peers[1..], listing, now, b);
    }
  }

  lemma RoundAccount(c: Config, s: State, ids: seq<string>, peers: seq<string>, listing: seq<string>, now: int, b: Body)
    requires BufferOk(c.lib, s.buffer) && b.kind == MSG && RoundOrders(c, s, ids, peers, listing, now)
    ensures var t := Round(c, s, ids, peers, listing, now);
            BufferOk(c.lib, t.buffer) && Account(c.lib, t, b) == Account(c.lib, s, b)
  {
    PingAllAccount(c, s, ids, now, b);
    var s1 := PingAll(c, s, ids, now);
    ExpiryAccount(c, s1.(nodes := CleanupNodes(s1.nodes, now)), now, b);
    ExchangeAccount(c, BeforeExchange(c, s, ids, now), peers, listing, now, b);
  }

  lemma RegisterAccount(c: Config, s: State, payload: Bytes, conn: Conn, now: int, order: seq<string>, b: Body)
    requires BufferOk(c.lib, s.buffer) && FlushOrder(c, s, payload, conn, now, order)
    ensures var t := HandleCellRegister(c, s, payload, conn, now, order);
            BufferOk(c.lib, t.buffer) && Account(c.lib, t, b) == Account(c.lib, s, b)
  {
    match ProvenClaim(c, payload, conn)
    case None =>
    case Some(cl) =>
      FlushAccount(c, RegisterClaim(c, s, cl, now), s.buffer, order, now, cl.cellId, b);
  }

  /** The message this event gives to the router. */
  ghost function Given(c: Config, e: Event): Option<Body> {
    match e
    case Received(conn, raw, _, _) =>
      (match Genuine(c, raw, conn)
       case Some(p) => if p.body.kind == MSG then Some(p.body) else None
       case None => None)
    case Submitted(pkt, _) => Some(pkt.body)
    case _ => None
  }

  lemma DispatchControlAccount(c: Config, s: State, pkt: Packet, conn: Conn, now: int, b: Body)
    requires b.kind == MSG
    ensures var t := DispatchControl(c, s, pkt, conn, now);
            && t.cells == s.cells && t.presence == s.presence && t.buffer == s.buffer
            && LogCount(c.lib, t.log, b) == LogCount(c.lib, s.log, b)
  {
    var s1 := s.(nodes := TableAfter(c.lib, s.nodes, pkt, now));
    var reply := ReplyTo(c, s, pkt, now);
    if pkt.body.kind != NODE_LEAVING && reply.Some? {
      ControlSend(c, s1, conn, reply.value, b);
    }
  }

  lemma DispatchAccount(c: Config, s: State, pkt: Packet, conn: Conn, now: int, order: seq<string>, b: Body)
    requires c.lib.CodecLaw() && BufferOk(c.lib, s.buffer) && b.kind == MSG
    requires pkt.body.kind == CELL_REGISTER ==> FlushOrder(c, s, pkt.body.payload, conn, now, order)
    ensures var t := Dispatch(c, s, pkt, conn, now, order);
            && BufferOk(c.lib, t.buffer)
            && Account(c.lib, t, b) == Account(c.lib, s, b) + if pkt.body == b then 1 else 0
  {
    if pkt.body.kind == MSG {
      RouteAccount(c, s, pkt, now, b);
    } else if pkt.body.kind == CELL_REGISTER {
      RegisterAccount(c, s, pkt.body.payload, conn, now, order, b);
    } else {
      DispatchControlAccount(c, s, pkt, conn, now, b);
    }
  }

  lemma ReceiveAccount(c: Config, s: State, raw: Bytes, conn: Conn, now: int, order: seq<string>, b: Body)
    requires c.lib.CodecLaw() && BufferOk(c.lib, s.buffer) && b.kind == MSG
    requires ReceiveOrder(c, s, raw, conn, now, order)
    ensures var t := Receive(c, s, raw, conn, now, order);
            && BufferOk(c.lib, t.buffer)
            && Account(c.lib, t, b)
               == Account(c.lib, s, b) + if Given(c, Received(conn, raw, now, order)) == Some(b) then 1 else 0
  {
    var p := Genuine(c, raw, conn);
    if p.Some? {
      DispatchAccount(c, s, p.value, conn, now, order, b);
    }
  }

  /** The events that neither bring a packet nor run a gossip round. */
  predicate Bystander(e: Event) {
    !e.Received? && !e.Submitted? && !e.Gossiped?
  }

  lemma BystanderAccount(c: Config, s: State, e: Event)
    requires Bystander(e)
    ensures Step(c, s, e).buffer == s.buffer && Step(c, s, e).log == s.log
  {
  }

  lemma StepAccount(c: Config, s: State, e: Event, b: Body)
    requires c.lib.CodecLaw() && BufferOk(c.lib, s.buffer) && b.kind == MSG && Enabled(c, s, e)
    ensures var t := Step(c, s, e);
            && BufferOk(c.lib, t.buffer)
            && Account(c.lib, t, b) == Account(c.lib, s, b) + if Given(c, e) == Some(b) then 1 else 0
  {
    if Bystander(e) {
      BystanderAccount(c, s, e);
    } else {
      match e
      case Received(conn, raw, now, order) => ReceiveAccount(c, s, raw, conn, now, order, b);
      case Submitted(pkt, now) => RouteAccount(c, s, pkt, now, b);
      case Gossiped(ids, peers, listing, now) => RoundAccount(c, s, ids, peers, listing, now, b);
    }
  }

  // --- whole runs ---

  ghost function GivenCount(c: Config, events: seq<Event>, b: Body): nat {
    if events == [] then 0
    else GivenCount(c, events[..|events| - 1], b) + if Given(c, events[|events| - 1]) == Some(b) then 1 else 0
  }

  // Conservation: at the end of every run, each message is accounted for exactly as often
  // as it was given to the router (over what the node held at the start).
  lemma {:induction false} Conservation(c: Config, states: seq<State>, events: seq<Event>, b: Body)
    requires c.lib.CodecLaw() && IsRun(c, states, events) && BufferOk(c.lib, states[0].buffer)
    requires b.kind == MSG
    ensures BufferOk(c.lib, states[|events|].buffer)
    ensures Account(c.lib, states[|events|], b) == Account(c.lib, states[0], b) + GivenCount(c, events, b)
    decreases |events|
  {
    var n := |events|;
    if n > 0 {
      Conservation(c, states[..n], events[..n - 1], b);
      StepAccount(c, states[n - 1], events[n - 1], b);
    }
  }

  ghost predicate DistinctIds(c: Config, events: seq<Event>) {
    forall i, j :: 0 <= i < j < |events| && Given(c, events[i]).Some? && Given(c, events[j]).Some?
                   ==> Given(c, events[i]).value.id != Given(c, events[j]).value.id
  }

  ghost predicate Pristine(s: State) {
    s.buffer == map[] && s.log == []
  }

  /** Some event gives b. */
  ghost predicate Gives(c: Config, events: seq<Event>, b: Body) {
    exists i :: 0 <= i < |events| && Given(c, events[i]) == Some(b)
  }

  lemma GivesLast(c: Config, events: seq<Event>, b: Body)
    requires events != []
    ensures var n := |events| - 1;
            Gives(c, events, b) <==> Gives(c, events[..n], b) || Given(c, events[n]) == Some(b)
  {
    var n := |events| - 1;
    if Gives(c, events[..n], b) {
      var i :| 0 <= i < n && Given(c, events[..n][i]) == Some(b);
      assert Given(c, events[i]) == Some(b);
    }
    if Gives(c, events, b) && Given(c, events[n]) != Some(b) {
      var i :| 0 <= i < |events| && Given(c, events[i]) == Some(b);
      assert Given(c, events[..n][i]) == Some(b);
    }
  }

  lemma NotGivenTwice(c: Config, events: seq<Event>, b: Body)
    requires events != [] && DistinctIds(c, events)
    ensures var n := |events| - 1;
            DistinctIds(c, events[..n]) && (Gives(c, events[..n], b) ==> Given(c, events[n]) != Some(b))
  {
    var n := |events| - 1;
    if Gives(c, events[..n], b) {
      var i :| 0 <= i < n && Given(c, events[..n][i]) == Some(b);
      assert Given(c, events[i]) == Some(b);
    }
  }

  lemma {:induction false} GivenOnce(c: Config, events: seq<Event>, b: Body)
    requires DistinctIds(c, events)
    ensures GivenCount(c, events, b) == if Gives(c, events, b) then 1 else 0
  {
    if events != [] {
      NotGivenTwice(c, events, b);
      GivenOnce(c, events[..|events| - 1], b);
      GivesLast(c, events, b);
    }
  }

  // At most one log entry weighs, and one does exactly when the count is one.
  lemma {:induction false} LogPlaces(lib: Library, log: seq<Fate>, b: Body)
    requires LogCount(lib, log, b) <= 1
    ensures LogCount(lib, log, b) == 1 <==> exists i :: 0 <= i < |log| && Weighs(lib, log[i], b)
    ensures forall i, j :: 0 <= i < j < |log| ==> !(Weighs(lib, log[i], b) && Weighs(lib, log[j], b))
  {
    if log != [] {
      var before := log[..|log| - 1];
      LogPlaces(lib, before, b);
      assert forall i :: 0 <= i < |before| ==> before[i] == log[i];
    }
  }

  // With distinct ids, from an empty node: a message that was given is in exactly one place,
  // the buffer or one log entry, and one that was not given is nowhere.
  lemma ExactlyOnePlace(c: Config, states: seq<State>, events: seq<Event>, b: Body)
    requires c.lib.CodecLaw() && IsRun(c, states, events) && Pristine(states[0])
    requires DistinctIds(c, events) && b.kind == MSG
    ensures var s := states[|events|];
            var settled := exists i :: 0 <= i < |s.log| && Weighs(c.lib, s.log[i], b);
            && (Gives(c, events, b) <==> Held(c.lib, s.buffer, b) || settled)
            && !(Held(c.lib, s.buffer, b) && settled)
            && (forall i, j :: 0 <= i < j < |s.log| ==> !(Weighs(c.lib, s.log[i], b) && Weighs(c.lib, s.log[j], b)))
  {
    Conservation(c, states, events, b);
    GivenOnce(c, events, b);
    LogPlaces(c.lib, states[|events|].log, b);
  }
}
