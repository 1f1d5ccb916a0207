// How long a buffered message waits: exactly until its cell registers in time, or until a
// cleanup finds it expired.
module Retention {
  import opened Text
  import opened Protocol
  import opened Tables
  import opened Machine
  import opened Ledger
  import opened Fates
  import opened Invariants
  import opened FlushDelivery

  /** This event takes the row out of the buffer. */
  ghost predicate Leaves(c: Config, e: Event, row: BufferRow) {
    match e
    case Gossiped(_, _, _, now) => row.expiresAt <= now
    case Received(conn, raw, now, _) =>
      (match ClaimIn(c, raw, conn)
       case Some(cl) => Waiting(row, cl.cellId, now)
       case None => false)
    case _ => false
  }

  /** b1 is b after e, as far as this id goes. */
  ghost predicate RowAfter(c: Config, e: Event, b: Buffer, b1: Buffer, id: string) {
    && (id in b1 <==> id in b && !Leaves(c, e, b[id]))
    && (id in b1 ==> b1[id] == b[id])
  }

  /** The event does not route a message that could take the id. */
  ghost predicate LeavesIdAlone(c: Config, s: State, e: Event, id: string) {
    Given(c, e).Some? && Given(c, e).value.id == id ==> id in s.buffer
  }

  lemma RouteRow(c: Config, s: State, pkt: Packet, now: int, id: string)
    requires pkt.body.id == id ==> id in s.buffer
    ensures var t := Route(c, s, pkt, now).s;
            (id in t.buffer <==> id in s.buffer) && (id in t.buffer ==> t.buffer[id] == s.buffer[id])
  {
    RouteTried(c, s, pkt, now);
  }

  lemma RegisterRow(c: Config, s: State, payload: Bytes, conn: Conn, now: int, order: seq<string>, id: string)
    requires BufferOk(c.lib, s.buffer) && FlushOrder(c, s, payload, conn, now, order)
    ensures var t, claim := HandleCellRegister(c, s, payload, conn, now, order), ProvenClaim(c, payload, conn);
            && (id in t.buffer <==> id in s.buffer && !(claim.Some? && Waiting(s.buffer[id], claim.value.cellId, now)))
            && (id in t.buffer ==> t.buffer[id] == s.buffer[id])
  {
    if ProvenClaim(c, payload, conn).Some? {
      RegistrationDrains(c, s, payload, conn, now, order);
    }
  }

  /** The claim a dispatched packet brings, if its connection proved it. */
  ghost function ClaimOf(c: Config, pkt: Packet, conn: Conn): Option<Claim> {
    if pkt.body.kind == CELL_REGISTER then ProvenClaim(c, pkt.body.payload, conn) else None
  }

  lemma DispatchRow(c: Config, s: State, pkt: Packet, conn: Conn, now: int, order: seq<string>, id: string)
    requires BufferOk(c.lib, s.buffer)
    requires pkt.body.kind == CELL_REGISTER ==> FlushOrder(c, s, pkt.body.payload, conn, now, order)
    requires pkt.body.kind == MSG && pkt.body.id == id ==> id in s.buffer
    ensures var t, claim := Dispatch(c, s, pkt, conn, now, order), ClaimOf(c, pkt, conn);
            && (id in t.buffer <==> id in s.buffer && !(claim.Some? && Waiting(s.buffer[id], claim.value.cellId, now)))
            && (id in t.buffer ==> t.buffer[id] == s.buffer[id])
  {
    if pkt.body.kind == MSG {
      RouteRow(c, s, pkt, now, id);
    } else if pkt.body.kind == CELL_REGISTER {
      RegisterRow(c, s, pkt.body.payload, conn, now, order, id);
    } else {
      DispatchControlAccount(c, s, pkt, conn, now, Body("", MSG, "", "", [], 0));
    }
  }

  lemma LeavesByClaim(c: Config, raw: Bytes, conn: Conn, now: int, order: seq<string>, row: BufferRow)
    ensures Leaves(c, Received(conn, raw, now, order), row)
         <==> match Genuine(c, raw, conn)
              case Some(p) => ClaimOf(c, p, conn).Some? && Waiting(row, ClaimOf(c, p, conn).value.cellId, now)
              case None => false
  {
  }

  lemma ReceivedCases(c: Config, s: State, raw: Bytes, conn: Conn, now: int, order: seq<string>)
    requires ReceiveOrder(c, s, raw, conn, now, order)
    ensures match Genuine(c, raw, conn)
            case Some(p) => Receive(c, s, raw, conn, now, order) == Dispatch(c, s, p, conn, now, order)
            case None => Receive(c, s, raw, conn, now, order).buffer == s.buffer
  {
  }

  lemma ReceivedRow(c: Config, s: State, raw: Bytes, conn: Conn, now: int, order: seq<string>, id: string)
    requires BufferOk(c.lib, s.buffer) && ReceiveOrder(c, s, raw, conn, now, order)
    requires LeavesIdAlone(c, s, Received(conn, raw, now, order), id)
    ensures RowAfter(c, Received(conn, raw, now, order), s.buffer, Receive(c, s, raw, conn, now, order).buffer, id)
  {
    var p := Genuine(c, raw, conn);
    ReceivedCases(c, s, raw, conn, now, order);
    if p.Some? {
      assert p.value.body.kind == MSG ==> Given(c, Received(conn, raw, now, order)) == Some(p.value.body);
      DispatchRow(c, s, p.value, conn, now, order, id);
    }
    if id in s.buffer {
      LeavesByClaim(c, raw, conn, now, order, s.buffer[id]);
    }
  }

  lemma RoundRow(c: Config, s: State, e: Event, id: string)
    requires e.Gossiped? && Enabled(c, s, e)
    ensures RowAfter(c, e, s.buffer, Step(c, s, e).buffer, id)
  {
    var b := Body("", MSG, "", "", [], 0);
    PingAllAccount(c, s, e.ids, e.now, b);
    ExchangeAccount(c, BeforeExchange(c, s, e.ids, e.now), e.peers, e.listing, e.now, b);
  }

  // One event: a row leaves the buffer exactly when its cell registers before it expires, or
  // a cleanup comes after; otherwise it stays as it is, whatever else the node does.
  lemma StepRow(c: Config, s: State, e: Event, id: string)
    requires BufferOk(c.lib, s.buffer) && Enabled(c, s, e) && LeavesIdAlone(c, s, e, id)
    ensures RowAfter(c, e, s.buffer, Step(c, s, e).buffer, id)
  {
    if Bystander(e) {
      BystanderAccount(c, s, e);
    } else {
      match e
      case Received(conn, raw, now, order) => ReceivedRow(c, s, raw, conn, now, order, id);
      case Submitted(pkt, now) => RouteRow(c, s, pkt, now, id);
      case Gossiped(_, _, _, _) => RoundRow(c, s, e, id);
    }
  }

  ghost predicate StaysThrough(c: Config, events: seq<Event>, row: BufferRow) {
    forall i :: 0 <= i < |events| ==> !Leaves(c, events[i], row)
  }

  // A row that no event takes out stays, whatever ids are given meanwhile.
  lemma {:induction false} RowStays(c: Config, states: seq<State>, events: seq<Event>, id: string)
    requires c.lib.CodecLaw() && IsRun(c, states, events) && BufferOk(c.lib, states[0].buffer)
    requires id in states[0].buffer && StaysThrough(c, events, states[0].buffer[id])
    ensures id in states[|events|].buffer && states[|events|].buffer[id] == states[0].buffer[id]
    ensures BufferOk(c.lib, states[|events|].buffer)
    decreases |events|
  {
    var n := |events| - 1;
    if n >= 0 {
      StaysLast(c, events, states[0].buffer[id]);
      RowStays(c, states[..n + 1], events[..n], id);
      StaysOneStep(c, states[n], events[n], id);
    }
  }

  lemma StaysOneStep(c: Config, s: State, e: Event, id: string)
    requires c.lib.CodecLaw() && BufferOk(c.lib, s.buffer) && Enabled(c, s, e)
    requires id in s.buffer && !Leaves(c, e, s.buffer[id])
    ensures BufferOk(c.lib, Step(c, s, e).buffer)
    ensures id in Step(c, s, e).buffer && Step(c, s, e).buffer[id] == s.buffer[id]
  {
    StepRow(c, s, e, id);
    StepAccount(c, s, e, Body("", MSG, "", "", [], 0));
  }

  // A whole run: the row is there at the end exactly when no event took it out.
  lemma {:induction false} RowStaysExactly(c: Config, states: seq<State>, events: seq<Event>, id: string)
    requires c.lib.CodecLaw() && IsRun(c, states, events) && BufferOk(c.lib, states[0].buffer)
    requires id in states[0].buffer
    requires forall i :: 0 <= i < |events| ==> LeavesIdAlone(c, states[i], events[i], id)
    ensures id in states[|events|].buffer <==> StaysThrough(c, events, states[0].buffer[id])
    ensures id in states[|events|].buffer ==> states[|events|].buffer[id] == states[0].buffer[id]
    decreases |events|
  {
    var n := |events| - 1;
    if n >= 0 {
      RowStaysExactly(c, states[..n + 1], events[..n], id);
      Conservation(c, states[..n + 1], events[..n], Body("", MSG, "", "", [], 0));
      StepRow(c, states[n], events[n], id);
      StaysLast(c, events, states[0].buffer[id]);
    }
  }

  lemma StaysLast(c: Config, events: seq<Event>, row: BufferRow)
    requires events != []
    ensures var n := |events| - 1;
            StaysThrough(c, events, row) <==> StaysThrough(c, events[..n], row) && !Leaves(c, events[n], row)
  {
    var n := |events| - 1;
    assert forall i :: 0 <= i < n ==> events[..n][i] == events[i];
  }

  // What routing writes into the buffer: a row that a read for the cell finds for 72 hours
  // and no longer.
  lemma ParkedFor(c: Config, s: State, pkt: Packet, now: int, cell: string, at: int)
    requires !Route(c, s, pkt, now).ok && ParseAddr(pkt.body.toAddr).0 == Some(cell)
    ensures var b := Route(c, s, pkt, now).s.buffer;
            && pkt.body.id in b && b[pkt.body.id].toCell == cell
            && cell in s.presence && b[pkt.body.id].toNode == s.presence[cell].home
            && b[pkt.body.id].createdAt == now && b[pkt.body.id].expiresAt == now + 72 * 3600
            && (pkt.body.id in Buffered(b, cell, at) <==> at < now + 72 * 3600)
  {
    BufferedExactly(c, s, pkt, now);
    TryNodesTried(c, s, s.presence[cell], pkt);
  }

  /** The event happens before t and does not register the cell. */
  ghost predicate Quiet(c: Config, e: Event, cell: string, t: int) {
    match e
    case Gossiped(_, _, _, now) => now < t
    case Received(conn, raw, _, _) => ClaimIn(c, raw, conn).None? || ClaimIn(c, raw, conn).value.cellId != cell
    case _ => true
  }

  // The 72-hour promise: a message that was buffered can still be read for its cell at any
  // moment of the next 72 hours, after any run in which the cell has not registered.
  lemma KeptFor72Hours(c: Config, s: State, pkt: Packet, now: int, cell: string,
                       states: seq<State>, events: seq<Event>, at: int)
    requires c.lib.CodecLaw() && BufferOk(c.lib, s.buffer) && pkt.body.kind == MSG
    requires !Route(c, s, pkt, now).ok && ParseAddr(pkt.body.toAddr).0 == Some(cell)
    requires IsRun(c, states, events) && states[0] == Route(c, s, pkt, now).s
    requires forall i :: 0 <= i < |events| ==> Quiet(c, events[i], cell, now + 72 * 3600)
    ensures pkt.body.id in Buffered(states[|events|].buffer, cell, at) <==> at < now + 72 * 3600
    ensures pkt.body.id in states[|events|].buffer
            && Held(c.lib, states[|events|].buffer, pkt.body)
  {
    ParkedFor(c, s, pkt, now, cell, at);
    RouteTried(c, s, pkt, now);
    RouteAccount(c, s, pkt, now, pkt.body);
    ParkedRowHolds(c, s, pkt, states[0].buffer[pkt.body.id]);
    QuietStays(c, events, states[0].buffer[pkt.body.id]);
    RowStays(c, states, events, pkt.body.id);
  }

  lemma QuietStays(c: Config, events: seq<Event>, row: BufferRow)
    requires forall i :: 0 <= i < |events| ==> Quiet(c, events[i], row.toCell, row.expiresAt)
    ensures StaysThrough(c, events, row)
  {
    forall i | 0 <= i < |events|
      ensures !Leaves(c, events[i], row)
    {
      assert Quiet(c, events[i], row.toCell, row.expiresAt);
    }
  }
}
