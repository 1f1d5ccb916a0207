// The good end of a message: when a node hands it to the cell, and that a message that had
// to wait in the buffer is handed over exactly once.
module Delivery {
  import opened Text
  import opened Protocol
  import opened Tables
  import opened Machine
  import opened Ledger
  import opened Fates
  import opened Invariants
  import opened FlushDelivery
  import opened Retention
  import opened Pushes
  import opened Logs
  import opened Hops
  import E = EndToEnd

  // --- handed over at once ---

  /** t is s with one more log entry: this packet left over the connection, signed by this node. */
  ghost predicate SentOver(c: Config, s: State, t: State, conn: Conn, b: Body) {
    && |t.log| == |s.log| + 1 && t.log[..|s.log|] == s.log
    && t.log[|s.log|].Sent? && t.log[|s.log|].conn == conn && t.log[|s.log|].pkt.body == b
    && t.log[|s.log|].pkt == Signed(c.lib, t.log[|s.log|].pkt, c.who.signKey)
  }

  /** The packet left for the cell itself. */
  ghost predicate SentToCell(c: Config, s: State, t: State, cell: string, b: Body) {
    exists conn: Conn :: conn.peerNodeId == cell && SentOver(c, s, t, conn, b)
  }

  /** The entries of the cell's row are nodes: not the cell, and the home has a name. */
  predicate NamesNodes(s: State, cell: string) {
    cell in s.presence ==>
      var p := s.presence[cell];
      p.home != "" && p.home != cell && p.visiting != Some(cell)
  }

  lemma LocalSend(c: Config, s: State, pkt: Packet, cell: string)
    requires ParseAddr(pkt.body.toAddr).0 == Some(cell)
    ensures var t := DeliverLocal(c, s, pkt).s;
            if NotTaken(c, s, cell) then forall conn :: !SentOver(c, s, t, conn, pkt.body)
            else SentOver(c, s, t, s.conns[cell], pkt.body)
  {
  }

  // At the node where a message ends, it is in that node's local delivery, in the state and
  // with the packet that the attempts before it left.
  lemma EndsInLocal(c: Config, s: State, pkt: Packet, now: int, cell: string) returns (q: Packet)
    requires ParseAddr(pkt.body.toAddr).0 == Some(cell) && EndsHere(c, s, cell)
    ensures q.body == pkt.body
    ensures Route(c, s, pkt, now) == DeliverLocal(c, WhenDelivering(c, s, cell, pkt), q)
  {
    q := pkt;
    if cell in s.presence {
      var p := s.presence[cell];
      if Visits(p) {
        SendToNodeExact(c, s, p.visiting.value, pkt);
        SendToNodeTried(c, s, p.visiting.value, pkt);
      }
      if TriesVisiting(c, s, cell) {
        q := TryVisiting(c, s, p, pkt).pkt;
      }
      DeliverLocalTried(c, WhenDelivering(c, s, cell, pkt), q);
    }
  }

  // The counterpart of a lost message. Where a message ends, it leaves over the cell's own
  // connection if that takes it, and otherwise over none.
  lemma HandedOver(c: Config, s: State, pkt: Packet, now: int, cell: string)
    requires ParseAddr(pkt.body.toAddr).0 == Some(cell) && EndsHere(c, s, cell)
    ensures var t := Route(c, s, pkt, now).s;
            if CellTakes(c, s, cell) then SentOver(c, s, t, CellConns(c, s, cell)[cell], pkt.body)
            else forall conn :: !SentOver(c, s, t, conn, pkt.body)
  {
    var q := EndsInLocal(c, s, pkt, now, cell);
    DeliveringState(c, s, cell, pkt);
    LocalSend(c, WhenDelivering(c, s, cell, pkt), q, cell);
  }

  // Elsewhere it leaves for another node or not at all.
  lemma PassedBy(c: Config, s: State, pkt: Packet, now: int, cell: string)
    requires ParseAddr(pkt.body.toAddr).0 == Some(cell) && !EndsHere(c, s, cell)
    requires Bound(s) && NamesNodes(s, cell)
    ensures !SentToCell(c, s, Route(c, s, pkt, now).s, cell, pkt.body)
  {
    if cell in s.presence {
      var p := s.presence[cell];
      if Visits(p) {
        SendToNodeExact(c, s, p.visiting.value, pkt);
        SendToNodeTried(c, s, p.visiting.value, pkt);
        SendToNodeKeeps(c, s, p.visiting.value, pkt);
        NodeOrCell(c, s, p.visiting.value, pkt, cell);
      }
      var a := TryVisiting(c, s, p, pkt);
      if a.ok {
        assert p.visiting.value != Me(c);
      } else {
        SendToNodeTried(c, a.s, p.home, a.pkt);
        OtherGoesToNode(c, a.s, p.home, a.pkt);
      }
    }
  }

  // A message leaves for its cell if and only if it ends at this node and the cell's
  // connection takes it.
  lemma SentToCellExactly(c: Config, s: State, pkt: Packet, now: int, cell: string)
    requires ParseAddr(pkt.body.toAddr).0 == Some(cell)
    requires Bound(s) && NamesNodes(s, cell)
    ensures SentToCell(c, s, Route(c, s, pkt, now).s, cell, pkt.body)
            <==> EndsHere(c, s, cell) && CellTakes(c, s, cell)
  {
    if EndsHere(c, s, cell) {
      HandedOver(c, s, pkt, now, cell);
      if CellTakes(c, s, cell) {
        CellConnBound(c, s, cell);
      }
    } else {
      PassedBy(c, s, pkt, now, cell);
    }
  }

  lemma CellConnBound(c: Config, s: State, cell: string)
    requires Bound(s) && NamesNodes(s, cell) && cell in CellConns(c, s, cell)
    ensures CellConns(c, s, cell)[cell].peerNodeId == cell
  {
  }

  // --- handed over later ---

  /** The time of an event that brings a packet. */
  function TimeOf(e: Event): int {
    match e
    case Received(_, _, now, _) => now
    case Submitted(_, now) => now
    case _ => 0
  }

  /** The row holds this message for this cell, until this time. */
  predicate HoldsFor(c: Config, row: BufferRow, b: Body, cell: string, until: int) {
    && row.toCell == cell && row.expiresAt == until
    && Unpack(c.lib, row.payload).Some? && RowPacket(c, row).body == b
  }

  lemma RoutedParks(c: Config, s: State, pkt: Packet, now: int, cell: string)
    requires c.lib.CodecLaw() && pkt.body.kind == MSG && ParseAddr(pkt.body.toAddr).0 == Some(cell)
    requires pkt.body.id !in s.buffer && pkt.body.id in Route(c, s, pkt, now).s.buffer
    ensures HoldsFor(c, Route(c, s, pkt, now).s.buffer[pkt.body.id], pkt.body, cell, now + TTL_MESSAGE_SECS)
  {
    RouteTried(c, s, pkt, now);
    ParkedFor(c, s, pkt, now, cell, now);
    ParkedRowHolds(c, s, pkt, Route(c, s, pkt, now).s.buffer[pkt.body.id]);
  }

  /** The packet an event gives to the router. */
  ghost function GivenPacket(c: Config, e: Event): Packet
    requires Given(c, e).Some?
  {
    match e
    case Received(conn, raw, _, _) => Genuine(c, raw, conn).value
    case Submitted(pkt, _) => pkt
  }

  lemma GivenIsRouted(c: Config, s: State, e: Event)
    requires Enabled(c, s, e) && Given(c, e).Some?
    ensures GivenPacket(c, e).body == Given(c, e).value && GivenPacket(c, e).body.kind == MSG
    ensures Step(c, s, e) == Route(c, s, GivenPacket(c, e), TimeOf(e)).s
  {
  }

  /** At step j the cell registers, over a connection that proved its key. */
  ghost predicate Registers(c: Config, e: Event, cell: string) {
    && e.Received?
    && ClaimIn(c, e.raw, e.conn).Some? && ClaimIn(c, e.raw, e.conn).value.cellId == cell
  }

  lemma RegistersHere(c: Config, s: State, e: Event, cell: string)
    requires Enabled(c, s, e) && Registers(c, e, cell)
    ensures e.conn.peerNodeId == cell
    ensures var payload := Genuine(c, e.raw, e.conn).value.body.payload;
            && ProvenClaim(c, payload, e.conn).Some? && ProvenClaim(c, payload, e.conn).value.cellId == cell
            && FlushOrder(c, s, payload, e.conn, e.now, e.order)
            && Step(c, s, e) == HandleCellRegister(c, s, payload, e.conn, e.now, e.order)
  {
  }

  // A row that waits when its cell registers is sent to the cell, if the sends of the flush
  // go through.
  lemma FlushHandsOver(c: Config, s: State, e: Event, id: string, b: Body, cell: string) returns (i: nat)
    requires BufferOk(c.lib, s.buffer) && Enabled(c, s, e) && Registers(c, e, cell)
    requires cell != "" && cell in s.conns
    requires id in s.buffer && HoldsFor(c, s.buffer[id], b, cell, s.buffer[id].expiresAt) && e.now < s.buffer[id].expiresAt
    requires forall t :: s.tick <= t < s.tick + |e.order| ==> c.luck(t).delivered
    ensures i < |Step(c, s, e).log| && Step(c, s, e).log[i].Sent?
    ensures var f := Step(c, s, e).log[i];
            f.conn == s.conns[cell] && f.pkt.body == b && f.pkt == Signed(c.lib, f.pkt, c.who.signKey)
  {
    RegistersHere(c, s, e, cell);
    var payload := Genuine(c, e.raw, e.conn).value.body.payload;
    AllDeliveredExactly(c, s, payload, e.conn, e.now, e.order);
    WaitingListed(c, s, payload, e.conn, e.now, e.order, cell, id);
    i := FlushedEntry(c, s, Step(c, s, e), e.order, id, b, s.conns[cell]);
  }

  lemma WaitingListed(c: Config, s: State, payload: Bytes, conn: Conn, now: int, order: seq<string>, cell: string, id: string)
    requires FlushOrder(c, s, payload, conn, now, order)
    requires ProvenClaim(c, payload, conn).Some? && ProvenClaim(c, payload, conn).value.cellId == cell
    requires id in s.buffer && Waiting(s.buffer[id], cell, now)
    ensures id in order
  {
    assert id in Buffered(s.buffer, cell, now).Keys;
  }

  lemma FlushedEntry(c: Config, s: State, t: State, order: seq<string>, id: string, b: Body, conn: Conn) returns (i: nat)
    requires forall x :: x in order ==> x in s.buffer && Unpack(c.lib, s.buffer[x].payload).Some?
    requires |t.log| == |s.log| + |order| && AllSent(c, s, t, order, conn)
    requires id in order && RowPacket(c, s.buffer[id]).body == b
    ensures i < |t.log| && t.log[i].Sent?
    ensures t.log[i].conn == conn && t.log[i].pkt.body == b && t.log[i].pkt == Signed(c.lib, t.log[i].pkt, c.who.signKey)
  {
    var k :| 0 <= k < |order| && order[k] == id;
    i := |s.log| + k;
  }

  /** The one place of the message is this log entry: sent to the cell, under this node's key. */
  ghost predicate DeliveredOnce(c: Config, s: State, i: nat, conn: Conn, b: Body) {
    && i < |s.log| && s.log[i].Sent? && s.log[i].conn == conn && s.log[i].pkt.body == b
    && s.log[i].pkt == Signed(c.lib, s.log[i].pkt, c.who.signKey)
    && !Held(c.lib, s.buffer, b)
    && forall m :: 0 <= m < |s.log| && m != i ==> !Weighs(c.lib, s.log[m], b)
  }

  lemma OnlyPlace(c: Config, states: seq<State>, events: seq<Event>, i: nat, b: Body)
    requires c.lib.CodecLaw() && IsRun(c, states, events) && Pristine(states[0])
    requires DistinctIds(c, events) && b.kind == MSG
    requires i < |states[|events|].log| && Weighs(c.lib, states[|events|].log[i], b)
    ensures !Held(c.lib, states[|events|].buffer, b)
    ensures forall m :: 0 <= m < |states[|events|].log| && m != i ==> !Weighs(c.lib, states[|events|].log[m], b)
  {
    ExactlyOnePlace(c, states, events, b);
  }

  /** Between these two events the cell does not register and no cleanup comes too late. */
  ghost predicate QuietBetween(c: Config, events: seq<Event>, k: nat, j: nat, cell: string, until: int)
    requires j <= |events|
  {
    forall i :: k < i < j ==> Quiet(c, events[i], cell, until)
  }

  lemma ParkedAt(c: Config, states: seq<State>, events: seq<Event>, k: nat, b: Body, cell: string)
    requires c.lib.CodecLaw() && IsRun(c, states, events) && Pristine(states[0]) && DistinctIds(c, events)
    requires k < |events| && Given(c, events[k]) == Some(b)
    requires ParseAddr(b.toAddr).0 == Some(cell) && b.id in states[k + 1].buffer
    ensures b.kind == MSG && BufferOk(c.lib, states[k + 1].buffer)
    ensures HoldsFor(c, states[k + 1].buffer[b.id], b, cell, TimeOf(events[k]) + TTL_MESSAGE_SECS)
  {
    GivenIsRouted(c, states[k], events[k]);
    assert events[..k + 1][k] == events[k];
    FreshIdFree(c, states[..k + 2], events[..k + 1]);
    RoutedParks(c, states[k], GivenPacket(c, events[k]), TimeOf(events[k]), cell);
    Conservation(c, states[..k + 2], events[..k + 1], Body("", MSG, "", "", [], 0));
  }

  lemma StillWaiting(c: Config, states: seq<State>, events: seq<Event>, k: nat, j: nat, b: Body, cell: string)
    requires c.lib.CodecLaw() && IsRun(c, states, events) && Pristine(states[0]) && DistinctIds(c, events)
    requires k < j <= |events| && Given(c, events[k]) == Some(b)
    requires ParseAddr(b.toAddr).0 == Some(cell) && b.id in states[k + 1].buffer
    requires QuietBetween(c, events, k, j, cell, TimeOf(events[k]) + TTL_MESSAGE_SECS)
    ensures b.kind == MSG && BufferOk(c.lib, states[j].buffer)
    ensures b.id in states[j].buffer
    ensures HoldsFor(c, states[j].buffer[b.id], b, cell, TimeOf(events[k]) + TTL_MESSAGE_SECS)
  {
    ParkedAt(c, states, events, k, b, cell);
    StaysBetween(c, states, events, k, j, b.id, cell);
  }

  lemma StaysBetween(c: Config, states: seq<State>, events: seq<Event>, k: nat, j: nat, id: string, cell: string)
    requires c.lib.CodecLaw() && IsRun(c, states, events) && k < j <= |events|
    requires BufferOk(c.lib, states[k + 1].buffer) && id in states[k + 1].buffer
    requires states[k + 1].buffer[id].toCell == cell
    requires QuietBetween(c, events, k, j, cell, states[k + 1].buffer[id].expiresAt)
    ensures BufferOk(c.lib, states[j].buffer)
    ensures id in states[j].buffer && states[j].buffer[id] == states[k + 1].buffer[id]
  {
    var between, row := events[k + 1..j], states[k + 1].buffer[id];
    QuietSlice(c, events, k, j, cell, row.expiresAt, between);
    QuietStays(c, between, row);
    RunSlice(c, states, events, k + 1, j);
    RowStays(c, states[k + 1..j + 1], between, id);
  }

  lemma QuietSlice(c: Config, events: seq<Event>, k: nat, j: nat, cell: string, until: int, between: seq<Event>)
    requires k < j <= |events| && QuietBetween(c, events, k, j, cell, until) && between == events[k + 1..j]
    ensures forall i :: 0 <= i < |between| ==> Quiet(c, between[i], cell, until)
  {
    forall i | 0 <= i < |between|
      ensures Quiet(c, between[i], cell, until)
    {
      assert between[i] == events[k + 1 + i];
    }
  }

  lemma RunSlice(c: Config, states: seq<State>, events: seq<Event>, k: nat, j: nat)
    requires IsRun(c, states, events) && k <= j <= |events|
    ensures IsRun(c, states[k..j + 1], events[k..j])
  {
  }

  // Buffered and flushed: a message that was given to the router and had to wait is, once its
  // cell registers within 72 hours and the sends of the flush go through, delivered to the
  // cell; and at any later moment that delivery is the only place where the message is.
  lemma WaitsThenDelivered(c: Config, states: seq<State>, events: seq<Event>, k: nat, j: nat, b: Body, cell: string)
    returns (i: nat)
    requires c.lib.CodecLaw() && IsRun(c, states, events) && Pristine(states[0]) && DistinctIds(c, events)
    requires k < j < |events| && Given(c, events[k]) == Some(b)
    requires ParseAddr(b.toAddr).0 == Some(cell) && b.id in states[k + 1].buffer
    requires QuietBetween(c, events, k, j, cell, TimeOf(events[k]) + TTL_MESSAGE_SECS)
    requires Registers(c, events[j], cell) && events[j].now < TimeOf(events[k]) + TTL_MESSAGE_SECS
    requires cell != "" && cell in states[j].conns
    requires forall t :: states[j].tick <= t < states[j].tick + |events[j].order| ==> c.luck(t).delivered
    ensures DeliveredOnce(c, states[|events|], i, states[j].conns[cell], b)
  {
    StillWaiting(c, states, events, k, j, b, cell);
    i := FlushHandsOver(c, states[j], events[j], b.id, b, cell);
    StaysDelivered(c, states, events, j + 1, i, states[j].conns[cell], b);
  }

  lemma StaysDelivered(c: Config, states: seq<State>, events: seq<Event>, j: nat, i: nat, conn: Conn, b: Body)
    requires c.lib.CodecLaw() && IsRun(c, states, events) && Pristine(states[0]) && DistinctIds(c, events)
    requires b.kind == MSG && j <= |events| && i < |states[j].log|
    requires states[j].log[i].Sent? && states[j].log[i].conn == conn && states[j].log[i].pkt.body == b
    requires states[j].log[i].pkt == Signed(c.lib, states[j].log[i].pkt, c.who.signKey)
    ensures DeliveredOnce(c, states[|events|], i, conn, b)
  {
    LogOnlyGrows(c, states, events, j);
    Recorded(states[j].log, states[|events|].log, i);
    OnlyPlace(c, states, events, i, b);
  }

  lemma Recorded(a: seq<Fate>, b: seq<Fate>, i: nat)
    requires Grows(a, b) && i < |a|
    ensures i < |b| && b[i] == a[i]
  {
    assert b[..|a|][i] == a[i];
  }

  // The client at the other end reads the plaintext out of it.
  lemma WaitsThenRead(c: Config, states: seq<State>, events: seq<Event>, k: nat, j: nat, b: Body, cell: string,
                      encKey: Bytes, plaintext: Bytes, ephemeral: Bytes, nonce: Bytes) returns (i: nat)
    requires c.lib.CodecLaw() && c.lib.SigningLaw() && c.lib.ExchangeLaw() && c.lib.AeadLaw()
    requires IsRun(c, states, events) && Pristine(states[0]) && DistinctIds(c, events)
    requires k < j < |events| && Given(c, events[k]) == Some(b)
    requires ParseAddr(b.toAddr).0 == Some(cell) && b.id in states[k + 1].buffer
    requires QuietBetween(c, events, k, j, cell, TimeOf(events[k]) + TTL_MESSAGE_SECS)
    requires Registers(c, events[j], cell) && events[j].now < TimeOf(events[k]) + TTL_MESSAGE_SECS
    requires cell != "" && cell in states[j].conns
    requires forall t :: states[j].tick <= t < states[j].tick + |events[j].order| ==> c.luck(t).delivered
    requires b.payload == E.SealedPayload(c.lib, E.Encrypt(c.lib, plaintext, c.lib.dhPub(encKey), ephemeral, nonce))
    ensures DeliveredOnce(c, states[|events|], i, states[j].conns[cell], b)
    ensures E.ClientReads(c.lib, encKey, c.lib.signPub(c.who.signKey), Pack(c.lib, states[|events|].log[i].pkt))
         == Some(E.Delivery(b.fromAddr, plaintext))
  {
    GivenIsRouted(c, states[k], events[k]);
    i := WaitsThenDelivered(c, states, events, k, j, b, cell);
    E.LastHopDelivers(c.lib, states[|events|].log[i].pkt, c.who.signKey, encKey, plaintext, ephemeral, nonce);
  }
}
