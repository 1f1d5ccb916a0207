// Which fate a packet meets, in terms a caller can check before routing it.
module Fates {
  import opened Text
  import opened Protocol
  import opened Tables
  import opened Machine
  import opened Ledger

  // --- reaching a node ---

  /** A live connection takes the packet. */
  predicate TakenNow(c: Config, s: State, id: string) {
    id in s.conns && c.luck(s.tick).delivered
  }

  /** The tick of the first attempt that does not use the connection there is. */
  function TickAfterSend(s: State, id: string): nat {
    if id in s.conns then s.tick + 1 else s.tick
  }

  /** A connection attempt at this tick reaches the node. */
  predicate Dials(c: Config, tick: nat, id: string) {
    c.luck(tick).reached.Some? && Authenticate(c, c.luck(tick).reached.value, Some(id)).Some?
  }

  predicate Listed(s: State, id: string) {
    id in s.nodes && s.nodes[id].status == ONLINE
  }

  /** The node is believed online, answers as itself, and takes the packet. */
  predicate TakenAnew(c: Config, s: State, id: string) {
    && Listed(s, id) && Dials(c, TickAfterSend(s, id), id)
    && c.luck(TickAfterSend(s, id) + 1).delivered
  }

  predicate Reachable(c: Config, s: State, id: string) {
    id == Me(c) || TakenNow(c, s, id) || TakenAnew(c, s, id)
  }

  lemma SendToNodeExact(c: Config, s: State, id: string, pkt: Packet)
    ensures SendToNode(c, s, id, pkt).ok <==> Reachable(c, s, id)
  {
    if id == Me(c) {
      DeliverLocalTried(c, s, pkt);
    } else {
      SendToExact(c, s, id, pkt);
      ConnectExact(c, SendTo(c, s, id, pkt).s, id);
    }
  }

  lemma SendToExact(c: Config, s: State, id: string, pkt: Packet)
    ensures var a := SendTo(c, s, id, pkt);
            (a.ok <==> TakenNow(c, s, id)) && a.s.nodes == s.nodes && a.s.tick == TickAfterSend(s, id)
  {
  }

  lemma ConnectExact(c: Config, s: State, id: string)
    ensures var (s1, conn) := ConnectToNode(c, s, id);
            && s1.tick == s.tick + 1 && s1.log == s.log
            && (conn.Some? <==> Dials(c, s.tick, id))
  {
  }

  /** The presence row names a node the cell visits. */
  predicate Visits(p: PresenceRow) {
    p.visiting.Some? && p.visiting.value != ""
  }

  // --- after a node has failed ---

  /** The tick after the node has failed to take the packet: a send over the connection there
      is, a connection attempt if the node is believed online, and a send if that works. */
  function TickAfterFailure(c: Config, s: State, id: string): nat {
    var t := TickAfterSend(s, id);
    if !Listed(s, id) then t else if Dials(c, t, id) then t + 2 else t + 1
  }

  /** The connections then: that of the node is gone, or is the one just opened. */
  function ConnsAfterFailure(c: Config, s: State, id: string): map<string, Conn> {
    var t := TickAfterSend(s, id);
    if Listed(s, id) && Dials(c, t, id)
    then s.conns[id := Authenticate(c, c.luck(t).reached.value, Some(id)).value]
    else s.conns - {id}
  }

  lemma DialMeets(c: Config, tick: nat, id: string)
    requires Dials(c, tick, id) && id != ""
    ensures Authenticate(c, c.luck(tick).reached.value, Some(id)).value.peerNodeId == id
  {
  }

  lemma AfterFailure(c: Config, s: State, id: string, pkt: Packet)
    requires id != Me(c) && id != "" && !Reachable(c, s, id)
    ensures var t := SendToNode(c, s, id, pkt).s;
            t.tick == TickAfterFailure(c, s, id) && t.conns == ConnsAfterFailure(c, s, id) && t.log == s.log
  {
    var s1 := s.(tick := TickAfterSend(s, id), conns := s.conns - {id});
    SendToFailed(c, s, id, pkt);
    if Listed(s, id) && Dials(c, s1.tick, id) {
      DialMeets(c, s1.tick, id);
      DialedThenFails(c, s1, id, SendTo(c, s, id, pkt).pkt);
    }
  }

  lemma DialedThenFails(c: Config, s: State, id: string, pkt: Packet)
    requires id != "" && Dials(c, s.tick, id) && !c.luck(s.tick + 1).delivered
    ensures var conn := Authenticate(c, c.luck(s.tick).reached.value, Some(id)).value;
            && ConnectToNode(c, s, id) == (Register(s.(tick := s.tick + 1), conn), Some(conn))
            && SendVia(c, ConnectToNode(c, s, id).0, conn, pkt).s
               == Register(s.(tick := s.tick + 1), conn).(tick := s.tick + 2)
            && Register(s.(tick := s.tick + 1), conn).conns == s.conns[id := conn]
  {
    DialMeets(c, s.tick, id);
  }

  lemma SendToFailed(c: Config, s: State, id: string, pkt: Packet)
    requires !TakenNow(c, s, id)
    ensures var a := SendTo(c, s, id, pkt);
            !a.ok && a.s == s.(tick := TickAfterSend(s, id), conns := s.conns - {id})
  {
  }

  /** The node when its turn at the visiting node has failed, as far as the home node goes. */
  function AfterVisiting(c: Config, s: State, p: PresenceRow): State {
    if Visits(p) && p.visiting.value != Me(c)
    then s.(tick := TickAfterFailure(c, s, p.visiting.value), conns := ConnsAfterFailure(c, s, p.visiting.value))
    else s
  }

  /** Neither the visiting node nor the home node takes the packet. */
  predicate BothFail(c: Config, s: State, p: PresenceRow) {
    (Visits(p) ==> !Reachable(c, s, p.visiting.value)) && !Reachable(c, AfterVisiting(c, s, p), p.home)
  }

  // The home node is tried in the state in which AfterVisiting says it is.
  lemma HomeReachable(c: Config, s: State, p: PresenceRow, pkt: Packet)
    requires Visits(p) ==> !Reachable(c, s, p.visiting.value)
    ensures Reachable(c, TryVisiting(c, s, p, pkt).s, p.home) <==> Reachable(c, AfterVisiting(c, s, p), p.home)
  {
    if Visits(p) {
      AfterFailure(c, s, p.visiting.value, pkt);
      SendToNodeTried(c, s, p.visiting.value, pkt);
      SameReach(c, SendToNode(c, s, p.visiting.value, pkt).s, AfterVisiting(c, s, p), p.home);
    }
  }

  lemma SameReach(c: Config, s: State, t: State, id: string)
    requires s.nodes == t.nodes && s.conns == t.conns && s.tick == t.tick
    ensures Reachable(c, s, id) <==> Reachable(c, t, id)
  {
  }

  lemma TryNodesExact(c: Config, s: State, p: PresenceRow, pkt: Packet)
    ensures TryNodes(c, s, p, pkt).ok <==> !BothFail(c, s, p)
  {
    if Visits(p) {
      SendToNodeExact(c, s, p.visiting.value, pkt);
    }
    var a := TryVisiting(c, s, p, pkt);
    if !a.ok {
      HomeReachable(c, s, p, pkt);
      SendToNodeExact(c, a.s, p.home, a.pkt);
    }
  }

  // A packet is put in the buffer exactly when it is for a cell with a presence row neither
  // of whose nodes takes it, and its id is free.
  lemma BufferedExactly(c: Config, s: State, pkt: Packet, now: int)
    ensures var (cell, _) := ParseAddr(pkt.body.toAddr);
            !Route(c, s, pkt, now).ok
            <==> cell.Some? && cell.value in s.presence && BothFail(c, s, s.presence[cell.value])
                 && pkt.body.id !in s.buffer
  {
    match ParseAddr(pkt.body.toAddr)
    case (None, node) =>
    case (Some(cell), _) =>
      if cell in s.presence {
        TryNodesExact(c, s, s.presence[cell], pkt);
      } else if cell in s.cells {
        DeliverLocalTried(c, s, pkt);
      }
  }

  // --- the promise to buffer for offline cells ---

  /** A packet for the cell comes to be delivered by this very node. */
  predicate EndsHere(c: Config, s: State, cell: string) {
    if cell !in s.presence then cell in s.cells
    else
      var p := s.presence[cell];
      if Visits(p) && Reachable(c, s, p.visiting.value) then p.visiting.value == Me(c)
      else p.home == Me(c)
  }

  /** The row names a visiting node other than this one, which is tried first. */
  predicate TriesVisiting(c: Config, s: State, cell: string) {
    cell in s.presence && Visits(s.presence[cell]) && s.presence[cell].visiting.value != Me(c)
  }

  function CellTick(c: Config, s: State, cell: string): nat {
    if TriesVisiting(c, s, cell) then TickAfterFailure(c, s, s.presence[cell].visiting.value) else s.tick
  }

  function CellConns(c: Config, s: State, cell: string): map<string, Conn> {
    if TriesVisiting(c, s, cell) then ConnsAfterFailure(c, s, s.presence[cell].visiting.value) else s.conns
  }

  /** Delivering at this node, the cell's own connection takes the packet. */
  predicate CellTakes(c: Config, s: State, cell: string) {
    cell != "" && cell in CellConns(c, s, cell) && c.luck(CellTick(c, s, cell)).delivered
  }

  /** The state in which this node looks for the cell's connection. */
  function WhenDelivering(c: Config, s: State, cell: string, pkt: Packet): State {
    if TriesVisiting(c, s, cell) then TryVisiting(c, s, s.presence[cell], pkt).s else s
  }

  // Where the cell's connection is looked for, in closed form.
  lemma DeliveringState(c: Config, s: State, cell: string, pkt: Packet)
    requires EndsHere(c, s, cell)
    ensures var t := WhenDelivering(c, s, cell, pkt);
            t.tick == CellTick(c, s, cell) && t.conns == CellConns(c, s, cell) && t.log == s.log
  {
    if TriesVisiting(c, s, cell) {
      AfterFailure(c, s, s.presence[cell].visiting.value, pkt);
    }
  }

  ghost predicate LastDrop(s: State, t: State, reason: Reason, b: Body) {
    t.log == s.log + [Dropped(reason, b)]
  }

  /** At this node no live connection of the cell takes it. */
  predicate NotTaken(c: Config, s: State, cell: string) {
    cell == "" || !TakenNow(c, s, cell)
  }

  lemma LocalDrop(c: Config, s: State, pkt: Packet, cell: string)
    requires ParseAddr(pkt.body.toAddr).0 == Some(cell)
    ensures LastDrop(s, DeliverLocal(c, s, pkt).s, NoHandler, pkt.body)
            <==> !c.hasHandler && NotTaken(c, s, cell)
  {
    var t := DeliverLocal(c, s, pkt).s;
    assert t.log[|s.log|] == (s.log + [t.log[|s.log|]])[|s.log|];
  }

  lemma ElsewhereNotDropped(c: Config, s: State, id: string, pkt: Packet)
    requires id != Me(c)
    ensures var t := SendToNode(c, s, id, pkt).s;
            t.log == s.log || (|t.log| == |s.log| + 1 && t.log[|s.log|].Sent?)
  {
    var a := SendTo(c, s, id, pkt);
    SendToNotDropped(c, s, id, pkt);
    ConnectExact(c, a.s, id);
    var (s1, conn) := ConnectToNode(c, a.s, id);
    if conn.Some? {
      ViaNotDropped(c, s1, conn.value, a.pkt);
    }
  }

  lemma SendToNotDropped(c: Config, s: State, id: string, pkt: Packet)
    ensures var a := SendTo(c, s, id, pkt);
            if a.ok then |a.s.log| == |s.log| + 1 && a.s.log[|s.log|].Sent? else a.s.log == s.log
  {
  }

  lemma ViaNotDropped(c: Config, s: State, conn: Conn, pkt: Packet)
    ensures var t := SendVia(c, s, conn, pkt).s;
            t.log == s.log || (|t.log| == |s.log| + 1 && t.log[|s.log|].Sent?)
  {
  }

  // The documents promise that a message for a cell that is not connected waits in the
  // buffer. The code keeps it waiting only on other nodes: at the node where it ends, a
  // message is never buffered, and it is dropped exactly when neither a live connection of
  // the cell nor a handler takes it.
  lemma OfflineCellLosesMessage(c: Config, s: State, pkt: Packet, now: int, cell: string)
    requires ParseAddr(pkt.body.toAddr).0 == Some(cell)
    ensures EndsHere(c, s, cell) ==> Route(c, s, pkt, now).ok
    ensures LastDrop(s, Route(c, s, pkt, now).s, NoHandler, pkt.body)
            <==> EndsHere(c, s, cell) && !c.hasHandler && !CellTakes(c, s, cell)
  {
    HandlerDrop(c, s, pkt, now, cell);
    if EndsHere(c, s, cell) {
      DeliveringState(c, s, cell, pkt);
    }
  }

  lemma HandlerDrop(c: Config, s: State, pkt: Packet, now: int, cell: string)
    requires ParseAddr(pkt.body.toAddr).0 == Some(cell)
    ensures EndsHere(c, s, cell) ==> Route(c, s, pkt, now).ok
    ensures LastDrop(s, Route(c, s, pkt, now).s, NoHandler, pkt.body)
            <==> EndsHere(c, s, cell) && !c.hasHandler
                 && NotTaken(c, WhenDelivering(c, s, cell, pkt), cell)
  {
    if cell !in s.presence {
      LocalDrop(c, s, pkt, cell);
      DeliverLocalTried(c, s, pkt);
    } else {
      var p := s.presence[cell];
      if Visits(p) {
        SendToNodeExact(c, s, p.visiting.value, pkt);
        SendToNodeTried(c, s, p.visiting.value, pkt);
      }
      var a := TryVisiting(c, s, p, pkt);
      if a.ok {
        VisitingDrop(c, s, pkt, cell);
      } else {
        HomeDrop(c, s, pkt, now, cell);
      }
    }
  }

  lemma VisitingDrop(c: Config, s: State, pkt: Packet, cell: string)
    requires ParseAddr(pkt.body.toAddr).0 == Some(cell) && cell in s.presence
    requires TryVisiting(c, s, s.presence[cell], pkt).ok
    ensures LastDrop(s, TryVisiting(c, s, s.presence[cell], pkt).s, NoHandler, pkt.body)
            <==> s.presence[cell].visiting.value == Me(c) && !c.hasHandler && NotTaken(c, s, cell)
  {
    var id := s.presence[cell].visiting.value;
    if id == Me(c) {
      LocalDrop(c, s, pkt, cell);
    } else {
      ElsewhereNotDropped(c, s, id, pkt);
    }
  }

  lemma HomeDrop(c: Config, s: State, pkt: Packet, now: int, cell: string)
    requires ParseAddr(pkt.body.toAddr).0 == Some(cell) && cell in s.presence
    requires !TryVisiting(c, s, s.presence[cell], pkt).ok
    ensures s.presence[cell].home == Me(c) ==> Route(c, s, pkt, now).ok
    ensures LastDrop(s, Route(c, s, pkt, now).s, NoHandler, pkt.body)
            <==> s.presence[cell].home == Me(c) && !c.hasHandler
                 && NotTaken(c, TryVisiting(c, s, s.presence[cell], pkt).s, cell)
  {
    var p := s.presence[cell];
    if Visits(p) {
      SendToNodeTried(c, s, p.visiting.value, pkt);
    }
    var a := TryVisiting(c, s, p, pkt);
    HomeOutcome(c, a.s, p.home, a.pkt, cell);
    SendToNodeTried(c, a.s, p.home, a.pkt);
    var a2 := SendToNode(c, a.s, p.home, a.pkt);
    if a2.ok {
      assert Route(c, s, pkt, now) == a2;
    } else {
      ParkDrop(c, a2.s, cell, p.home, a2.pkt, now);
      assert Route(c, s, pkt, now).s == Park(c, a2.s, cell, p.home, a2.pkt, now);
    }
  }

  lemma HomeOutcome(c: Config, s: State, home: string, pkt: Packet, cell: string)
    requires ParseAddr(pkt.body.toAddr).0 == Some(cell)
    ensures home == Me(c) ==> SendToNode(c, s, home, pkt).ok
    ensures LastDrop(s, SendToNode(c, s, home, pkt).s, NoHandler, pkt.body)
            <==> home == Me(c) && !c.hasHandler && NotTaken(c, s, cell)
  {
    if home == Me(c) {
      LocalDrop(c, s, pkt, cell);
      DeliverLocalTried(c, s, pkt);
    } else {
      ElsewhereNotDropped(c, s, home, pkt);
    }
  }

  lemma ParkDrop(c: Config, s: State, cell: string, home: string, pkt: Packet, now: int)
    ensures !LastDrop(s, Park(c, s, cell, home, pkt, now), NoHandler, pkt.body)
  {
    var t := Park(c, s, cell, home, pkt, now);
    if t.log != s.log {
      assert t.log[|s.log|] == Dropped(DuplicateId, pkt.body);
    }
  }

  // --- ids that are taken ---

  lemma SwallowedWhenParked(c: Config, s: State, cell: string, home: string, pkt: Packet, now: int)
    ensures LastDrop(s, Park(c, s, cell, home, pkt, now), DuplicateId, pkt.body) <==> pkt.body.id in s.buffer
  {
    var t := Park(c, s, cell, home, pkt, now);
    assert t.log == s.log ==> |t.log| != |s.log| + 1;
  }

  lemma NotSwallowedWhenTried(c: Config, s: State, pkt: Packet, a: Attempt)
    requires Tried(c, s, pkt, a) && a.ok
    requires a.s.log[|s.log|].Dropped? ==> a.s.log[|s.log|].reason != DuplicateId
    ensures !LastDrop(s, a.s, DuplicateId, pkt.body)
  {
    assert a.s.log == s.log + [a.s.log[|s.log|]];
  }

  lemma LocalNotSwallowed(c: Config, s: State, pkt: Packet)
    ensures !LastDrop(s, DeliverLocal(c, s, pkt).s, DuplicateId, pkt.body)
  {
    DeliverLocalTried(c, s, pkt);
    NotSwallowedWhenTried(c, s, pkt, DeliverLocal(c, s, pkt));
  }

  lemma NodeNotSwallowed(c: Config, s: State, id: string, pkt: Packet)
    ensures !LastDrop(s, SendToNode(c, s, id, pkt).s, DuplicateId, pkt.body)
  {
    if id == Me(c) {
      LocalNotSwallowed(c, s, pkt);
    } else {
      ElsewhereNotDropped(c, s, id, pkt);
    }
  }

  lemma TriedNotSwallowed(c: Config, s: State, p: PresenceRow, pkt: Packet)
    ensures !LastDrop(s, TryNodes(c, s, p, pkt).s, DuplicateId, pkt.body)
  {
    if Visits(p) {
      NodeNotSwallowed(c, s, p.visiting.value, pkt);
      SendToNodeTried(c, s, p.visiting.value, pkt);
    }
    var a := TryVisiting(c, s, p, pkt);
    NodeNotSwallowed(c, a.s, p.home, a.pkt);
  }

  // INSERT OR IGNORE loses a packet exactly where it would have been buffered, had its id
  // been free; whether the row that has the id is still alive plays no part.
  lemma SwallowedExactly(c: Config, s: State, pkt: Packet, now: int)
    ensures var (cell, _) := ParseAddr(pkt.body.toAddr);
            LastDrop(s, Route(c, s, pkt, now).s, DuplicateId, pkt.body)
            <==> cell.Some? && cell.value in s.presence && BothFail(c, s, s.presence[cell.value])
                 && pkt.body.id in s.buffer
  {
    match ParseAddr(pkt.body.toAddr)
    case (None, node) =>
      NodeNotSwallowed(c, s, node, pkt);
      SendToNodeTried(c, s, node, pkt);
      var a := SendToNode(c, s, node, pkt);
      if !a.ok {
        assert Route(c, s, pkt, now).s.log[|s.log|] == Dropped(Unreachable, a.pkt.body);
      }
    case (Some(cell), _) =>
      if cell in s.presence {
        var p := s.presence[cell];
        TryNodesExact(c, s, p, pkt);
        TryNodesTried(c, s, p, pkt);
        TriedNotSwallowed(c, s, p, pkt);
        var a := TryNodes(c, s, p, pkt);
        SwallowedWhenParked(c, a.s, cell, p.home, a.pkt, now);
      } else if cell in s.cells {
        LocalNotSwallowed(c, s, pkt);
      } else {
        assert Route(c, s, pkt, now).s.log[|s.log|] == Dropped(UnknownCell, pkt.body);
      }
  }
}
