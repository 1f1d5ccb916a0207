// What becomes of a packet that is routed, decided from the tables, the connections and the
// outcomes of the attempts alone - for every address, of a node or of a cell.
module Verdicts {
  import opened Text
  import opened Protocol
  import opened Tables
  import opened Machine
  import opened Ledger
  import opened Fates
  import opened Invariants
  import opened Delivery

  datatype Verdict =
    | Leaves(conn: Conn)      // over this connection
    | ToHandler
    | Lost(reason: Reason)
    | Waits                   // in the buffer

  /** The connection over which a reachable node takes the packet. */
  function TakenBy(c: Config, s: State, id: string): Conn
    requires id != Me(c) && Reachable(c, s, id)
  {
    if TakenNow(c, s, id) then s.conns[id]
    else Authenticate(c, c.luck(TickAfterSend(s, id)).reached.value, Some(id)).value
  }

  /** Nobody's connection takes it: it is for the application. */
  function ForApplication(c: Config): Verdict {
    if c.hasHandler then ToHandler else Lost(NoHandler)
  }

  /** At the node where it ends, a message goes to its cell or to the application. */
  function AtItsEnd(c: Config, s: State, cell: string): Verdict {
    if cell != "" && TakenNow(c, s, cell) then Leaves(s.conns[cell]) else ForApplication(c)
  }

  /** At a node that can be reached, this one or another. */
  function AtNode(c: Config, s: State, id: string, cell: string): Verdict
    requires Reachable(c, s, id)
  {
    if id == Me(c) then AtItsEnd(c, s, cell) else Leaves(TakenBy(c, s, id))
  }

  function ForNode(c: Config, s: State, node: string): Verdict {
    if node == Me(c) then ForApplication(c)
    else if Reachable(c, s, node) then Leaves(TakenBy(c, s, node))
    else Lost(Unreachable)
  }

  function ForCell(c: Config, s: State, cell: string, id: string): Verdict {
    if cell !in s.presence then
      if cell in s.cells then AtItsEnd(c, s, cell) else Lost(UnknownCell)
    else
      var p := s.presence[cell];
      var s1 := AfterVisiting(c, s, p);
      if Visits(p) && Reachable(c, s, p.visiting.value) then AtNode(c, s, p.visiting.value, cell)
      else if Reachable(c, s1, p.home) then AtNode(c, s1, p.home, cell)
      else if id in s.buffer then Lost(DuplicateId)
      else Waits
  }

  function VerdictOn(c: Config, s: State, pkt: Packet): Verdict {
    match ParseAddr(pkt.body.toAddr)
    case (None, node) => ForNode(c, s, node)
    case (Some(cell), _) => ForCell(c, s, cell, pkt.body.id)
  }

  ghost predicate LastHandled(s: State, t: State, b: Body) {
    && |t.log| == |s.log| + 1 && t.log[..|s.log|] == s.log
    && t.log[|s.log|].Handled? && t.log[|s.log|].pkt.body == b
  }

  /** t is s after this verdict on the packet with this body. */
  ghost predicate CarriedOut(c: Config, s: State, t: State, v: Verdict, b: Body) {
    match v
    case Leaves(conn) => SentOver(c, s, t, conn, b) && t.buffer == s.buffer
    case ToHandler => LastHandled(s, t, b) && t.buffer == s.buffer
    case Lost(reason) => LastDrop(s, t, reason, b) && t.buffer == s.buffer
    case Waits => t.log == s.log && b.id !in s.buffer && b.id in t.buffer
  }

  // --- one attempt ---

  lemma ConnSends(c: Config, s: State, id: string, pkt: Packet)
    requires TakenNow(c, s, id)
    ensures CarriedOut(c, s, SendTo(c, s, id, pkt).s, Leaves(s.conns[id]), pkt.body) && SendTo(c, s, id, pkt).ok
  {
  }

  lemma LocalVerdict(c: Config, s: State, pkt: Packet, cell: string)
    requires ParseAddr(pkt.body.toAddr).0 == Some(cell)
    ensures CarriedOut(c, s, DeliverLocal(c, s, pkt).s, AtItsEnd(c, s, cell), pkt.body)
  {
    if cell != "" && TakenNow(c, s, cell) {
      ConnSends(c, s, cell, pkt);
    } else {
      var a := if cell != "" then SendTo(c, s, cell, pkt) else Attempt(s, pkt, false);
      if cell != "" {
        SendToFailed(c, s, cell, pkt);
        SendToTried(c, s, cell, pkt);
      }
      ApplicationVerdict(c, s, a, pkt.body);
    }
  }

  lemma ApplicationVerdict(c: Config, s: State, a: Attempt, b: Body)
    requires a.s.log == s.log && a.s.buffer == s.buffer && a.pkt.body == b
    ensures var f := if c.hasHandler then Handled(a.pkt) else Dropped(NoHandler, a.pkt.body);
            CarriedOut(c, s, a.s.(log := a.s.log + [f]), ForApplication(c), b)
  {
  }

  lemma NodeLocalVerdict(c: Config, s: State, pkt: Packet, node: string)
    requires ParseAddr(pkt.body.toAddr) == (None, node)
    ensures CarriedOut(c, s, DeliverLocal(c, s, pkt).s, ForApplication(c), pkt.body)
  {
    ApplicationVerdict(c, s, Attempt(s, pkt, false), pkt.body);
  }

  lemma ElsewhereVerdict(c: Config, s: State, id: string, pkt: Packet)
    requires id != Me(c) && Reachable(c, s, id)
    ensures CarriedOut(c, s, SendToNode(c, s, id, pkt).s, Leaves(TakenBy(c, s, id)), pkt.body)
    ensures SendToNode(c, s, id, pkt).ok
  {
    if TakenNow(c, s, id) {
      ConnSends(c, s, id, pkt);
    } else {
      var s1 := s.(tick := TickAfterSend(s, id), conns := s.conns - {id});
      SendToFailed(c, s, id, pkt);
      SendToTried(c, s, id, pkt);
      DialedThenSent(c, s1, id, SendTo(c, s, id, pkt).pkt);
    }
  }

  lemma DialedThenSent(c: Config, s: State, id: string, pkt: Packet)
    requires Dials(c, s.tick, id) && c.luck(s.tick + 1).delivered
    ensures var conn := Authenticate(c, c.luck(s.tick).reached.value, Some(id)).value;
            var s1 := Register(s.(tick := s.tick + 1), conn);
            && ConnectToNode(c, s, id) == (s1, Some(conn)) && SendVia(c, s1, conn, pkt).ok
            && CarriedOut(c, s, SendVia(c, s1, conn, pkt).s, Leaves(conn), pkt.body)
  {
  }

  lemma AtNodeVerdict(c: Config, s: State, id: string, pkt: Packet, cell: string)
    requires ParseAddr(pkt.body.toAddr).0 == Some(cell) && Reachable(c, s, id)
    ensures CarriedOut(c, s, SendToNode(c, s, id, pkt).s, AtNode(c, s, id, cell), pkt.body)
    ensures SendToNode(c, s, id, pkt).ok
  {
    if id == Me(c) {
      LocalVerdict(c, s, pkt, cell);
      DeliverLocalTried(c, s, pkt);
    } else {
      ElsewhereVerdict(c, s, id, pkt);
    }
  }

  // --- the home node, after the visiting node ---

  // A verdict depends on the connections, the tick and the list of nodes, and on nothing else.
  lemma SameVerdict(c: Config, s: State, s1: State, id: string, cell: string)
    requires s.nodes == s1.nodes && s.conns == s1.conns && s.tick == s1.tick
    ensures Reachable(c, s, id) <==> Reachable(c, s1, id)
    ensures Reachable(c, s, id) ==> AtNode(c, s, id, cell) == AtNode(c, s1, id, cell)
  {
  }

  lemma HomeVerdict(c: Config, s: State, p: PresenceRow, pkt: Packet, cell: string)
    requires ParseAddr(pkt.body.toAddr).0 == Some(cell)
    requires (Visits(p) ==> !Reachable(c, s, p.visiting.value)) && Reachable(c, AfterVisiting(c, s, p), p.home)
    ensures TryNodes(c, s, p, pkt).ok
    ensures CarriedOut(c, s, TryNodes(c, s, p, pkt).s, AtNode(c, AfterVisiting(c, s, p), p.home, cell), pkt.body)
  {
    var a := TryVisiting(c, s, p, pkt);
    if Visits(p) {
      SendToNodeExact(c, s, p.visiting.value, pkt);
      SendToNodeTried(c, s, p.visiting.value, pkt);
      AfterFailure(c, s, p.visiting.value, pkt);
    }
    SameVerdict(c, a.s, AfterVisiting(c, s, p), p.home, cell);
    AtNodeVerdict(c, a.s, p.home, a.pkt, cell);
    StillCarriedOut(c, s, a.s, SendToNode(c, a.s, p.home, a.pkt).s, AtNode(c, a.s, p.home, cell), pkt.body);
  }

  lemma StillCarriedOut(c: Config, s: State, s1: State, t: State, v: Verdict, b: Body)
    requires s1.log == s.log && s1.buffer == s.buffer && CarriedOut(c, s1, t, v, b)
    ensures CarriedOut(c, s, t, v, b)
  {
  }

  // --- the whole route ---

  lemma NodeVerdict(c: Config, s: State, pkt: Packet, now: int, node: string)
    requires ParseAddr(pkt.body.toAddr) == (None, node)
    ensures CarriedOut(c, s, Route(c, s, pkt, now).s, ForNode(c, s, node), pkt.body)
  {
    if node == Me(c) {
      NodeLocalVerdict(c, s, pkt, node);
      DeliverLocalTried(c, s, pkt);
    } else if Reachable(c, s, node) {
      ElsewhereVerdict(c, s, node, pkt);
    } else {
      SendToNodeExact(c, s, node, pkt);
      SendToNodeTried(c, s, node, pkt);
    }
  }

  lemma NoNodeVerdict(c: Config, s: State, pkt: Packet, now: int, cell: string)
    requires ParseAddr(pkt.body.toAddr).0 == Some(cell) && cell in s.presence && BothFail(c, s, s.presence[cell])
    ensures CarriedOut(c, s, Route(c, s, pkt, now).s, if pkt.body.id in s.buffer then Lost(DuplicateId) else Waits, pkt.body)
  {
    var p := s.presence[cell];
    TryNodesExact(c, s, p, pkt);
    TryNodesTried(c, s, p, pkt);
    ParkVerdict(c, s, TryNodes(c, s, p, pkt).s, cell, p.home, TryNodes(c, s, p, pkt).pkt, now, pkt.body);
  }

  lemma ParkVerdict(c: Config, s: State, s1: State, cell: string, home: string, pkt: Packet, now: int, b: Body)
    requires s1.log == s.log && s1.buffer == s.buffer && pkt.body == b
    ensures CarriedOut(c, s, Park(c, s1, cell, home, pkt, now), if b.id in s.buffer then Lost(DuplicateId) else Waits, b)
  {
  }

  lemma CellVerdict(c: Config, s: State, pkt: Packet, now: int, cell: string)
    requires ParseAddr(pkt.body.toAddr).0 == Some(cell)
    ensures CarriedOut(c, s, Route(c, s, pkt, now).s, ForCell(c, s, cell, pkt.body.id), pkt.body)
  {
    if cell !in s.presence {
      LocalVerdict(c, s, pkt, cell);
    } else {
      var p := s.presence[cell];
      if Visits(p) && Reachable(c, s, p.visiting.value) {
        AtNodeVerdict(c, s, p.visiting.value, pkt, cell);
      } else if Reachable(c, AfterVisiting(c, s, p), p.home) {
        HomeVerdict(c, s, p, pkt, cell);
      } else {
        NoNodeVerdict(c, s, pkt, now, cell);
      }
    }
  }

  // Routing does to a packet exactly what the verdict says, whatever its address.
  lemma RouteExactly(c: Config, s: State, pkt: Packet, now: int)
    ensures CarriedOut(c, s, Route(c, s, pkt, now).s, VerdictOn(c, s, pkt), pkt.body)
  {
    match ParseAddr(pkt.body.toAddr)
    case (None, node) => NodeVerdict(c, s, pkt, now, node);
    case (Some(cell), _) => CellVerdict(c, s, pkt, now, cell);
  }

  // --- what that means, fate by fate ---

  // No two verdicts come to the same.
  lemma OneVerdict(c: Config, s: State, t: State, v: Verdict, w: Verdict, b: Body)
    requires CarriedOut(c, s, t, v, b) && CarriedOut(c, s, t, w, b)
    ensures v == w
  {
    match v
    case Leaves(_) => assert t.log[|s.log|].Sent?;
    case ToHandler => assert t.log[|s.log|].Handled?;
    case Lost(reason) => assert t.log[|s.log|] == Dropped(reason, b);
    case Waits =>
  }

  // So each fate occurs exactly under its verdict.
  lemma EachFateExactly(c: Config, s: State, pkt: Packet, now: int, v: Verdict)
    ensures CarriedOut(c, s, Route(c, s, pkt, now).s, v, pkt.body) <==> v == VerdictOn(c, s, pkt)
  {
    RouteExactly(c, s, pkt, now);
    if CarriedOut(c, s, Route(c, s, pkt, now).s, v, pkt.body) {
      OneVerdict(c, s, Route(c, s, pkt, now).s, v, VerdictOn(c, s, pkt), pkt.body);
    }
  }

  lemma TakenByNode(c: Config, s: State, id: string)
    requires Bound(s) && id != Me(c) && id != "" && Reachable(c, s, id)
    ensures TakenBy(c, s, id).peerNodeId == id
  {
    if !TakenNow(c, s, id) {
      DialMeets(c, TickAfterSend(s, id), id);
    }
  }

  // A message for a node, that is one whose address has no '@': it leaves, once and signed
  // here, over a connection of that node exactly if the node can be reached, and is lost as
  // unreachable otherwise; for this node itself it goes to the handler, if there is one.
  lemma NodeMessageExactly(c: Config, s: State, pkt: Packet, now: int, node: string)
    requires '@' !in node && pkt.body.toAddr == node
    ensures var t := Route(c, s, pkt, now).s;
            && t.buffer == s.buffer
            && (node == Me(c) ==> if c.hasHandler then LastHandled(s, t, pkt.body)
                                  else LastDrop(s, t, NoHandler, pkt.body))
            && (node != Me(c) ==>
                  && (!Reachable(c, s, node) ==> LastDrop(s, t, Unreachable, pkt.body))
                  && (Bound(s) && node != "" ==> (SentToCell(c, s, t, node, pkt.body) <==> Reachable(c, s, node))))
  {
    ParseAddrMeaning(node, "", node);
    NodeVerdict(c, s, pkt, now, node);
    var t := Route(c, s, pkt, now).s;
    if node != Me(c) && Bound(s) && node != "" {
      if Reachable(c, s, node) {
        TakenByNode(c, s, node);
        assert SentOver(c, s, t, TakenBy(c, s, node), pkt.body);
      } else {
        assert t.log[|s.log|] == Dropped(Unreachable, pkt.body);
      }
    }
  }

  // When the application gets a packet, and when nobody knows its cell.
  lemma HandledAndUnknownExactly(c: Config, s: State, pkt: Packet, now: int)
    ensures var t := Route(c, s, pkt, now).s;
            var (cell, node) := ParseAddr(pkt.body.toAddr);
            && (LastHandled(s, t, pkt.body)
                <==> c.hasHandler && if cell.Some? then EndsHere(c, s, cell.value) && !CellTakes(c, s, cell.value)
                                     else node == Me(c))
            && (LastDrop(s, t, UnknownCell, pkt.body)
                <==> cell.Some? && cell.value !in s.presence && cell.value !in s.cells)
  {
    var t := Route(c, s, pkt, now).s;
    var (cell, node) := ParseAddr(pkt.body.toAddr);
    RouteExactly(c, s, pkt, now);
    if LastHandled(s, t, pkt.body) {
      HandledOnly(c, s, t, VerdictOn(c, s, pkt), pkt.body);
    }
    if LastDrop(s, t, UnknownCell, pkt.body) {
      LostOnly(c, s, t, VerdictOn(c, s, pkt), UnknownCell, pkt.body);
    }
    if cell.Some? {
      ToHandlerExactly(c, s, cell.value, pkt.body.id);
    }
  }

  lemma HandledOnly(c: Config, s: State, t: State, v: Verdict, b: Body)
    requires CarriedOut(c, s, t, v, b) && LastHandled(s, t, b)
    ensures v == ToHandler
  {
  }

  lemma LostOnly(c: Config, s: State, t: State, v: Verdict, reason: Reason, b: Body)
    requires CarriedOut(c, s, t, v, b) && LastDrop(s, t, reason, b)
    ensures v == Lost(reason)
  {
    assert t.log[|s.log|] == Dropped(reason, b);
    if v.Lost? {
      assert t.log[|s.log|] == Dropped(v.reason, b);
    }
  }

  lemma ToHandlerExactly(c: Config, s: State, cell: string, id: string)
    ensures ForCell(c, s, cell, id) == ToHandler <==> c.hasHandler && EndsHere(c, s, cell) && !CellTakes(c, s, cell)
    ensures ForCell(c, s, cell, id) == Lost(UnknownCell) <==> cell !in s.presence && cell !in s.cells
  {
  }
}
