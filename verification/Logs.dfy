// What a node has recorded stays recorded, in order; and what one step adds to the record.
module Logs {
  import opened Text
  import opened Protocol
  import opened Machine
  import opened Ledger
  import opened FlushDelivery
  import opened Pushes

  lemma RouteGrows(c: Config, s: State, pkt: Packet, now: int)
    ensures Grows(s.log, Route(c, s, pkt, now).s.log)
  {
    RouteTried(c, s, pkt, now);
  }

  lemma RegisterGrows(c: Config, s: State, payload: Bytes, conn: Conn, now: int, order: seq<string>)
    requires BufferOk(c.lib, s.buffer) && FlushOrder(c, s, payload, conn, now, order)
    ensures Grows(s.log, HandleCellRegister(c, s, payload, conn, now, order).log)
  {
    if ProvenClaim(c, payload, conn).Some? {
      RegistrationDrains(c, s, payload, conn, now, order);
    }
  }

  lemma ControlGrows(c: Config, s: State, pkt: Packet, conn: Conn, now: int)
    ensures Grows(s.log, DispatchControl(c, s, pkt, conn, now).log)
  {
    var s1 := s.(nodes := TableAfter(c.lib, s.nodes, pkt, now));
    var reply := ReplyTo(c, s, pkt, now);
    if pkt.body.kind != NODE_LEAVING && reply.Some? {
      SendGrows(c, s1, conn, reply.value);
    }
  }

  lemma DispatchGrows(c: Config, s: State, pkt: Packet, conn: Conn, now: int, order: seq<string>)
    requires BufferOk(c.lib, s.buffer)
    requires pkt.body.kind == CELL_REGISTER ==> FlushOrder(c, s, pkt.body.payload, conn, now, order)
    ensures Grows(s.log, Dispatch(c, s, pkt, conn, now, order).log)
  {
    if pkt.body.kind == MSG {
      RouteGrows(c, s, pkt, now);
    } else if pkt.body.kind == CELL_REGISTER {
      RegisterGrows(c, s, pkt.body.payload, conn, now, order);
    } else {
      ControlGrows(c, s, pkt, conn, now);
    }
  }

  lemma ReceiveGrows(c: Config, s: State, raw: Bytes, conn: Conn, now: int, order: seq<string>)
    requires BufferOk(c.lib, s.buffer) && ReceiveOrder(c, s, raw, conn, now, order)
    ensures Grows(s.log, Receive(c, s, raw, conn, now, order).log)
  {
    var p := Genuine(c, raw, conn);
    if p.Some? {
      DispatchGrows(c, s, p.value, conn, now, order);
    }
  }

  lemma RoundGrows(c: Config, s: State, ids: seq<string>, peers: seq<string>, listing: seq<string>, now: int)
    requires RoundOrders(c, s, ids, peers, listing, now)
    ensures Grows(s.log, Round(c, s, ids, peers, listing, now).log)
  {
    var pinged, cleaned := PingAll(c, s, ids, now), BeforeExchange(c, s, ids, now);
    PingAllPushless(c, s, ids, now);
    CleanupGrows(pinged, now);
    GrowsThen(s.log, pinged.log, cleaned.log);
    ExchangePushes(c, cleaned, peers, listing, now);
    GrowsOn(s.log, cleaned.log, Round(c, s, ids, peers, listing, now).log);
  }

  lemma GrowsOn(a: seq<Fate>, b: seq<Fate>, d: seq<Fate>)
    requires Grows(a, b) && Grows(b, d)
    ensures Grows(a, d)
  {
    assert d[..|a|] == d[..|b|][..|a|];
  }

  lemma StepGrows(c: Config, s: State, e: Event)
    requires BufferOk(c.lib, s.buffer) && Enabled(c, s, e)
    ensures Grows(s.log, Step(c, s, e).log)
  {
    if Bystander(e) {
      BystanderAccount(c, s, e);
    } else {
      match e
      case Received(conn, raw, now, order) => ReceiveGrows(c, s, raw, conn, now, order);
      case Submitted(pkt, now) => RouteGrows(c, s, pkt, now);
      case Gossiped(ids, peers, listing, now) => RoundGrows(c, s, ids, peers, listing, now);
    }
  }

  // In every run, from any moment to any later one, the log only grows at its end.
  lemma {:induction false} LogOnlyGrows(c: Config, states: seq<State>, events: seq<Event>, i: nat)
    requires c.lib.CodecLaw() && IsRun(c, states, events) && BufferOk(c.lib, states[0].buffer)
    requires i <= |events|
    ensures Grows(states[i].log, states[|events|].log)
    decreases |events|
  {
    var n := |events| - 1;
    if i <= n {
      LogOnlyGrows(c, states[..n + 1], events[..n], i);
      Conservation(c, states[..n + 1], events[..n], Body("", MSG, "", "", [], 0));
      StepGrows(c, states[n], events[n]);
      GrowsOn(states[i].log, states[n].log, states[n + 1].log);
    }
  }
}
