// Nobody is made up: every id that a node of the network knows was known to one of them at the
// start, or a genesis, a join or a stranger's gossip brought it in.
module NetworkSources {
  import opened Text
  import opened Primitives
  import opened Protocol
  import opened Tables
  import opened Merge
  import opened Machine
  import opened Ledger
  import opened FlushDelivery
  import opened Pushes
  import opened Hops
  import opened Network
  import opened NetworkGossip
  import L = Liveness

  // --- what one event brings ---

  /** The ids this history puts into a table. */
  ghost function Entries(e: L.TableEvent): set<string> {
    match e
    case Introduced(id, _, _, _) => {id}
    case Told(heard, _) => HeardIds(heard)
    case _ => {}
  }

  ghost predicate AllFrom(h: seq<L.TableEvent>, ids: set<string>) {
    forall k :: 0 <= k < |h| ==> Entries(h[k]) <= ids
  }

  lemma {:induction false} HistoryKeys(t: NodeTable, h: seq<L.TableEvent>, ids: set<string>)
    requires AllFrom(h, ids)
    ensures L.AfterAll(t, h).Keys <= t.Keys + ids
  {
    if h != [] {
      var n := |h| - 1;
      HistoryKeys(t, h[..n], ids);
      assert Entries(h[n]) <= ids;
    }
  }

  lemma {:induction false} PingsBringNobody(c: Config, s: State, ids: seq<string>, now: int)
    ensures AllFrom(H.PingEvents(c, s, ids, now), {})
    decreases |ids|
  {
    if ids != [] {
      if ids[0] == Me(c) {
        PingsBringNobody(c, s, ids[1..], now);
      } else {
        PingsBringNobody(c, PingNode(c, s, ids[0], now), ids[1..], now);
      }
    }
  }

  /** The ids an event can bring into the node's table. */
  ghost function Brought(c: Config, e: Event): set<string> {
    match e
    case Created(_, _, _) => {Me(c)}
    case Joined(_, reply, _) =>
      (match Authenticate(c, reply, None)
       case Some(conn) => {conn.peerNodeId}
       case None => {})
    case Received(conn, raw, _, _) =>
      (match Genuine(c, raw, conn)
       case Some(p) => Said(c.lib, p)
       case None => {})
    case _ => {}
  }

  /** The ids a packet tells of. */
  ghost function Said(lib: Library, p: Packet): set<string> {
    if p.body.kind == GOSSIP then HeardIds(AllHeard(DecodeGossip(lib, p.body.payload))) else {}
  }

  lemma HistoryFrom(c: Config, s: State, e: Event)
    ensures AllFrom(H.EventHistory(c, s, e), Brought(c, e))
  {
    match e
    case Gossiped(ids, _, _, now) => PingsBringNobody(c, s, ids, now);
    case Received(conn, raw, now, _) =>
      var p := Genuine(c, raw, conn);
      if p.Some? {
        PacketFrom(c, s.nodes, p.value, now);
      }
    case _ =>
  }

  lemma PacketFrom(c: Config, t: NodeTable, pkt: Packet, now: int)
    ensures AllFrom(H.PacketHistory(c, t, pkt, now), Said(c.lib, pkt))
  {
    if pkt.body.kind == GOSSIP {
      HeededIds(t.Keys, DecodeGossip(c.lib, pkt.body.payload));
    }
  }

  lemma StepBrings(c: Config, s: State, e: Event)
    requires BufferOk(c.lib, s.buffer) && Enabled(c, s, e)
    ensures Step(c, s, e).nodes.Keys <= s.nodes.Keys + Brought(c, e)
  {
    H.StepWrites(c, s, e);
    HistoryFrom(c, s, e);
    HistoryKeys(s.nodes, H.EventHistory(c, s, e), Brought(c, e));
  }

  // --- only rounds push ---

  lemma RoutePushless(c: Config, s: State, pkt: Packet, now: int)
    requires pkt.body.kind == MSG
    ensures Pushless(Route(c, s, pkt, now).s.log, |s.log|)
  {
    RouteTried(c, s, pkt, now);
    SettledPushless(c, s, Route(c, s, pkt, now).s, pkt.body);
  }

  lemma SettledPushless(c: Config, s: State, t: State, b: Body)
    requires b.kind == MSG && (Settled(c, s, t, b) || t.log == s.log)
    ensures Pushless(t.log, |s.log|)
  {
  }

  lemma FlushPushless(c: Config, s: State, t: State, cell: string, order: seq<string>)
    requires BufferOk(c.lib, s.buffer)
    requires forall id :: id in order ==> id in s.buffer && Unpack(c.lib, s.buffer[id].payload).Some?
    requires FlushLog(c, s, t, s.buffer, order, cell)
    ensures Pushless(t.log, |s.log|)
  {
    forall i | |s.log| <= i < |t.log|
      ensures !(t.log[i].Sent? && t.log[i].pkt.body.kind == GOSSIP)
    {
      RowPushless(c, s, t, cell, order, i - |s.log|);
    }
  }

  lemma RowPushless(c: Config, s: State, t: State, cell: string, order: seq<string>, k: nat)
    requires BufferOk(c.lib, s.buffer)
    requires forall id :: id in order ==> id in s.buffer && Unpack(c.lib, s.buffer[id].payload).Some?
    requires FlushLog(c, s, t, s.buffer, order, cell) && k < |order|
    ensures var f := t.log[|s.log| + k]; f.Sent? ==> f.pkt.body.kind == MSG
  {
    assert RowFate(c, s, Connection(s, cell), s.buffer[order[k]], k, t.log[|s.log| + k]);
    assert RowOk(c.lib, order[k], s.buffer[order[k]]);
  }

  lemma RegisterPushless(c: Config, s: State, payload: Bytes, conn: Conn, now: int, order: seq<string>)
    requires BufferOk(c.lib, s.buffer) && FlushOrder(c, s, payload, conn, now, order)
    ensures Pushless(HandleCellRegister(c, s, payload, conn, now, order).log, |s.log|)
  {
    if ProvenClaim(c, payload, conn).Some? {
      RegistrationDrains(c, s, payload, conn, now, order);
      FlushPushless(c, s, HandleCellRegister(c, s, payload, conn, now, order), conn.peerNodeId, order);
    }
  }

  lemma ControlPushless(c: Config, s: State, pkt: Packet, conn: Conn, now: int)
    ensures Pushless(DispatchControl(c, s, pkt, conn, now).log, |s.log|)
  {
    var s1 := s.(nodes := TableAfter(c.lib, s.nodes, pkt, now));
    var reply := ReplyTo(c, s, pkt, now);
    if pkt.body.kind != NODE_LEAVING && reply.Some? {
      SendGrows(c, s1, conn, reply.value);
    }
  }

  lemma DispatchPushless(c: Config, s: State, pkt: Packet, conn: Conn, now: int, order: seq<string>)
    requires BufferOk(c.lib, s.buffer)
    requires pkt.body.kind == CELL_REGISTER ==> FlushOrder(c, s, pkt.body.payload, conn, now, order)
    ensures Pushless(Dispatch(c, s, pkt, conn, now, order).log, |s.log|)
  {
    if pkt.body.kind == MSG {
      RoutePushless(c, s, pkt, now);
    } else if pkt.body.kind == CELL_REGISTER {
      RegisterPushless(c, s, pkt.body.payload, conn, now, order);
    } else {
      ControlPushless(c, s, pkt, conn, now);
    }
  }

  lemma ReceivePushless(c: Config, s: State, raw: Bytes, conn: Conn, now: int, order: seq<string>)
    requires BufferOk(c.lib, s.buffer) && ReceiveOrder(c, s, raw, conn, now, order)
    ensures Pushless(Receive(c, s, raw, conn, now, order).log, |s.log|)
  {
    var p := Genuine(c, raw, conn);
    if p.Some? {
      DispatchPushless(c, s, p.value, conn, now, order);
    }
  }

  lemma StepPushless(c: Config, s: State, e: Event)
    requires BufferOk(c.lib, s.buffer) && Enabled(c, s, e) && !e.Gossiped?
    ensures Pushless(Step(c, s, e).log, |s.log|)
  {
    if Bystander(e) {
      BystanderAccount(c, s, e);
    } else {
      match e
      case Received(conn, raw, now, order) => ReceivePushless(c, s, raw, conn, now, order);
      case Submitted(pkt, now) => RoutePushless(c, s, pkt, now);
    }
  }

  // --- what a push can say ---

  lemma {:induction false} HeardOfListed(t: NodeTable, ids: seq<string>)
    requires forall id :: id in ids ==> id in t
    ensures HeardIds(HeardOf(t, ids)) <= t.Keys
  {
    if ids != [] {
      HeardOfListed(t, ids[1..]);
      var heard, rest := HeardOf(t, ids), HeardOf(t, ids[1..]);
      assert heard == [heard[0]] + rest && heard[0].nodeId == ids[0];
      PrependIds(heard[0], rest);
    }
  }

  lemma SnapshotSays(w: World, lib: Library, l: Letter, listing: seq<string>)
    requires lib.CodecLaw() && Snapshot(w, lib, l, listing)
    ensures Said(lib, Content(w, l).pkt) <= w[l.from].s.nodes.Keys
  {
    GossipRoundTrip(lib, w[l.from].s.nodes, listing);
    HeardOfListed(w[l.from].s.nodes, listing);
  }

  // --- one move ---

  /** Every id that is known, or that a letter under way tells of, is one of these. */
  ghost predicate Within(n: Net, lib: Library, ids: set<string>) {
    && (forall at :: at in n.w ==> Known(n, at) <= ids)
    && (forall l :: l in n.air ==> Aloft(n.w, l) && Said(lib, Content(n.w, l).pkt) <= ids)
  }

  lemma NodeStepWithin(n: Net, lib: Library, at: string, e: Event, gone: set<Letter>, ids: set<string>)
    requires Sane(n, lib) && at in n.w && Enabled(n.w[at].c, n.w[at].s, e)
    requires Within(n, lib, ids) && Brought(n.w[at].c, e) <= ids
    ensures Within(NodeStep(n, at, e, gone), lib, ids)
  {
    var n1 := NodeStep(n, at, e, gone);
    NodeStepSane(n, lib, at, e, gone);
    assert HonestHost(n.w[at], lib, at);
    StepBrings(n.w[at].c, n.w[at].s, e);
    forall l | l in n1.air
      ensures Aloft(n1.w, l) && Said(lib, Content(n1.w, l).pkt) <= ids
    {
      LetterWithin(n, lib, at, e, gone, n1, l, ids);
    }
  }

  lemma LetterWithin(n: Net, lib: Library, at: string, e: Event, gone: set<Letter>, n1: Net, l: Letter, ids: set<string>)
    requires Sane(n, lib) && at in n.w && Enabled(n.w[at].c, n.w[at].s, e) && n1 == NodeStep(n, at, e, gone)
    requires Within(n, lib, ids) && l in n1.air && Aloft(n1.w, l) && Known(n1, at) <= ids
    requires Grows(n.w[at].s.log, n1.w[at].s.log)
    ensures Said(lib, Content(n1.w, l).pkt) <= ids
  {
    if l in n.air {
      GrownAloft(n.w, at, n1.w[at], l);
    } else if e.Gossiped? {
      NewPushWithin(n, lib, at, e, gone, n1, l, ids);
    } else {
      assert HonestHost(n.w[at], lib, at);
      StepPushless(n.w[at].c, n.w[at].s, e);
    }
  }

  lemma NewPushWithin(n: Net, lib: Library, at: string, e: Event, gone: set<Letter>, n1: Net, l: Letter, ids: set<string>)
    requires Sane(n, lib) && at in n.w && Enabled(n.w[at].c, n.w[at].s, e) && n1 == NodeStep(n, at, e, gone)
    requires e.Gossiped? && l in n1.air && l !in n.air && Aloft(n1.w, l) && Known(n1, at) <= ids
    ensures Said(lib, Content(n1.w, l).pkt) <= ids
  {
    if IsPush(n1.w, l) {
      var n2 := NodeStep(n, at, e, {});
      assert n2.w == n1.w;
      RoundPushesTable(n, lib, at, e, n2);
      var listing :| Snapshot(n2.w, lib, l, listing);
      SnapshotSays(n2.w, lib, l, listing);
    }
  }

  /** The ids a move brings into the network from outside. */
  ghost function BroughtBy(n: Net, m: Move): set<string> {
    if m.Acts? && m.at in n.w then Brought(n.w[m.at].c, m.e) else {}
  }

  lemma ArrivalBrings(n: Net, lib: Library, l: Letter, now: int, order: seq<string>)
    requires Sane(n, lib) && l in n.air
    ensures Goal(n.w, l) in n.w
    ensures Brought(n.w[Goal(n.w, l)].c, ArrivalOf(n, l, now, order)) == Said(lib, Content(n.w, l).pkt)
  {
    var to, pkt, sender := Goal(n.w, l), Content(n.w, l).pkt, n.w[l.from].c;
    assert HonestHost(n.w[l.from], lib, l.from) && HonestHost(n.w[to], lib, to);
    HopAccepted(lib, pkt, sender.who.signKey);
    assert Genuine(n.w[to].c, Pack(lib, pkt), ConnTo(sender)) == Some(pkt);
  }

  lemma MoveWithin(n: Net, lib: Library, m: Move, ids: set<string>)
    requires Sane(n, lib) && CanMove(n, m) && Within(n, lib, ids) && BroughtBy(n, m) <= ids
    ensures Within(Apply(n, m), lib, ids)
  {
    match m
    case Acts(at, e) => NodeStepWithin(n, lib, at, e, {}, ids);
    case Arrives(l, now, order) =>
      ArrivalBrings(n, lib, l, now, order);
      NodeStepWithin(n, lib, Goal(n.w, l), ArrivalOf(n, l, now, order), {l}, ids);
    case IsLost(_) =>
  }

  // --- runs ---

  ghost predicate BringsOnly(nets: seq<Net>, moves: seq<Move>, ids: set<string>)
    requires |nets| == |moves| + 1
  {
    forall i :: 0 <= i < |moves| ==> BroughtBy(nets[i], moves[i]) <= ids
  }

  lemma StepWithin(nets: seq<Net>, moves: seq<Move>, lib: Library, ids: set<string>, i: nat)
    requires IsNetRun(nets, moves) && Sane(nets[0], lib) && i < |moves|
    requires Within(nets[i], lib, ids) && BroughtBy(nets[i], moves[i]) <= ids
    ensures Within(nets[i + 1], lib, ids)
  {
    SaneRun(nets, moves, lib, i);
    assert StepOf(nets, moves, i);
    MoveWithin(nets[i], lib, moves[i], ids);
  }

  // In every run: whatever set of ids holds all that is known, or told of by a letter under way,
  // at the start, and all that geneses, joins and gossip from outside bring in, holds all that
  // any node knows at any moment and all that any letter under way tells of.
  lemma {:induction false} NobodyMadeUp(nets: seq<Net>, moves: seq<Move>, lib: Library, ids: set<string>, i: nat)
    requires IsNetRun(nets, moves) && Sane(nets[0], lib) && i <= |moves|
    requires Within(nets[0], lib, ids) && BringsOnly(nets, moves, ids)
    ensures Within(nets[i], lib, ids)
  {
    if i > 0 {
      NobodyMadeUp(nets, moves, lib, ids, i - 1);
      StepWithin(nets, moves, lib, ids, i - 1);
    }
  }
}
