// The history that a run of the node machine writes into the node table.
module NodeHistory {
  import opened Text
  import opened Protocol
  import opened Tables
  import opened Auth
  import opened Merge
  import opened Machine
  import opened Ledger
  import opened Fates
  import opened Liveness

  lemma {:induction false} AfterAllConcat(t: NodeTable, a: seq<TableEvent>, b: seq<TableEvent>)
    ensures AfterAll(t, a + b) == AfterAll(AfterAll(t, a), b)
  {
    if b == [] {
      assert a + b == a;
    } else {
      var n := |b| - 1;
      assert (a + b)[..|a + b| - 1] == a + b[..n];
      AfterAllConcat(t, a, b[..n]);
    }
  }

  lemma AfterOne(t: NodeTable, e: TableEvent)
    ensures AfterAll(t, [e]) == After(t, e)
  {
    assert [e][..0] == [];
  }

  /** The outcomes of the pings of a round. */
  ghost function PingEvents(c: Config, s: State, ids: seq<string>, now: int): seq<TableEvent>
    decreases |ids|
  {
    if ids == [] then []
    else if ids[0] == Me(c) then PingEvents(c, s, ids[1..], now)
    else [Pinged(ids[0], ProbeNode(c, s, ids[0], now).1, now)]
         + PingEvents(c, PingNode(c, s, ids[0], now), ids[1..], now)
  }

  lemma {:induction false} PingAllHistory(c: Config, s: State, ids: seq<string>, now: int)
    ensures PingAll(c, s, ids, now).nodes == AfterAll(s.nodes, PingEvents(c, s, ids, now))
    decreases |ids|
  {
    if ids != [] {
      if ids[0] == Me(c) {
        PingAllHistory(c, s, ids[1..], now);
      } else {
        var s1 := PingNode(c, s, ids[0], now);
        var e := Pinged(ids[0], ProbeNode(c, s, ids[0], now).1, now);
        PingHistory(c, s, ids[0], now);
        PingAllHistory(c, s1, ids[1..], now);
        AfterOne(s.nodes, e);
        AfterAllConcat(s.nodes, [e], PingEvents(c, s1, ids[1..], now));
      }
    }
  }

  lemma PingHistory(c: Config, s: State, id: string, now: int)
    ensures PingNode(c, s, id, now).nodes == After(s.nodes, Pinged(id, ProbeNode(c, s, id, now).1, now))
  {
    ProbeKeepsNodes(c, s, id, now);
  }

  lemma ProbeKeepsNodes(c: Config, s: State, id: string, now: int)
    ensures ProbeNode(c, s, id, now).0.nodes == s.nodes
  {
    var (s1, conn) := if id in s.conns then (s, Some(s.conns[id])) else ConnectToNode(c, s, id);
    ConnectSettlesNothing(c, s, id);
    if conn.Some? {
      SendKeepsNodes(c, s1, conn.value, MakePing(c, Uuid(c, s1), id, now));
    }
  }

  // --- what a ping's verdict rests on ---

  /** The ping goes through: over the connection there is, or over one that can be opened. */
  predicate PingSucceeds(c: Config, s: State, id: string) {
    if id in s.conns then c.luck(s.tick).delivered
    else Dials(c, s.tick, id) && c.luck(s.tick + 1).delivered
  }

  /** The connection a ping goes over. */
  function PingConn(c: Config, s: State, id: string): Conn
    requires PingSucceeds(c, s, id)
  {
    if id in s.conns then s.conns[id] else Authenticate(c, c.luck(s.tick).reached.value, Some(id)).value
  }

  /** The packet that asks a node whether it is alive. */
  predicate IsPing(c: Config, p: Packet, to: string, now: int) {
    && p.body.kind == "ping" && p.body.fromAddr == Me(c) && p.body.toAddr == to
    && p.body.payload == [] && p.body.ts == now && p.v == PROTO_VERSION
    && p == Signed(c.lib, p, c.who.signKey)
  }

  /** The row after a ping that went through, or did not. */
  function PingedRow(r: NodeRow, ok: bool, now: int): NodeRow {
    if ok then r.(lastSeen := now, missedPings := 0, status := "online")
    else r.(missedPings := r.missedPings + 1, status := if r.missedPings >= 2 then "offline" else r.status)
  }

  // A ping, from the outside: a node that takes it is alive as of now, with no misses; any
  // other has one miss more, and is offline from the third. Nobody else's row changes, and
  // what leaves is one ping to that node, or nothing.
  lemma PingMeaning(c: Config, s: State, id: string, now: int)
    ensures var t, ok := PingNode(c, s, id, now), PingSucceeds(c, s, id);
            && t.nodes.Keys == s.nodes.Keys
            && (forall x :: x in s.nodes && x != id ==> t.nodes[x] == s.nodes[x])
            && (id in s.nodes ==> t.nodes[id] == PingedRow(s.nodes[id], ok, now))
            && (if ok then exists q: Packet :: IsPing(c, q, id, now) && t.log == s.log + [Sent(PingConn(c, s, id), q)]
                else t.log == s.log)
  {
    ProbeMeaning(c, s, id, now);
    ProbeKeepsNodes(c, s, id, now);
  }

  lemma ProbeMeaning(c: Config, s: State, id: string, now: int)
    ensures var (t, ok) := ProbeNode(c, s, id, now);
            && (ok <==> PingSucceeds(c, s, id))
            && (if ok then exists q: Packet :: IsPing(c, q, id, now) && t.log == s.log + [Sent(PingConn(c, s, id), q)]
                else t.log == s.log)
  {
    if id in s.conns {
      PingSent(c, s, s.conns[id], id, now);
    } else {
      ConnectExact(c, s, id);
      var (s1, conn) := ConnectToNode(c, s, id);
      if conn.Some? {
        PingSent(c, s1, conn.value, id, now);
      }
    }
  }

  lemma PingSent(c: Config, s: State, conn: Conn, id: string, now: int)
    ensures var a := SendVia(c, s, conn, MakePing(c, Uuid(c, s), id, now));
            && (a.ok <==> c.luck(s.tick).delivered)
            && (if a.ok then exists q: Packet :: IsPing(c, q, id, now) && a.s.log == s.log + [Sent(conn, q)]
                else a.s.log == s.log)
  {
    assert IsPing(c, Signed(c.lib, MakePing(c, Uuid(c, s), id, now), c.who.signKey), id, now);
  }

  /** What a verified packet writes. */
  ghost function PacketHistory(c: Config, t: NodeTable, pkt: Packet, now: int): seq<TableEvent> {
    var kind, payload, from := pkt.body.kind, pkt.body.payload, pkt.body.fromAddr;
    if kind == PONG then [Pinged(from, true, now)]
    else if kind == GOSSIP then [Told(Heeded(t.Keys, DecodeGossip(c.lib, payload)), now)]
    else if kind == NODE_LEAVING then [Removed(from, now)]
    else if kind == NODE_REMOVE then
      match StrField(c.lib.unpack(payload), "node_id")
      case Some(id) => [Removed(id, now)]
      case None => []
    else []
  }

  ghost function EventHistory(c: Config, s: State, e: Event): seq<TableEvent> {
    match e
    case Received(conn, raw, now, _) =>
      (match Genuine(c, raw, conn)
       case Some(p) => PacketHistory(c, s.nodes, p, now)
       case None => [])
    case Gossiped(ids, _, _, now) => PingEvents(c, s, ids, now) + [Cleaned(now)]
    case Created(address, access, now) => [Introduced(Me(c), address, access, now)]
    case Joined(address, reply, now) =>
      if ':' !in address then []
      else
        (match Authenticate(c, reply, None)
         case Some(conn) => [Introduced(conn.peerNodeId, address, "open", now)]
         case None => [])
    case _ => []
  }

  lemma PacketWrites(c: Config, s: State, pkt: Packet, conn: Conn, now: int)
    requires pkt.body.kind != MSG && pkt.body.kind != CELL_REGISTER
    ensures DispatchControl(c, s, pkt, conn, now).nodes == AfterAll(s.nodes, PacketHistory(c, s.nodes, pkt, now))
  {
    var h := PacketHistory(c, s.nodes, pkt, now);
    if h != [] {
      AfterOne(s.nodes, h[0]);
      assert h == [h[0]];
    }
    ControlNodes(c, s, pkt, conn, now);
  }

  lemma ControlNodes(c: Config, s: State, pkt: Packet, conn: Conn, now: int)
    ensures DispatchControl(c, s, pkt, conn, now).nodes == TableAfter(c.lib, s.nodes, pkt, now)
  {
    var t := TableAfter(c.lib, s.nodes, pkt, now);
    var s1 := s.(nodes := t);
    var reply := ReplyTo(c, s, pkt, now);
    if pkt.body.kind != NODE_LEAVING && reply.Some? {
      SendKeepsNodes(c, s1, conn, reply.value);
    }
  }

  lemma SendKeepsNodes(c: Config, s: State, conn: Conn, pkt: Packet)
    ensures SendVia(c, s, conn, pkt).s.nodes == s.nodes
  {
  }

  lemma RegistrationNodes(c: Config, s: State, payload: Bytes, conn: Conn, now: int, order: seq<string>)
    requires BufferOk(c.lib, s.buffer) && FlushOrder(c, s, payload, conn, now, order)
    ensures HandleCellRegister(c, s, payload, conn, now, order).nodes == s.nodes
  {
    match ProvenClaim(c, payload, conn)
    case None =>
    case Some(cl) =>
      FlushAccount(c, RegisterClaim(c, s, cl, now), s.buffer, order, now, cl.cellId, Body("", "", "", "", [], 0));
  }

  lemma ReceiveWrites(c: Config, s: State, raw: Bytes, conn: Conn, now: int, order: seq<string>)
    requires BufferOk(c.lib, s.buffer) && ReceiveOrder(c, s, raw, conn, now, order)
    ensures Receive(c, s, raw, conn, now, order).nodes
         == AfterAll(s.nodes, EventHistory(c, s, Received(conn, raw, now, order)))
  {
    var p := Genuine(c, raw, conn);
    if p.Some? {
      DispatchWrites(c, s, p.value, conn, now, order);
    }
  }

  lemma DispatchWrites(c: Config, s: State, pkt: Packet, conn: Conn, now: int, order: seq<string>)
    requires BufferOk(c.lib, s.buffer)
    requires pkt.body.kind == CELL_REGISTER ==> FlushOrder(c, s, pkt.body.payload, conn, now, order)
    ensures Dispatch(c, s, pkt, conn, now, order).nodes == AfterAll(s.nodes, PacketHistory(c, s.nodes, pkt, now))
  {
    if pkt.body.kind == MSG {
      RouteTried(c, s, pkt, now);
    } else if pkt.body.kind == CELL_REGISTER {
      RegistrationNodes(c, s, pkt.body.payload, conn, now, order);
    } else {
      PacketWrites(c, s, pkt, conn, now);
    }
  }

  lemma RoundWrites(c: Config, s: State, ids: seq<string>, peers: seq<string>, listing: seq<string>, now: int)
    requires RoundOrders(c, s, ids, peers, listing, now)
    ensures Round(c, s, ids, peers, listing, now).nodes == AfterAll(s.nodes, PingEvents(c, s, ids, now) + [Cleaned(now)])
  {
    PingAllHistory(c, s, ids, now);
    var pings := PingEvents(c, s, ids, now);
    AfterAllConcat(s.nodes, pings, [Cleaned(now)]);
    AfterOne(AfterAll(s.nodes, pings), Cleaned(now));
  }

  lemma BystanderWrites(c: Config, s: State, e: Event)
    requires Bystander(e)
    ensures Step(c, s, e).nodes == AfterAll(s.nodes, EventHistory(c, s, e))
  {
    var h := EventHistory(c, s, e);
    if h != [] {
      AfterOne(s.nodes, h[0]);
      assert h == [h[0]];
    }
  }

  lemma StepWrites(c: Config, s: State, e: Event)
    requires BufferOk(c.lib, s.buffer) && Enabled(c, s, e)
    ensures Step(c, s, e).nodes == AfterAll(s.nodes, EventHistory(c, s, e))
  {
    if Bystander(e) {
      BystanderWrites(c, s, e);
    } else {
      match e
      case Received(conn, raw, now, order) => ReceiveWrites(c, s, raw, conn, now, order);
      case Submitted(pkt, now) => RouteTried(c, s, pkt, now);
      case Gossiped(ids, peers, listing, now) => RoundWrites(c, s, ids, peers, listing, now);
    }
  }

  ghost function RunHistory(c: Config, states: seq<State>, events: seq<Event>): seq<TableEvent>
    requires |states| == |events| + 1
  {
    if events == [] then []
    else
      var n := |events| - 1;
      RunHistory(c, states[..n + 1], events[..n]) + EventHistory(c, states[n], events[n])
  }

  // The node table of a run is the table of its history; so every row refines it.
  lemma {:induction false} RunWritesHistory(c: Config, states: seq<State>, events: seq<Event>)
    requires c.lib.CodecLaw() && IsRun(c, states, events) && BufferOk(c.lib, states[0].buffer)
    ensures states[|events|].nodes == AfterAll(states[0].nodes, RunHistory(c, states, events))
    decreases |events|
  {
    var n := |events| - 1;
    if n >= 0 {
      RunWritesHistory(c, states[..n + 1], events[..n]);
      Conservation(c, states[..n + 1], events[..n], Body("", MSG, "", "", [], 0));
      StepWrites(c, states[n], events[n]);
      AfterAllConcat(states[0].nodes, RunHistory(c, states[..n + 1], events[..n]), EventHistory(c, states[n], events[n]));
    }
  }

  lemma RunRowsRefine(c: Config, states: seq<State>, events: seq<Event>, x: string) returns (birth: nat, last: nat)
    requires c.lib.CodecLaw() && IsRun(c, states, events) && BufferOk(c.lib, states[0].buffer)
    requires states[0].nodes == map[] && x in states[|events|].nodes
    ensures Table(RunHistory(c, states, events)) == states[|events|].nodes
    ensures Refines(RunHistory(c, states, events), x, birth, last)
  {
    RunWritesHistory(c, states, events);
    birth, last := RowRefinesHistory(RunHistory(c, states, events), x);
  }

  // --- the node's own row ---

  ghost predicate NoFailureOf(h: seq<TableEvent>, x: string) {
    forall k :: 0 <= k < |h| ==> !Fails(h[k], x)
  }

  lemma {:induction false} PingsSkipSelf(c: Config, s: State, ids: seq<string>, now: int)
    ensures NoFailureOf(PingEvents(c, s, ids, now), Me(c))
    decreases |ids|
  {
    if ids != [] {
      if ids[0] == Me(c) {
        PingsSkipSelf(c, s, ids[1..], now);
      } else {
        PingsSkipSelf(c, PingNode(c, s, ids[0], now), ids[1..], now);
      }
    }
  }

  lemma {:induction false} RunNeverFailsSelf(c: Config, states: seq<State>, events: seq<Event>)
    requires |states| == |events| + 1
    ensures NoFailureOf(RunHistory(c, states, events), Me(c))
    decreases |events|
  {
    var n := |events| - 1;
    if n >= 0 {
      RunNeverFailsSelf(c, states[..n + 1], events[..n]);
      EventNeverFailsSelf(c, states[n], events[n]);
    }
  }

  lemma EventNeverFailsSelf(c: Config, s: State, e: Event)
    ensures NoFailureOf(EventHistory(c, s, e), Me(c))
  {
    if e.Gossiped? {
      PingsSkipSelf(c, s, e.ids, e.now);
    }
  }

  // In every run of the node, whatever its peers do, its own row - if there is one - is
  // online with no misses, and no cleanup takes it.
  lemma OwnRowInRuns(c: Config, states: seq<State>, events: seq<Event>, now: int)
    requires c.lib.CodecLaw() && IsRun(c, states, events) && BufferOk(c.lib, states[0].buffer)
    requires states[0].nodes == map[] && Me(c) in states[|events|].nodes
    ensures var t := states[|events|].nodes;
            t[Me(c)].status == ONLINE && t[Me(c)].missedPings == 0 && Me(c) in CleanupNodes(t, now)
  {
    RunWritesHistory(c, states, events);
    RunNeverFailsSelf(c, states, events);
    OwnRowNeverAges(RunHistory(c, states, events), Me(c), now);
  }

  // --- rounds probe everyone once ---

  /** The events that concern x are exactly one ping. */
  ghost predicate ProbedOnce(h: seq<TableEvent>, x: string) {
    exists k :: OnlyAt(h, x, k)
  }

  ghost predicate AllPings(h: seq<TableEvent>, ids: seq<string>) {
    forall k :: 0 <= k < |h| ==> h[k].Pinged? && h[k].id in ids
  }

  ghost predicate OnlyAt(h: seq<TableEvent>, x: string, k: nat) {
    k < |h| && h[k].Pinged? && h[k].id == x && forall j :: 0 <= j < |h| && j != k ==> !Mentions(h[j], x)
  }

  lemma FirstOnly(e: TableEvent, rest: seq<TableEvent>, ids: seq<string>, x: string)
    requires e.Pinged? && e.id == x && AllPings(rest, ids) && x !in ids
    ensures OnlyAt([e] + rest, x, 0)
  {
    forall j | 0 <= j < |[e] + rest| && j != 0
      ensures !Mentions(([e] + rest)[j], x)
    {
      assert ([e] + rest)[j] == rest[j - 1];
    }
  }

  lemma LaterOnly(e: TableEvent, rest: seq<TableEvent>, x: string, k: nat)
    requires e.Pinged? && e.id != x && OnlyAt(rest, x, k)
    ensures OnlyAt([e] + rest, x, k + 1)
  {
    forall j | 0 <= j < |[e] + rest| && j != k + 1
      ensures !Mentions(([e] + rest)[j], x)
    {
      if j > 0 {
        assert ([e] + rest)[j] == rest[j - 1];
      }
    }
  }

  lemma OneMore(e: TableEvent, rest: seq<TableEvent>, ids: seq<string>, x: string)
    requires ids != [] && e.Pinged? && e.id == ids[0] && AllPings(rest, ids[1..])
    ensures AllPings([e] + rest, ids)
    ensures x == ids[0] && x !in ids[1..] ==> ProbedOnce([e] + rest, x)
    ensures x != ids[0] && ProbedOnce(rest, x) ==> ProbedOnce([e] + rest, x)
  {
    if x == ids[0] && x !in ids[1..] {
      FirstOnly(e, rest, ids[1..], x);
    }
    if x != ids[0] && ProbedOnce(rest, x) {
      var k :| OnlyAt(rest, x, k);
      LaterOnly(e, rest, x, k);
    }
  }

  lemma {:induction false} PingsAreProbes(c: Config, s: State, ids: seq<string>, now: int, x: string)
    requires forall i, j :: 0 <= i < j < |ids| ==> ids[i] != ids[j]
    ensures AllPings(PingEvents(c, s, ids, now), ids)
    ensures x in ids && x != Me(c) ==> ProbedOnce(PingEvents(c, s, ids, now), x)
    decreases |ids|
  {
    if ids != [] {
      if ids[0] == Me(c) {
        PingsAreProbes(c, s, ids[1..], now, x);
      } else {
        var s1 := PingNode(c, s, ids[0], now);
        PingsAreProbes(c, s1, ids[1..], now, x);
        OneMore(Pinged(ids[0], ProbeNode(c, s, ids[0], now).1, now), PingEvents(c, s1, ids[1..], now), ids, x);
      }
    }
  }

  lemma {:induction false} OneFailure(h: seq<TableEvent>, x: string)
    requires ProbedOnce(h, x)
    requires forall k :: 0 <= k < |h| ==> h[k].Pinged? && (Mentions(h[k], x) ==> Fails(h[k], x))
    ensures InVain(h, x) && FailCount(h, 0, x) == 1
  {
    var n := |h| - 1;
    var k :| OnlyAt(h, x, k);
    if k == n {
      NoFailures(h[..n], 0, x);
    } else {
      assert OnlyAt(h[..n], x, k);
      OneFailure(h[..n], x);
    }
  }

  /** Whatever concerns x is a failure. */
  ghost predicate Unanswered(h: seq<TableEvent>, x: string) {
    forall k :: 0 <= k < |h| ==> (Mentions(h[k], x) ==> Fails(h[k], x))
  }

  /** When it is x's turn in a round over ids, its ping does not go through. */
  ghost predicate AttemptFails(c: Config, s: State, ids: seq<string>, now: int, x: string) {
    forall k :: 0 <= k < |ids| && ids[k] == x ==> !PingSucceeds(c, AtTurn(c, s, ids, k, now), x)
  }

  /** The node when it is the k-th one's turn. */
  function AtTurn(c: Config, s: State, ids: seq<string>, k: nat, now: int): State
    requires k <= |ids|
  {
    PingAll(c, s, ids[..k], now)
  }

  lemma LaterTurns(c: Config, s: State, ids: seq<string>, now: int, k: nat)
    requires ids != [] && k < |ids| - 1
    ensures AtTurn(c, s, ids, k + 1, now)
         == AtTurn(c, if ids[0] == Me(c) then s else PingNode(c, s, ids[0], now), ids[1..], k, now)
  {
    assert ids[..k + 1][0] == ids[0] && ids[..k + 1][1..] == ids[1..][..k];
  }

  lemma FailsLater(c: Config, s: State, ids: seq<string>, now: int, x: string)
    requires ids != [] && AttemptFails(c, s, ids, now, x)
    ensures ids[0] == x ==> !PingSucceeds(c, s, x)
    ensures AttemptFails(c, if ids[0] == Me(c) then s else PingNode(c, s, ids[0], now), ids[1..], now, x)
  {
    assert ids[..0] == [] && AtTurn(c, s, ids, 0, now) == s;
    var s1 := if ids[0] == Me(c) then s else PingNode(c, s, ids[0], now);
    forall k | 0 <= k < |ids[1..]| && ids[1..][k] == x
      ensures !PingSucceeds(c, AtTurn(c, s1, ids[1..], k, now), x)
    {
      LaterTurns(c, s, ids, now, k);
      assert ids[k + 1] == x;
    }
  }

  lemma {:induction false} FailedAttempts(c: Config, s: State, ids: seq<string>, now: int, x: string)
    requires AttemptFails(c, s, ids, now, x)
    ensures Unanswered(PingEvents(c, s, ids, now), x)
    decreases |ids|
  {
    if ids != [] {
      FailsLater(c, s, ids, now, x);
      if ids[0] == Me(c) {
        FailedAttempts(c, s, ids[1..], now, x);
      } else {
        FailedAttempts(c, PingNode(c, s, ids[0], now), ids[1..], now, x);
        ProbeMeaning(c, s, ids[0], now);
      }
    }
  }

  // A gossip round in which the attempt on x fails is one failed ping of x, and then the
  // cleanup: the rounds of the removal theorem.
  lemma RoundIsSilent(c: Config, s: State, ids: seq<string>, now: int, x: string)
    requires Lists(ids, s.nodes.Keys) && x != Me(c)
    requires AttemptFails(c, s, ids, now, x)
    ensures SilentRound(s.nodes, PingEvents(c, s, ids, now), x)
    ensures BeforeExchange(c, s, ids, now).nodes == CleanupNodes(AfterAll(s.nodes, PingEvents(c, s, ids, now)), now)
  {
    var h := PingEvents(c, s, ids, now);
    PingAllHistory(c, s, ids, now);
    PingsAreProbes(c, s, ids, now, x);
    FailedAttempts(c, s, ids, now, x);
    if x in s.nodes {
      assert x in s.nodes.Keys;
      OneFailure(h, x);
    } else {
      assert x !in s.nodes.Keys;
    }
  }

  // --- a silent node in a run ---

  /** This event does not mention x, unless it is a round whose attempt on x fails. */
  ghost predicate Ignores(c: Config, s: State, e: Event, x: string) {
    if e.Gossiped? then AttemptFails(c, s, e.ids, e.now, x)
    else Untouched(EventHistory(c, s, e), x)
  }

  function BeatOf(e: Event): Beat {
    if e.Gossiped? then Rounded(e.now) else Quiet
  }

  function BeatsOf(events: seq<Event>): seq<Beat> {
    seq(|events|, i requires 0 <= i < |events| => BeatOf(events[i]))
  }

  lemma EventBeats(c: Config, s: State, e: Event, x: string)
    requires BufferOk(c.lib, s.buffer) && Enabled(c, s, e) && x != Me(c) && Ignores(c, s, e, x)
    ensures Beats(s.nodes, Step(c, s, e).nodes, BeatOf(e), x)
  {
    if e.Gossiped? {
      RoundIsSilent(c, s, e.ids, e.now, x);
      SilentRoundBeats(s.nodes, PingEvents(c, s, e.ids, e.now), e.now, x);
    } else {
      StepWrites(c, s, e);
      UntouchedBeats(s.nodes, EventHistory(c, s, e), x);
    }
  }

  lemma RunBeats(c: Config, states: seq<State>, events: seq<Event>, x: string, i: nat)
    requires c.lib.CodecLaw() && IsRun(c, states, events) && BufferOk(c.lib, states[0].buffer)
    requires i < |events| && x != Me(c) && Ignores(c, states[i], events[i], x)
    ensures Beats(states[i].nodes, states[i + 1].nodes, BeatOf(events[i]), x)
  {
    Conservation(c, states[..i + 1], events[..i], Body("", MSG, "", "", [], 0));
    EventBeats(c, states[i], events[i], x);
  }

  // Removal is prompt in every run of the node: as long as each round's attempt on x fails
  // and nothing else mentions x, x goes in the first round, third failure or later, that
  // comes more than 72 hours after its last sign of life; until then its misses are counted.
  lemma RemovalPromptInRuns(c: Config, states: seq<State>, events: seq<Event>, x: string)
    requires c.lib.CodecLaw() && IsRun(c, states, events) && BufferOk(c.lib, states[0].buffer)
    requires x != Me(c) && x in states[0].nodes && StatusFits(states[0].nodes[x])
    requires forall i :: 0 <= i < |events| ==> Ignores(c, states[i], events[i], x)
    ensures GonePromptly(states[0].nodes[x], Times(BeatsOf(events)), states[|events|].nodes, x)
  {
    var ts := seq(|states|, i requires 0 <= i < |states| => states[i].nodes);
    forall i | 0 <= i < |events|
      ensures Beats(ts[i], ts[i + 1], BeatsOf(events)[i], x)
    {
      RunBeats(c, states, events, x, i);
    }
    RemovalPrompt(ts, BeatsOf(events), x);
  }
}
