// Runs in which the node does what its documents do not say: each starts from the empty
// node and takes only enabled events.
module Witnesses {
  import opened Text
  import opened Primitives
  import opened Protocol
  import opened Tables
  import opened Auth
  import opened Machine
  import opened Ledger
  import opened Invariants
  import opened FlushDelivery
  import opened Hops
  import opened Circles
  import E = EndToEnd

  const Empty := State(map[], map[], map[], map[], map[], {}, [], 0)

  ghost predicate RunFromEmpty(c: Config, states: seq<State>, events: seq<Event>) {
    IsRun(c, states, events) && states[0] == Empty
  }

  lemma OneMoreEvent(c: Config, states: seq<State>, events: seq<Event>, e: Event)
    requires RunFromEmpty(c, states, events) && Enabled(c, states[|events|], e)
    ensures RunFromEmpty(c, states + [Step(c, states[|events|], e)], events + [e])
  {
  }

  ghost predicate Reached(h: Host) {
    exists states, events :: RunFromEmpty(h.c, states, events) && states[|events|] == h.s
  }

  // --- a message for a cell that is not connected ---

  // The cell is at home here, but it is not connected and there is no handler: the message is
  // not buffered, but gone.
  lemma OfflineCellExample(c: Config, cell: string, pkt: Packet) returns (states: seq<State>, events: seq<Event>)
    requires !c.hasHandler && pkt.body.kind == MSG && ParseAddr(pkt.body.toAddr).0 == Some(cell)
    ensures RunFromEmpty(c, states, events)
    ensures events == [RegisteredLocally(cell, [], [], 0), Submitted(pkt, 0)]
    ensures states[2].log == [Dropped(NoHandler, pkt.body)] && states[2].buffer == map[]
  {
    var s := Empty.(cells := map[cell := CellRow([], [], 0, true)], presence := map[cell := PresenceRow(Me(c), None, 0)]);
    assert Route(c, s, pkt, 0).s == s.(log := [Dropped(NoHandler, pkt.body)]);
    events := [RegisteredLocally(cell, [], [], 0), Submitted(pkt, 0)];
    assert Step(c, Empty, events[0]) == s;
    states := [Empty, s, Route(c, s, pkt, 0).s];
  }

  // --- a message that has to wait ---

  /** The cell is at home on a node nobody knows how to reach. */
  function AwayState(c: Config, cell: string, other: string): State {
    Empty.(presence := map[cell := PresenceRow(other, None, 0)])
  }

  function ParkedState(c: Config, cell: string, other: string, pkt: Packet): State {
    AwayState(c, cell, other).(
      buffer := map[pkt.body.id := BufferRow(cell, other, SerializePacket(c.lib, pkt), 0, TTL_MESSAGE_SECS)])
  }

  lemma AwayFails(c: Config, s: State, cell: string, other: string, pkt: Packet)
    requires other != Me(c) && s.conns == map[] && s.nodes == map[]
    ensures TryNodes(c, s, PresenceRow(other, None, 0), pkt) == Attempt(s, pkt, false)
  {
  }

  lemma ParkedRun(c: Config, cell: string, other: string, pkt: Packet)
    requires other != Me(c) && pkt.body.kind == MSG && ParseAddr(pkt.body.toAddr).0 == Some(cell)
    ensures RunFromEmpty(c, [Empty, AwayState(c, cell, other), ParkedState(c, cell, other, pkt)],
                         [PresenceSet(cell, other, None, 0), Submitted(pkt, 0)])
  {
    var s := AwayState(c, cell, other);
    assert Step(c, Empty, PresenceSet(cell, other, None, 0)) == s;
    AwayFails(c, s, cell, other, pkt);
    assert Route(c, s, pkt, 0).s == ParkedState(c, cell, other, pkt);
  }

  // A message is lost because an expired row that no cleanup has removed yet has its id.
  lemma SwallowedByExpiredRow(c: Config, cell: string, other: string, first: Packet, pkt: Packet)
    returns (states: seq<State>, events: seq<Event>)
    requires other != Me(c) && first.body.kind == pkt.body.kind == MSG && first.body.id == pkt.body.id
    requires ParseAddr(first.body.toAddr).0 == ParseAddr(pkt.body.toAddr).0 == Some(cell)
    ensures RunFromEmpty(c, states, events) && |events| == 3
    ensures events[2] == Submitted(pkt, TTL_MESSAGE_SECS)
    ensures Buffered(states[2].buffer, cell, TTL_MESSAGE_SECS) == map[]
    ensures states[3].log == [Dropped(DuplicateId, pkt.body)] && states[3].buffer == states[2].buffer
  {
    var s := ParkedState(c, cell, other, first);
    ParkedRun(c, cell, other, first);
    AwayFails(c, s, cell, other, pkt);
    var t := Route(c, s, pkt, TTL_MESSAGE_SECS).s;
    assert t == s.(log := [Dropped(DuplicateId, pkt.body)]);
    states := [Empty, AwayState(c, cell, other), s, t];
    events := [PresenceSet(cell, other, None, 0), Submitted(first, 0), Submitted(pkt, TTL_MESSAGE_SECS)];
  }

  // --- a flush that loses a message ---

  function HonestReply(lib: Library, who: Identity): Reply {
    Reply(MakeResponse(lib, "", "", [], who, "", 0), [])
  }

  lemma HonestPeerAccepted(c: Config, s: State, who: Identity)
    requires c.lib.CodecLaw() && c.lib.SigningLaw()
    ensures Step(c, s, Accepted(HonestReply(c.lib, who))) == Register(s, PeerConn(c.lib, who))
  {
    HonestResponse(c.lib, "", "", [], who, "", 0, None);
  }

  function RegistrationBytes(lib: Library, who: Identity, node: string): Bytes {
    Pack(lib, Signed(lib, E.Registration(lib, who, node, "", 0), who.signKey))
  }

  lemma RegistrationRead(c: Config, who: Identity)
    requires c.lib.CodecLaw() && c.lib.SigningLaw()
    ensures var reg := E.Registration(c.lib, who, Me(c), "", 0);
            && Genuine(c, RegistrationBytes(c.lib, who, Me(c)), PeerConn(c.lib, who)) == Some(Signed(c.lib, reg, who.signKey))
            && ProvenClaim(c, reg.body.payload, PeerConn(c.lib, who)).Some?
            && ProvenClaim(c, reg.body.payload, PeerConn(c.lib, who)).value.cellId == IdOf(c.lib, who)
  {
    HopAccepted(c.lib, E.Registration(c.lib, who, Me(c), "", 0), who.signKey);
    E.RegistrationIsProven(c, who, Me(c), "", 0, PeerConn(c.lib, who));
  }

  /** The node when the cell has connected, its message still waiting. */
  function ConnectedState(c: Config, who: Identity, other: string, pkt: Packet): State {
    Register(ParkedState(c, IdOf(c.lib, who), other, pkt), PeerConn(c.lib, who))
  }

  lemma OneWaiting(c: Config, who: Identity, other: string, pkt: Packet)
    requires c.lib.CodecLaw() && pkt.body.kind == MSG && ParseAddr(pkt.body.toAddr).0 == Some(IdOf(c.lib, who))
    ensures var b := ConnectedState(c, who, other, pkt).buffer;
            && BufferOk(c.lib, b) && Lists([pkt.body.id], Buffered(b, IdOf(c.lib, who), 0).Keys)
            && Unpack(c.lib, b[pkt.body.id].payload).Some?
            && RowPacket(c, b[pkt.body.id]).body == pkt.body
  {
    BufferRoundTrip(c.lib, pkt);
  }

  /** The cell's registration, and the one row the flush reads. */
  function FlushingEvent(c: Config, who: Identity, pkt: Packet): Event {
    Received(PeerConn(c.lib, who), RegistrationBytes(c.lib, who, Me(c)), 0, [pkt.body.id])
  }

  lemma FlushEnabled(c: Config, who: Identity, other: string, pkt: Packet)
    requires c.lib.CodecLaw() && c.lib.SigningLaw()
    requires pkt.body.kind == MSG && ParseAddr(pkt.body.toAddr).0 == Some(IdOf(c.lib, who))
    ensures var s, e := ConnectedState(c, who, other, pkt), FlushingEvent(c, who, pkt);
            var payload := E.Registration(c.lib, who, Me(c), "", 0).body.payload;
            && Enabled(c, s, e) && FlushOrder(c, s, payload, e.conn, 0, e.order)
            && Step(c, s, e) == HandleCellRegister(c, s, payload, e.conn, 0, e.order)
  {
    RegistrationRead(c, who);
    OneWaiting(c, who, other, pkt);
  }

  // A flush of one row whose send fails drops the message.
  lemma OneRowLost(c: Config, s: State, t: State, id: string, cell: string, b: Body)
    requires id in s.buffer && Unpack(c.lib, s.buffer[id].payload).Some? && RowPacket(c, s.buffer[id]).body == b
    requires s.log == [] && FlushLog(c, s, t, s.buffer, [id], cell)
    requires !c.hasHandler && !c.luck(s.tick).delivered
    ensures t.log == [Dropped(NoHandler, b)]
  {
    assert !AllGo(c, s.tick, 0);
    assert RowFate(c, s, Connection(s, cell), s.buffer[[id][0]], 0, t.log[|s.log| + 0]);
  }

  lemma FlushLoses(c: Config, who: Identity, other: string, pkt: Packet)
    requires c.lib.CodecLaw() && c.lib.SigningLaw() && !c.hasHandler && (forall tick :: !c.luck(tick).delivered)
    requires pkt.body.kind == MSG && ParseAddr(pkt.body.toAddr).0 == Some(IdOf(c.lib, who))
    ensures var s, e := ConnectedState(c, who, other, pkt), FlushingEvent(c, who, pkt);
            && Enabled(c, s, e)
            && Step(c, s, e).log == [Dropped(NoHandler, pkt.body)] && pkt.body.id !in Step(c, s, e).buffer
  {
    var s, e := ConnectedState(c, who, other, pkt), FlushingEvent(c, who, pkt);
    var payload := E.Registration(c.lib, who, Me(c), "", 0).body.payload;
    FlushEnabled(c, who, other, pkt);
    RegistrationRead(c, who);
    OneWaiting(c, who, other, pkt);
    RegistrationDrains(c, s, payload, e.conn, 0, e.order);
    OneRowLost(c, s, Step(c, s, e), pkt.body.id, e.conn.peerNodeId, pkt.body);
  }

  lemma ConnectedRun(c: Config, who: Identity, other: string, pkt: Packet)
    returns (states: seq<State>, events: seq<Event>)
    requires c.lib.CodecLaw() && c.lib.SigningLaw() && other != Me(c)
    requires pkt.body.kind == MSG && ParseAddr(pkt.body.toAddr).0 == Some(IdOf(c.lib, who))
    ensures RunFromEmpty(c, states, events) && |events| == 3 && states[3] == ConnectedState(c, who, other, pkt)
  {
    var cell, hello := IdOf(c.lib, who), Accepted(HonestReply(c.lib, who));
    states := [Empty, AwayState(c, cell, other), ParkedState(c, cell, other, pkt)];
    events := [PresenceSet(cell, other, None, 0), Submitted(pkt, 0)];
    ParkedRun(c, cell, other, pkt);
    HonestPeerAccepted(c, states[2], who);
    OneMoreEvent(c, states, events, hello);
    states, events := states + [ConnectedState(c, who, other, pkt)], events + [hello];
  }

  lemma ConnectedWaits(c: Config, who: Identity, other: string, pkt: Packet)
    requires c.lib.CodecLaw() && c.lib.SigningLaw()
    requires pkt.body.kind == MSG && ParseAddr(pkt.body.toAddr).0 == Some(IdOf(c.lib, who))
    ensures var s, e, cell := ConnectedState(c, who, other, pkt), FlushingEvent(c, who, pkt), IdOf(c.lib, who);
            && pkt.body.id in Buffered(s.buffer, cell, 0) && cell in s.conns
            && ClaimIn(c, e.raw, e.conn).Some? && ClaimIn(c, e.raw, e.conn).value.cellId == cell
  {
    RegistrationRead(c, who);
    OneWaiting(c, who, other, pkt);
    assert pkt.body.id in Buffered(ConnectedState(c, who, other, pkt).buffer, IdOf(c.lib, who), 0).Keys;
  }

  /** The message waits, the cell is connected and registers in time; then the message is gone. */
  ghost predicate LostInFlush(c: Config, s: State, e: Event, t: State, cell: string, b: Body) {
    && b.id in Buffered(s.buffer, cell, 0) && cell in s.conns
    && e.Received? && e.now == 0
    && ClaimIn(c, e.raw, e.conn).Some? && ClaimIn(c, e.raw, e.conn).value.cellId == cell
    && t.log == [Dropped(NoHandler, b)] && b.id !in t.buffer
  }

  lemma FlushLostIt(c: Config, who: Identity, other: string, pkt: Packet)
    requires c.lib.CodecLaw() && c.lib.SigningLaw() && !c.hasHandler && (forall tick :: !c.luck(tick).delivered)
    requires pkt.body.kind == MSG && ParseAddr(pkt.body.toAddr).0 == Some(IdOf(c.lib, who))
    ensures var s, e := ConnectedState(c, who, other, pkt), FlushingEvent(c, who, pkt);
            Enabled(c, s, e) && LostInFlush(c, s, e, Step(c, s, e), IdOf(c.lib, who), pkt.body)
  {
    ConnectedWaits(c, who, other, pkt);
    FlushLoses(c, who, other, pkt);
  }

  // A message waited for its cell, the cell registered in time over a live connection, and
  // the message is gone: the flush could not send it and deleted its row.
  lemma FlushLosesMessage(c: Config, who: Identity, other: string, pkt: Packet)
    returns (states: seq<State>, events: seq<Event>)
    requires c.lib.CodecLaw() && c.lib.SigningLaw() && !c.hasHandler && (forall tick :: !c.luck(tick).delivered)
    requires other != Me(c)
    requires pkt.body.kind == MSG && ParseAddr(pkt.body.toAddr).0 == Some(IdOf(c.lib, who))
    ensures RunFromEmpty(c, states, events) && |events| == 4
    ensures LostInFlush(c, states[3], events[3], states[4], IdOf(c.lib, who), pkt.body)
  {
    states, events := ConnectedRun(c, who, other, pkt);
    states, events := FlushedRun(c, who, other, pkt, states, events);
  }

  lemma FlushedRun(c: Config, who: Identity, other: string, pkt: Packet, before: seq<State>, past: seq<Event>)
    returns (states: seq<State>, events: seq<Event>)
    requires c.lib.CodecLaw() && c.lib.SigningLaw() && !c.hasHandler && (forall tick :: !c.luck(tick).delivered)
    requires pkt.body.kind == MSG && ParseAddr(pkt.body.toAddr).0 == Some(IdOf(c.lib, who))
    requires RunFromEmpty(c, before, past) && before[|past|] == ConnectedState(c, who, other, pkt)
    ensures RunFromEmpty(c, states, events) && |events| == |past| + 1
    ensures LostInFlush(c, states[|past|], events[|past|], states[|past| + 1], IdOf(c.lib, who), pkt.body)
  {
    var s, e := before[|past|], FlushingEvent(c, who, pkt);
    assert Enabled(c, s, e) by {
      FlushLostIt(c, who, other, pkt);
    }
    var t := Step(c, s, e);
    states, events := before + [t], past + [e];
    assert RunFromEmpty(c, states, events) by {
      OneMoreEvent(c, before, past, e);
    }
    assert LostInFlush(c, s, e, t, IdOf(c.lib, who), pkt.body) by {
      FlushLostIt(c, who, other, pkt);
    }
    assert states[|past|] == s && events[|past|] == e && states[|past| + 1] == t;
  }

  // --- a circle ---

  /** The row that sends the cell's messages on to the next node: as the home, or as the node
      the cell visits. */
  function RowTo(c: Config, next: Config, visits: bool): PresenceRow {
    if visits then PresenceRow(Me(c), Some(Me(next)), 0) else PresenceRow(Me(next), None, 0)
  }

  function PointingState(c: Config, next: Config, cell: string, visits: bool): State {
    Register(Empty, PeerConn(c.lib, next.who)).(presence := map[cell := RowTo(c, next, visits)])
  }

  lemma PointingReached(c: Config, next: Config, cell: string, visits: bool)
    requires c.lib == next.lib && c.lib.CodecLaw() && c.lib.SigningLaw()
    ensures Reached(Host(c, PointingState(c, next, cell, visits)))
  {
    var row := RowTo(c, next, visits);
    var s1, s2 := Register(Empty, PeerConn(c.lib, next.who)), PointingState(c, next, cell, visits);
    var states := [Empty, s1, s2];
    var events := [Accepted(HonestReply(c.lib, next.who)), PresenceSet(cell, row.home, row.visiting, 0)];
    HonestPeerAccepted(c, Empty, next.who);
    assert Step(c, s1, events[1]) == s2;
    assert RunFromEmpty(c, states, events) && states[|events|] == s2;
  }

  lemma PointingHost(c: Config, next: Config, cell: string, visits: bool)
    requires c.lib == next.lib && Me(c) != Me(next) && Me(next) != "" && forall tick :: c.luck(tick).delivered
    ensures var h := Host(c, PointingState(c, next, cell, visits));
            && GetsThrough(h, c.lib, Me(c), cell) && HonestHost(h, c.lib, Me(c))
            && !Stops(h, cell) && Target(h.s.presence[cell]) == Me(next)
  {
  }

  ghost predicate Nodes(cs: seq<Config>, lib: Library, cell: string) {
    && lib.CodecLaw() && lib.SigningLaw() && |cs| >= 2
    && (forall i :: 0 <= i < |cs| ==> cs[i].lib == lib && Me(cs[i]) != cell && Me(cs[i]) != "")
    && (forall i, tick :: 0 <= i < |cs| ==> cs[i].luck(tick).delivered)
    && (forall i, j :: 0 <= i < j < |cs| ==> Me(cs[i]) != Me(cs[j]))
  }

  function RingHost(cs: seq<Config>, i: nat, cell: string, visits: bool): Host
    requires i < |cs|
  {
    Host(cs[i], PointingState(cs[i], cs[After(i, |cs|)], cell, visits))
  }

  lemma RingHostFits(cs: seq<Config>, lib: Library, i: nat, cell: string, visits: bool)
    requires Nodes(cs, lib, cell) && i < |cs|
    ensures var h, next := RingHost(cs, i, cell, visits), cs[After(i, |cs|)];
            && h.c == cs[i] && GetsThrough(h, lib, Me(cs[i]), cell) && HonestHost(h, lib, Me(cs[i])) && Reached(h)
            && !Stops(h, cell) && Target(h.s.presence[cell]) == Me(next)
  {
    PointingReached(cs[i], cs[After(i, |cs|)], cell, visits);
    PointingHost(cs[i], cs[After(i, |cs|)], cell, visits);
  }

  lemma {:induction false} RingWorldExists(cs: seq<Config>, lib: Library, cell: string, visits: bool, n: nat)
    returns (w: World)
    requires Nodes(cs, lib, cell) && n <= |cs|
    ensures forall i :: 0 <= i < n ==> Me(cs[i]) in w && w[Me(cs[i])] == RingHost(cs, i, cell, visits)
    ensures forall id :: id in w ==> exists i :: 0 <= i < n && id == Me(cs[i])
  {
    if n == 0 {
      w := map[];
    } else {
      w := RingWorldExists(cs, lib, cell, visits, n - 1);
      w := w[Me(cs[n - 1]) := RingHost(cs, n - 1, cell, visits)];
    }
  }

  /** w is made of these hosts. */
  ghost predicate MadeOf(w: World, cs: seq<Config>, cell: string, visits: bool) {
    && (forall i :: 0 <= i < |cs| ==> Me(cs[i]) in w && w[Me(cs[i])] == RingHost(cs, i, cell, visits))
    && (forall id :: id in w ==> exists i :: 0 <= i < |cs| && id == Me(cs[i]))
  }

  lemma HostsFit(w: World, cs: seq<Config>, lib: Library, cell: string, visits: bool, id: string)
    requires Nodes(cs, lib, cell) && MadeOf(w, cs, cell, visits) && id in w
    ensures GetsThrough(w[id], lib, id, cell) && HonestHost(w[id], lib, id) && Reached(w[id])
    ensures id != "" && id != cell
  {
    var i :| 0 <= i < |cs| && id == Me(cs[i]);
    RingHostFits(cs, lib, i, cell, visits);
  }

  lemma HostsLink(w: World, ring: seq<string>, cs: seq<Config>, lib: Library, cell: string, visits: bool)
    requires Nodes(cs, lib, cell) && MadeOf(w, cs, cell, visits)
    requires |ring| == |cs| && forall i :: 0 <= i < |cs| ==> ring[i] == Me(cs[i])
    ensures Ring(w, ring, cell)
  {
    forall i | 0 <= i < |cs|
      ensures Link(w, ring, cell, i)
    {
      RingHostFits(cs, lib, i, cell, visits);
    }
  }

  // Any nodes whatever can come to form a circle, by home or by visiting entries, in runs
  // of their own; nothing else that the landing theorem asks for is amiss.
  lemma CircleExists(cs: seq<Config>, lib: Library, cell: string, visits: bool) returns (w: World, ring: seq<string>)
    requires Nodes(cs, lib, cell)
    ensures |ring| == |cs| && MadeOf(w, cs, cell, visits) && forall i :: 0 <= i < |cs| ==> ring[i] == Me(cs[i])
    ensures Ring(w, ring, cell) && AllGetThrough(w, lib, cell)
    ensures Honest(w, lib) && "" !in w && cell !in w
    ensures forall id :: id in w ==> Reached(w[id])
  {
    ring := seq(|cs|, i requires 0 <= i < |cs| => Me(cs[i]));
    w := RingWorldExists(cs, lib, cell, visits, |cs|);
    HostsLink(w, ring, cs, lib, cell, visits);
    forall id | id in w
      ensures GetsThrough(w[id], lib, id, cell) && HonestHost(w[id], lib, id) && Reached(w[id])
      ensures id != "" && id != cell
    {
      HostsFit(w, cs, lib, cell, visits, id);
    }
  }
}
