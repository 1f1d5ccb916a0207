// A message on its way through a network of nodes. Nothing counts hops, so whether it ever
// stops depends on the presence tables alone.
module Hops {
  import opened Text
  import opened Primitives
  import opened Protocol
  import opened Machine
  import opened Ledger
  import opened Fates
  import opened Invariants

  datatype Host = Host(c: Config, s: State)

  type World = map<string, Host>

  /** Where the message is: about to be routed at a node, at rest, or turned away on arrival. */
  datatype Flight = InFlight(at: string, pkt: Packet) | Landed(at: string) | TurnedAway

  /** The connection a peer holds to this node after an honest handshake. */
  function ConnTo(c: Config): Conn {
    PeerConn(c.lib, c.who)
  }

  /** The packet left for another node of the network. */
  predicate Forwarded(nodes: set<string>, f: Fate) {
    f.Sent? && f.conn.peerNodeId in nodes
  }

  /** What the next node makes of the bytes sent to it. */
  ghost function Arrival(sender: Config, receiver: Config, f: Fate): Flight
    requires f.Sent?
  {
    match Genuine(receiver, Pack(sender.lib, f.pkt), ConnTo(sender))
    case Some(p) => InFlight(f.conn.peerNodeId, p)
    case None => TurnedAway
  }

  ghost function HostAfter(h: Host, pkt: Packet, now: int): Host {
    Host(h.c, Route(h.c, h.s, pkt, now).s)
  }

  /** The forward of a node that routed the packet, if it went to another node. */
  ghost function ForwardOf(h: Host, nodes: set<string>, pkt: Packet, now: int): Option<Fate> {
    var a := Route(h.c, h.s, pkt, now);
    if a.ok && a.s.log != [] && Forwarded(nodes, a.s.log[|a.s.log| - 1]) then Some(a.s.log[|a.s.log| - 1])
    else None
  }

  /** The network, the message in it, and how often it has been forwarded. */
  datatype Leg = Leg(w: World, f: Flight, forwards: nat)

  ghost predicate Moving(l: Leg) {
    l.f.InFlight? && l.f.at in l.w
  }

  ghost function Hop(l: Leg, now: int): Leg
    requires Moving(l)
  {
    var h := l.w[l.f.at];
    var w1 := l.w[l.f.at := HostAfter(h, l.f.pkt, now)];
    match ForwardOf(h, l.w.Keys, l.f.pkt, now)
    case Some(f) =>
      var next := Arrival(h.c, l.w[f.conn.peerNodeId].c, f);
      Leg(w1, next, l.forwards + if next.InFlight? then 1 else 0)
    case None => Leg(w1, Landed(l.f.at), l.forwards)
  }

  /** A hop at each of the times, as long as the message moves. */
  ghost function Travel(start: Leg, times: seq<int>): Leg {
    if times == [] then start
    else
      var l := Travel(start, times[..|times| - 1]);
      if Moving(l) then Hop(l, times[|times| - 1]) else l
  }

  /** Nodes share the library, go by their own ids, and are in a reachable state. */
  ghost predicate Honest(w: World, lib: Library) {
    && lib.CodecLaw() && lib.SigningLaw()
    && forall id :: id in w ==> HonestHost(w[id], lib, id)
  }

  ghost predicate HonestHost(h: Host, lib: Library, id: string) {
    && h.c.lib == lib && Me(h.c) == id
    && Bound(h.s) && BufferOk(lib, h.s.buffer) && AllSigned(h.c, h.s.log)
  }

  /** A presence entry names the node itself, or a node of lower rank. */
  predicate Downhill(id: string, entry: string, rank: string -> nat) {
    entry == id || (entry != "" && rank(entry) < rank(id))
  }

  ghost predicate Ranked(w: World, cell: string, rank: string -> nat) {
    forall id :: id in w ==> RowDownhill(w[id].s, id, cell, rank)
  }

  predicate RowDownhill(s: State, id: string, cell: string, rank: string -> nat) {
    cell in s.presence ==>
      var p := s.presence[cell];
      (Visits(p) ==> Downhill(id, p.visiting.value, rank)) && Downhill(id, p.home, rank)
  }

  // --- where a node sends ---

  ghost predicate SentTo(s: State, a: Attempt, id: string) {
    a.ok && |a.s.log| == |s.log| + 1 && a.s.log[|s.log|].Sent? ==> a.s.log[|s.log|].conn.peerNodeId == id
  }

  lemma LocalGoesToCell(c: Config, s: State, pkt: Packet, cell: string)
    requires Bound(s) && ParseAddr(pkt.body.toAddr).0 == Some(cell)
    ensures SentTo(s, DeliverLocal(c, s, pkt), cell)
  {
  }

  lemma OtherGoesToNode(c: Config, s: State, id: string, pkt: Packet)
    requires Bound(s) && id != Me(c) && id != ""
    ensures SentTo(s, SendToNode(c, s, id, pkt), id)
  {
    var a := SendTo(c, s, id, pkt);
    if !a.ok {
      SendToFailed(c, s, id, pkt);
      if Dials(c, a.s.tick, id) {
        DialMeets(c, a.s.tick, id);
      }
    }
  }

  lemma NodeOrCell(c: Config, s: State, id: string, pkt: Packet, cell: string)
    requires Bound(s) && id != "" && ParseAddr(pkt.body.toAddr).0 == Some(cell)
    ensures SentTo(s, SendToNode(c, s, id, pkt), if id == Me(c) then cell else id)
  {
    if id == Me(c) {
      LocalGoesToCell(c, s, pkt, cell);
    } else {
      OtherGoesToNode(c, s, id, pkt);
    }
  }

  // A message leaves for its cell, or for a node that the presence row puts lower.
  lemma SendsDownhill(c: Config, s: State, pkt: Packet, now: int, cell: string, rank: string -> nat)
    requires Bound(s) && Me(c) != "" && ParseAddr(pkt.body.toAddr).0 == Some(cell)
    requires RowDownhill(s, Me(c), cell, rank)
    ensures var a := Route(c, s, pkt, now);
            a.ok ==> |a.s.log| == |s.log| + 1
                     && (a.s.log[|s.log|].Sent? ==>
                           var to := a.s.log[|s.log|].conn.peerNodeId;
                           to == cell || rank(to) < rank(Me(c)))
  {
    RouteTried(c, s, pkt, now);
    if cell !in s.presence {
      LocalGoesToCell(c, s, pkt, cell);
    } else {
      var p := s.presence[cell];
      if Visits(p) {
        NodeOrCell(c, s, p.visiting.value, pkt, cell);
        SendToNodeTried(c, s, p.visiting.value, pkt);
        SendToNodeKeeps(c, s, p.visiting.value, pkt);
      }
      var a := TryVisiting(c, s, p, pkt);
      NodeOrCell(c, a.s, p.home, a.pkt, cell);
      SendToNodeTried(c, a.s, p.home, a.pkt);
    }
  }

  // --- counting copies at rest ---

  /** Copies of b that ended at this node: settled here or sent out of the network. */
  ghost function RestLog(lib: Library, log: seq<Fate>, b: Body, nodes: set<string>): nat {
    if log == [] then 0
    else
      var f := log[|log| - 1];
      RestLog(lib, log[..|log| - 1], b, nodes) + if Weighs(lib, f, b) && !Forwarded(nodes, f) then 1 else 0
  }

  ghost function AtRest(h: Host, b: Body, nodes: set<string>): nat {
    RestLog(h.c.lib, h.s.log, b, nodes) + if Held(h.c.lib, h.s.buffer, b) then 1 else 0
  }

  // One hop: the message is forwarded and no copy rests here, or it rests here, once.
  lemma HopRests(h: Host, pkt: Packet, now: int, nodes: set<string>)
    requires h.c.lib.CodecLaw() && BufferOk(h.c.lib, h.s.buffer) && pkt.body.kind == MSG
    ensures AtRest(HostAfter(h, pkt, now), pkt.body, nodes)
         == AtRest(h, pkt.body, nodes) + if ForwardOf(h, nodes, pkt, now).Some? then 0 else 1
  {
    RouteTried(h.c, h.s, pkt, now);
    RouteAccount(h.c, h.s, pkt, now, pkt.body);
    var a := Route(h.c, h.s, pkt, now);
    if a.ok {
      assert a.s.log[..|a.s.log| - 1] == h.s.log;
    }
  }

  // A forward goes downhill and the next node reads the same message.
  lemma ForwardLeads(h: Host, lib: Library, receiver: Config, id: string, nodes: set<string>, pkt: Packet, now: int,
                     cell: string, rank: string -> nat)
    requires lib.CodecLaw() && lib.SigningLaw() && HonestHost(h, lib, id) && id != "" && receiver.lib == lib
    requires ParseAddr(pkt.body.toAddr).0 == Some(cell) && cell !in nodes
    requires RowDownhill(h.s, id, cell, rank)
    requires ForwardOf(h, nodes, pkt, now).Some?
    ensures var f := ForwardOf(h, nodes, pkt, now).value;
            && rank(f.conn.peerNodeId) < rank(id)
            && Arrival(h.c, receiver, f) == InFlight(f.conn.peerNodeId, f.pkt) && f.pkt.body == pkt.body
  {
    SendsDownhill(h.c, h.s, pkt, now, cell, rank);
    RouteTried(h.c, h.s, pkt, now);
    HopAccepted(lib, ForwardOf(h, nodes, pkt, now).value.pkt, h.c.who.signKey);
  }

  ghost predicate SameElsewhere(w: World, w1: World, at: string, b: Body) {
    && w1.Keys == w.Keys
    && forall id :: id in w && id != at ==> AtRest(w1[id], b, w.Keys) == AtRest(w[id], b, w.Keys)
  }

  lemma HostStays(h: Host, lib: Library, id: string, pkt: Packet, now: int)
    requires lib.CodecLaw() && HonestHost(h, lib, id) && pkt.body.kind == MSG
    ensures HonestHost(HostAfter(h, pkt, now), lib, id)
    ensures HostAfter(h, pkt, now).s.presence == h.s.presence
  {
    RouteTried(h.c, h.s, pkt, now);
    RouteAccount(h.c, h.s, pkt, now, pkt.body);
    RouteKeeps(h.c, h.s, pkt, now);
  }

  lemma WorldStays(w: World, lib: Library, at: string, h1: Host, cell: string, rank: string -> nat, b: Body)
    requires Honest(w, lib) && at in w && Ranked(w, cell, rank)
    requires HonestHost(h1, lib, at) && h1.s.presence == w[at].s.presence
    ensures Honest(w[at := h1], lib) && Ranked(w[at := h1], cell, rank) && SameElsewhere(w, w[at := h1], at, b)
  {
  }

  /** What the journey of a message for the cell needs of the network and keeps. */
  ghost predicate Sound(l: Leg, lib: Library, cell: string, rank: string -> nat) {
    && Honest(l.w, lib) && Ranked(l.w, cell, rank) && "" !in l.w && cell !in l.w
    && (l.f.InFlight? ==> l.f.at in l.w && l.f.pkt.body.kind == MSG && ParseAddr(l.f.pkt.body.toAddr).0 == Some(cell))
  }

  /** One hop: on to a lower node with nothing left behind, or at rest here. */
  ghost predicate OneHop(l: Leg, l1: Leg, rank: string -> nat)
    requires Moving(l)
  {
    && SameElsewhere(l.w, l1.w, l.f.at, l.f.pkt.body)
    && if l1.f.InFlight? then
         && rank(l1.f.at) < rank(l.f.at) && l1.f.pkt.body == l.f.pkt.body && l1.forwards == l.forwards + 1
         && AtRest(l1.w[l.f.at], l.f.pkt.body, l.w.Keys) == AtRest(l.w[l.f.at], l.f.pkt.body, l.w.Keys)
       else
         && l1.f == Landed(l.f.at) && l1.forwards == l.forwards
         && AtRest(l1.w[l.f.at], l.f.pkt.body, l.w.Keys) == AtRest(l.w[l.f.at], l.f.pkt.body, l.w.Keys) + 1
  }

  lemma HopOutcome(l: Leg, lib: Library, now: int, cell: string, rank: string -> nat)
    requires Sound(l, lib, cell, rank) && l.f.InFlight?
    ensures Sound(Hop(l, now), lib, cell, rank) && OneHop(l, Hop(l, now), rank)
  {
    var w, at, pkt := l.w, l.f.at, l.f.pkt;
    var h1 := HostAfter(w[at], pkt, now);
    HostStays(w[at], lib, at, pkt, now);
    WorldStays(w, lib, at, h1, cell, rank, pkt.body);
    HopRests(w[at], pkt, now, w.Keys);
    var forward := ForwardOf(w[at], w.Keys, pkt, now);
    if forward.Some? {
      ForwardLeads(w[at], lib, w[forward.value.conn.peerNodeId].c, at, w.Keys, pkt, now, cell, rank);
    }
  }

  /** Exactly one new copy of b rests in the network, at the node f names. */
  ghost predicate RestsOnceMore(w: World, w1: World, f: Flight, b: Body) {
    && w1.Keys == w.Keys
    && f.Landed? && f.at in w
    && AtRest(w1[f.at], b, w.Keys) == AtRest(w[f.at], b, w.Keys) + 1
    && SameElsewhere(w, w1, f.at, b)
  }

  ghost predicate NothingRests(w: World, w1: World, b: Body) {
    && w1.Keys == w.Keys
    && forall id :: id in w ==> AtRest(w1[id], b, w.Keys) == AtRest(w[id], b, w.Keys)
  }

  /** Between the start and l the message went downhill and left no copy; or it landed. */
  ghost predicate Since(start: Leg, l: Leg, rank: string -> nat)
    requires start.f.InFlight?
  {
    var b := start.f.pkt.body;
    l.forwards >= start.forwards &&
    if l.f.InFlight? then
      && rank(l.f.at) + (l.forwards - start.forwards) <= rank(start.f.at)
      && l.f.pkt.body == b && NothingRests(start.w, l.w, b)
    else l.forwards - start.forwards <= rank(start.f.at) && RestsOnceMore(start.w, l.w, l.f, b)
  }

  lemma SinceThen(start: Leg, l: Leg, l1: Leg, rank: string -> nat)
    requires start.f.InFlight? && Moving(l) && Since(start, l, rank) && OneHop(l, l1, rank)
    ensures Since(start, l1, rank)
  {
    var b := start.f.pkt.body;
    forall id | id in start.w && id != l.f.at
      ensures AtRest(l1.w[id], b, start.w.Keys) == AtRest(start.w[id], b, start.w.Keys)
    {
      assert AtRest(l1.w[id], b, l.w.Keys) == AtRest(l.w[id], b, l.w.Keys);
    }
  }

  lemma {:induction false} JourneyGoesDown(start: Leg, lib: Library, times: seq<int>, cell: string, rank: string -> nat)
    requires Sound(start, lib, cell, rank) && start.f.InFlight?
    ensures var l := Travel(start, times);
            && Sound(l, lib, cell, rank) && Since(start, l, rank)
            && (l.f.InFlight? ==> l.forwards == start.forwards + |times|)
  {
    if times != [] {
      var before := times[..|times| - 1];
      JourneyGoesDown(start, lib, before, cell, rank);
      var l := Travel(start, before);
      if l.f.InFlight? {
        HopOutcome(l, lib, times[|times| - 1], cell, rank);
        SinceThen(start, l, Hop(l, times[|times| - 1]), rank);
      }
    }
  }

  /** Until the message comes to a node, nothing happens there; where it lands, it was routed once. */
  ghost predicate TouchedOnce(start: Leg, l: Leg, rank: string -> nat) {
    && l.w.Keys == start.w.Keys
    && (l.f.InFlight? ==> forall id :: id in start.w && rank(id) <= rank(l.f.at) ==> l.w[id] == start.w[id])
    && (l.f.Landed? ==> l.f.at in start.w && start.f.InFlight?
                        && exists pkt, now :: RoutedAs(start.w[l.f.at], l.w[l.f.at], pkt, now, start.f.pkt.body))
  }

  ghost predicate RoutedAs(h: Host, h1: Host, pkt: Packet, now: int, b: Body) {
    pkt.body == b && h1 == HostAfter(h, pkt, now)
  }

  lemma HopWorld(l: Leg, now: int)
    requires Moving(l)
    ensures Hop(l, now).w == l.w[l.f.at := HostAfter(l.w[l.f.at], l.f.pkt, now)]
  {
  }

  lemma TouchedThen(start: Leg, l: Leg, l1: Leg, now: int, rank: string -> nat)
    requires start.f.InFlight? && Moving(l) && TouchedOnce(start, l, rank) && l.f.pkt.body == start.f.pkt.body
    requires l1.w == l.w[l.f.at := HostAfter(l.w[l.f.at], l.f.pkt, now)]
    requires if l1.f.InFlight? then rank(l1.f.at) < rank(l.f.at) else l1.f == Landed(l.f.at)
    ensures TouchedOnce(start, l1, rank)
  {
    if l1.f.Landed? {
      assert RoutedAs(start.w[l1.f.at], l1.w[l1.f.at], l.f.pkt, now, start.f.pkt.body);
    }
  }

  lemma {:induction false} JourneyTouchesOnce(start: Leg, lib: Library, times: seq<int>, cell: string, rank: string -> nat)
    requires Sound(start, lib, cell, rank) && start.f.InFlight?
    ensures TouchedOnce(start, Travel(start, times), rank)
  {
    if times != [] {
      var before := times[..|times| - 1];
      JourneyTouchesOnce(start, lib, before, cell, rank);
      JourneyGoesDown(start, lib, before, cell, rank);
      var l := Travel(start, before);
      if l.f.InFlight? {
        var now := times[|times| - 1];
        HopOutcome(l, lib, now, cell, rank);
        HopWorld(l, now);
        TouchedThen(start, l, Hop(l, now), now, rank);
      }
    }
  }

  // With a rank that presence entries descend, a message started at rank r is forwarded at
  // most r times, arrives at each hop unharmed, and after r + 1 hops at the latest rests at
  // exactly one node, as exactly one new copy.
  lemma MessageLands(w: World, lib: Library, at: string, pkt: Packet, times: seq<int>, cell: string, rank: string -> nat)
    requires Honest(w, lib) && Ranked(w, cell, rank) && "" !in w && cell !in w && at in w
    requires pkt.body.kind == MSG && ParseAddr(pkt.body.toAddr).0 == Some(cell)
    requires |times| > rank(at)
    ensures var end := Travel(Leg(w, InFlight(at, pkt), 0), times);
            end.forwards <= rank(at) && RestsOnceMore(w, end.w, end.f, pkt.body)
  {
    JourneyGoesDown(Leg(w, InFlight(at, pkt), 0), lib, times, cell, rank);
  }
}
