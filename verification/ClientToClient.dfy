// The whole way of a message: from the client that encrypts it, through the routing of a
// network of nodes, to the client that decrypts it.
module ClientToClient {
  import opened Text
  import opened Primitives
  import opened Protocol
  import opened Auth
  import opened Machine
  import opened Ledger
  import opened Fates
  import opened Hops
  import opened Circles
  import opened EndToEnd
  import D = Delivery
  import N = Network

  /** What the sender's client puts on its socket, connected to the node `at`. */
  function FromClient(lib: Library, sender: Identity, at: string, recipient: Identity, toNode: string,
                      plaintext: Bytes, ephemeral: Bytes, nonce: Bytes, uuid: string, ts: int): Packet
  {
    var e := Encrypt(lib, plaintext, lib.dhPub(recipient.encKey), ephemeral, nonce);
    Signed(lib, Compose(lib, IdOf(lib, sender), at, IdOf(lib, recipient), toNode, e, uuid, ts), sender.signKey)
  }

  /** Whatever copy of the message a node has sent, the recipient reads it as this. */
  ghost predicate ReadsAs(lib: Library, h: Host, b: Body, encKey: Bytes, message: Delivery) {
    forall i :: 0 <= i < |h.s.log| && h.s.log[i].Sent? && h.s.log[i].pkt.body == b ==>
      ClientReads(lib, encKey, lib.signPub(h.c.who.signKey), Pack(lib, h.s.log[i].pkt)) == Some(message)
  }

  lemma AddressedToCell(lib: Library, recipient: Identity, toNode: string)
    ensures ParseAddr(IdOf(lib, recipient) + "@" + toNode).0 == Some(IdOf(lib, recipient))
  {
    HexShape(lib.signPub(recipient.signKey));
    ParseAddrMeaning(IdOf(lib, recipient) + "@" + toNode, IdOf(lib, recipient), toNode);
  }

  lemma SentCopiesRead(lib: Library, h: Host, id: string, b: Body, encKey: Bytes, plaintext: Bytes,
                       ephemeral: Bytes, nonce: Bytes)
    requires lib.CodecLaw() && lib.SigningLaw() && lib.ExchangeLaw() && lib.AeadLaw()
    requires HonestHost(h, lib, id) && b.kind == MSG
    requires b.payload == SealedPayload(lib, Encrypt(lib, plaintext, lib.dhPub(encKey), ephemeral, nonce))
    ensures ReadsAs(lib, h, b, encKey, Delivery(b.fromAddr, plaintext))
  {
    forall i | 0 <= i < |h.s.log| && h.s.log[i].Sent? && h.s.log[i].pkt.body == b
      ensures ClientReads(lib, encKey, lib.signPub(h.c.who.signKey), Pack(lib, h.s.log[i].pkt))
           == Some(Delivery(b.fromAddr, plaintext))
    {
      LastHopDelivers(lib, h.s.log[i].pkt, h.c.who.signKey, encKey, plaintext, ephemeral, nonce);
    }
  }

  /** The cell is handed the message where it is routed, if it is at home there and its
      connection takes it; if rows name nodes only, it is handed it in no other case. */
  ghost predicate HandedExactly(h: Host, h1: Host, cell: string, b: Body) {
    var here := EndsHere(h.c, h.s, cell) && CellTakes(h.c, h.s, cell);
    && (here ==> D.SentOver(h.c, h.s, h1.s, CellConns(h.c, h.s, cell)[cell], b))
    && (D.NamesNodes(h.s, cell) ==> (D.SentToCell(h.c, h.s, h1.s, cell, b) <==> here))
  }

  lemma RoutedHandsExactly(h: Host, lib: Library, id: string, pkt: Packet, now: int, cell: string)
    requires HonestHost(h, lib, id) && ParseAddr(pkt.body.toAddr).0 == Some(cell)
    ensures HandedExactly(h, HostAfter(h, pkt, now), cell, pkt.body)
  {
    if EndsHere(h.c, h.s, cell) {
      D.HandedOver(h.c, h.s, pkt, now, cell);
    }
    if D.NamesNodes(h.s, cell) {
      D.SentToCellExactly(h.c, h.s, pkt, now, cell);
    }
  }

  lemma LandedHandsExactly(start: Leg, lib: Library, times: seq<int>, cell: string, rank: string -> nat)
    requires Sound(start, lib, cell, rank) && start.f.InFlight? && Travel(start, times).f.Landed?
    ensures var end := Travel(start, times);
            end.f.at in start.w && end.f.at in end.w
            && HandedExactly(start.w[end.f.at], end.w[end.f.at], cell, start.f.pkt.body)
  {
    JourneyTouchesOnce(start, lib, times, cell, rank);
    var end := Travel(start, times);
    var h := start.w[end.f.at];
    var pkt, now :| RoutedAs(h, end.w[end.f.at], pkt, now, start.f.pkt.body);
    RoutedHandsExactly(h, lib, end.f.at, pkt, now, cell);
  }

  // A message that a client sends is accepted by its node, is forwarded at most as often as
  // that node ranks, and comes to rest at exactly one node, once. There it is handed to the
  // recipient exactly when that node, as it was at the start, has the recipient at home and a
  // live connection to it; and every copy that any node ever sent of it, that one among
  // them, gives the recipient the plaintext and the sender's address.
  lemma SentMessageArrives(w: World, lib: Library, at: string, sender: Identity, recipient: Identity, toNode: string,
                           plaintext: Bytes, ephemeral: Bytes, nonce: Bytes, uuid: string, ts: int,
                           times: seq<int>, rank: string -> nat)
    requires lib.ExchangeLaw() && lib.AeadLaw() && Honest(w, lib)
    requires at in w && "" !in w && IdOf(lib, recipient) !in w
    requires Ranked(w, IdOf(lib, recipient), rank) && |times| > rank(at)
    ensures var pkt := FromClient(lib, sender, at, recipient, toNode, plaintext, ephemeral, nonce, uuid, ts);
            var end := Travel(Leg(w, InFlight(at, pkt), 0), times);
            && Genuine(w[at].c, Pack(lib, pkt), PeerConn(lib, sender)) == Some(pkt)
            && end.forwards <= rank(at) && RestsOnceMore(w, end.w, end.f, pkt.body)
            && HandedExactly(w[end.f.at], end.w[end.f.at], IdOf(lib, recipient), pkt.body)
            && forall id :: id in end.w ==>
                 ReadsAs(lib, end.w[id], pkt.body, recipient.encKey, Delivery(IdOf(lib, sender) + "@" + at, plaintext))
  {
    var cell := IdOf(lib, recipient);
    var pkt := FromClient(lib, sender, at, recipient, toNode, plaintext, ephemeral, nonce, uuid, ts);
    ClientPacket(lib, sender, at, recipient, toNode, plaintext, ephemeral, nonce, uuid, ts, w[at].c);
    var start := Leg(w, InFlight(at, pkt), 0);
    JourneyGoesDown(start, lib, times, cell, rank);
    MessageLands(w, lib, at, pkt, times, cell, rank);
    LandedHandsExactly(start, lib, times, cell, rank);
    var end := Travel(start, times);
    forall id | id in end.w
      ensures ReadsAs(lib, end.w[id], pkt.body, recipient.encKey, Delivery(IdOf(lib, sender) + "@" + at, plaintext))
    {
      SentCopiesRead(lib, end.w[id], id, pkt.body, recipient.encKey, plaintext, ephemeral, nonce);
    }
  }

  lemma ClientPacket(lib: Library, sender: Identity, at: string, recipient: Identity, toNode: string,
                     plaintext: Bytes, ephemeral: Bytes, nonce: Bytes, uuid: string, ts: int, c: Config)
    requires lib.CodecLaw() && lib.SigningLaw() && c.lib == lib
    ensures var pkt := FromClient(lib, sender, at, recipient, toNode, plaintext, ephemeral, nonce, uuid, ts);
            && Genuine(c, Pack(lib, pkt), PeerConn(lib, sender)) == Some(pkt)
            && pkt.body.id == uuid && pkt.body.ts == ts && pkt.v == PROTO_VERSION
            && pkt.body.toAddr == IdOf(lib, recipient) + "@" + toNode
            && pkt.body.kind == MSG && ParseAddr(pkt.body.toAddr).0 == Some(IdOf(lib, recipient))
            && pkt.body.fromAddr == IdOf(lib, sender) + "@" + at
            && pkt.body.payload
               == SealedPayload(lib, Encrypt(lib, plaintext, lib.dhPub(recipient.encKey), ephemeral, nonce))
  {
    var e := Encrypt(lib, plaintext, lib.dhPub(recipient.encKey), ephemeral, nonce);
    HopAccepted(lib, Compose(lib, IdOf(lib, sender), at, IdOf(lib, recipient), toNode, e, uuid, ts), sender.signKey);
    AddressedToCell(lib, recipient, toNode);
  }

  // --- without a rank ---

  /** A message that ends its walk at this node is handed to the cell. */
  predicate HandsOver(h: Host, cell: string) {
    if Stops(h, cell) then (cell in h.s.presence || cell in h.s.cells) && cell != "" && cell in h.s.conns
    else Target(h.s.presence[cell]) == cell
  }

  /** The last thing the node did was to send the message to the cell. */
  predicate LastSent(h: Host, cell: string, b: Body) {
    h.s.log != [] &&
    var f := h.s.log[|h.s.log| - 1];
    f.Sent? && f.conn.peerNodeId == cell && f.pkt.body == b && f.pkt == Signed(h.c.lib, f.pkt, h.c.who.signKey)
  }

  /** The message has landed, and the node where it did sent it to the cell. */
  predicate GotBy(l: Leg, cell: string, b: Body) {
    l.f.Landed? && l.f.at in l.w && LastSent(l.w[l.f.at], cell, b)
  }

  lemma StopHandsOver(h: Host, lib: Library, id: string, pkt: Packet, now: int, cell: string)
    requires GetsThrough(h, lib, id, cell) && Stops(h, cell)
    requires ParseAddr(pkt.body.toAddr).0 == Some(cell)
    ensures var t := Route(h.c, h.s, pkt, now).s;
            && |t.log| == |h.s.log| + 1
            && (HandsOver(h, cell) <==> D.SentToCell(h.c, h.s, t, cell, pkt.body))
            && (t.log[|h.s.log|].Sent? ==> HandsOver(h, cell))
  {
    EndsLocally(h, lib, id, pkt, now, cell);
    D.LocalSend(h.c, h.s, pkt, cell);
    if cell in h.s.presence || cell in h.s.cells {
      assert Route(h.c, h.s, pkt, now).s == DeliverLocal(h.c, h.s, pkt).s;
      DeliverLocalTried(h.c, h.s, pkt);
    }
  }

  lemma TargetHandsOver(h: Host, lib: Library, id: string, pkt: Packet, now: int, cell: string)
    requires GetsThrough(h, lib, id, cell) && !Stops(h, cell)
    requires ParseAddr(pkt.body.toAddr).0 == Some(cell)
    ensures var t := Route(h.c, h.s, pkt, now).s;
            && |t.log| == |h.s.log| + 1
            && (HandsOver(h, cell) <==> D.SentToCell(h.c, h.s, t, cell, pkt.body))
  {
    LeavesForTarget(h, lib, id, pkt, now, cell);
    RouteTried(h.c, h.s, pkt, now);
    var t := Route(h.c, h.s, pkt, now).s;
    if HandsOver(h, cell) {
      assert D.SentOver(h.c, h.s, t, t.log[|h.s.log|].conn, pkt.body);
    }
  }

  lemma LastHopHandsOver(l: Leg, lib: Library, now: int, cell: string)
    requires AllGetThrough(l.w, lib, cell) && Moving(l) && ParseAddr(l.f.pkt.body.toAddr).0 == Some(cell)
    requires !Onward(l.w, cell, l.f.at)
    ensures Hop(l, now).f == Landed(l.f.at)
    ensures GotBy(Hop(l, now), cell, l.f.pkt.body) <==> HandsOver(l.w[l.f.at], cell)
  {
    var h, pkt := l.w[l.f.at], l.f.pkt;
    LastHop(l, lib, now, cell);
    HopWorld(l, now);
    if Stops(h, cell) {
      StopHandsOver(h, lib, l.f.at, pkt, now, cell);
    } else {
      TargetHandsOver(h, lib, l.f.at, pkt, now, cell);
    }
    SentIsLast(h, pkt, now, cell);
  }

  lemma SentIsLast(h: Host, pkt: Packet, now: int, cell: string)
    requires |Route(h.c, h.s, pkt, now).s.log| == |h.s.log| + 1
    ensures var t := Route(h.c, h.s, pkt, now).s;
            var f := t.log[|h.s.log|];
            D.SentToCell(h.c, h.s, t, cell, pkt.body)
            <==> f.Sent? && f.conn.peerNodeId == cell && f.pkt.body == pkt.body
                 && f.pkt == Signed(h.c.lib, f.pkt, h.c.who.signKey)
  {
    RouteTried(h.c, h.s, pkt, now);
    var t := Route(h.c, h.s, pkt, now).s;
    if t.log[|h.s.log|].Sent? && D.SentOver(h.c, h.s, t, t.log[|h.s.log|].conn, pkt.body) {
      assert t.log[|h.s.log|].conn.peerNodeId == cell ==> D.SentToCell(h.c, h.s, t, cell, pkt.body);
    }
  }

  lemma {:induction false} LandsHandsOver(start: Leg, lib: Library, times: seq<int>, cell: string)
    requires AllGetThrough(start.w, lib, cell) && Moving(start)
    requires ParseAddr(start.f.pkt.body.toAddr).0 == Some(cell)
    ensures var l := Travel(start, times);
            l.f.Landed? ==> l.f.at in start.w && (GotBy(l, cell, start.f.pkt.body) <==> HandsOver(start.w[l.f.at], cell))
  {
    if times != [] {
      var n, now := |times| - 1, times[|times| - 1];
      LandsHandsOver(start, lib, times[..n], cell);
      TravelExact(start, lib, times[..n], cell);
      var l := Travel(start, times[..n]);
      if l.f.InFlight? {
        WalkStays(start.w, start.f.at, cell, n);
        LandsNow(start, l, lib, now, cell);
      }
    }
  }

  lemma LandsNow(start: Leg, l: Leg, lib: Library, now: int, cell: string)
    requires AllGetThrough(l.w, lib, cell) && Moving(l) && SameRows(start.w, l.w, cell)
    requires ParseAddr(l.f.pkt.body.toAddr).0 == Some(cell)
    ensures var l1 := Hop(l, now);
            l1.f.Landed? ==> l1.f.at in start.w && (GotBy(l1, cell, l.f.pkt.body) <==> HandsOver(start.w[l1.f.at], cell))
  {
    if Onward(l.w, cell, l.f.at) {
      ForwardHop(l, lib, now, cell);
    } else {
      LastHopHandsOver(l, lib, now, cell);
    }
  }

  /** The walk ends, after k steps, at a node that hands the message over. */
  ghost predicate WalkEndsWell(w: World, at: string, cell: string, k: nat) {
    Moves(w, at, cell, k) && Walk(w, at, cell, k) in w && HandsOver(w[Walk(w, at, cell, k)], cell)
  }

  // Who gets a message, exactly, in a network whose sends go through: following one entry of
  // each presence row from the first node on, no more often than there are nodes, leads to a
  // node that has the cell at home and connected - if and only if the cell gets it.
  lemma ArrivesExactly(start: Leg, lib: Library, times: seq<int>, cell: string)
    requires AllGetThrough(start.w, lib, cell) && Moving(start)
    requires ParseAddr(start.f.pkt.body.toAddr).0 == Some(cell)
    requires |times| > |start.w|
    ensures GotBy(Travel(start, times), cell, start.f.pkt.body)
            <==> exists k: nat :: k <= |start.w| && WalkEndsWell(start.w, start.f.at, cell, k)
  {
    var end := Travel(start, times);
    TravelExact(start, lib, times, cell);
    LandsExactly(start, lib, times, cell);
    LandsHandsOver(start, lib, times, cell);
    if end.f.Landed? {
      WalkStays(start.w, start.f.at, cell, end.forwards - start.forwards);
    }
    EndsWellThere(start, end, cell, |times|);
  }

  lemma EndsWellThere(start: Leg, end: Leg, cell: string, n: nat)
    requires Moving(start) && end.forwards >= start.forwards && Follows(start, end, cell, n) && cell !in start.w
    requires n > |start.w| && (end.f.Landed? ==> end.forwards - start.forwards < |start.w| && end.f.at in start.w)
    ensures end.f.Landed? && HandsOver(start.w[end.f.at], cell)
            <==> exists k: nat :: k <= |start.w| && WalkEndsWell(start.w, start.f.at, cell, k)
  {
    var w, at := start.w, start.f.at;
    forall k: nat | k <= |w| && WalkEndsWell(w, at, cell, k)
      ensures end.f.Landed? && end.f.at == Walk(w, at, cell, k)
    {
      EndsThere(w, at, cell, k);
    }
    if end.f.Landed? && HandsOver(w[end.f.at], cell) {
      assert WalkEndsWell(w, at, cell, end.forwards - start.forwards);
    }
  }

  lemma EndsThere(w: World, at: string, cell: string, k: nat)
    requires WalkEndsWell(w, at, cell, k) && cell !in w
    ensures !Moves(w, at, cell, k + 1)
  {
  }

  // And what the cell's client then reads is what the sender's client encrypted.
  lemma LastSentIsRead(h: Host, lib: Library, cell: string, b: Body, encKey: Bytes, plaintext: Bytes,
                       ephemeral: Bytes, nonce: Bytes)
    requires lib.CodecLaw() && lib.SigningLaw() && lib.ExchangeLaw() && lib.AeadLaw()
    requires h.c.lib == lib && LastSent(h, cell, b) && b.kind == MSG
    requires b.payload == SealedPayload(lib, Encrypt(lib, plaintext, lib.dhPub(encKey), ephemeral, nonce))
    ensures ClientReads(lib, encKey, lib.signPub(h.c.who.signKey), Pack(lib, h.s.log[|h.s.log| - 1].pkt))
         == Some(Delivery(b.fromAddr, plaintext))
  {
    LastHopDelivers(lib, h.s.log[|h.s.log| - 1].pkt, h.c.who.signKey, encKey, plaintext, ephemeral, nonce);
  }

  // The same of a network in any interleaving: whoever sent a copy, the recipient reads it.
  lemma NetworkCopiesRead(n: N.Net, lib: Library, b: Body, encKey: Bytes, plaintext: Bytes, ephemeral: Bytes, nonce: Bytes)
    requires lib.ExchangeLaw() && lib.AeadLaw() && N.Sane(n, lib) && b.kind == MSG
    requires b.payload == SealedPayload(lib, Encrypt(lib, plaintext, lib.dhPub(encKey), ephemeral, nonce))
    ensures forall id :: id in n.w ==> ReadsAs(lib, n.w[id], b, encKey, Delivery(b.fromAddr, plaintext))
  {
    forall id | id in n.w
      ensures ReadsAs(lib, n.w[id], b, encKey, Delivery(b.fromAddr, plaintext))
    {
      SentCopiesRead(lib, n.w[id], id, b, encKey, plaintext, ephemeral, nonce);
    }
  }
}
