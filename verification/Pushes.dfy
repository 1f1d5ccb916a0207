// The pushes of the spreading argument are what nodes really send in their rounds and what
// their receive loops really merge.
module Pushes {
  import opened Text
  import opened Primitives
  import opened Protocol
  import opened Tables
  import opened Merge
  import opened Machine
  import opened Ledger
  import opened Invariants
  import opened NodeHistory
  import S = Spread

  /** From index n on, every gossip packet in the log carries this payload. */
  ghost predicate PushesOnly(log: seq<Fate>, n: nat, payload: Bytes) {
    forall i :: n <= i < |log| && log[i].Sent? && log[i].pkt.body.kind == GOSSIP ==> log[i].pkt.body.payload == payload
  }

  ghost predicate Grows(log: seq<Fate>, log1: seq<Fate>) {
    |log| <= |log1| && log1[..|log|] == log
  }

  /** From index n on there is no gossip packet in the log. */
  ghost predicate Pushless(log: seq<Fate>, n: nat) {
    forall i :: n <= i < |log| ==> !(log[i].Sent? && log[i].pkt.body.kind == GOSSIP)
  }

  ghost predicate GrowsPushless(log: seq<Fate>, log1: seq<Fate>) {
    Grows(log, log1) && Pushless(log1, |log|)
  }

  lemma GrowsThen(a: seq<Fate>, b: seq<Fate>, d: seq<Fate>)
    requires GrowsPushless(a, b) && GrowsPushless(b, d)
    ensures GrowsPushless(a, d)
  {
    assert d[..|a|] == d[..|b|][..|a|];
    assert forall i :: |a| <= i < |b| ==> d[i] == d[..|b|][i];
  }

  lemma PingPushless(c: Config, s: State, id: string, now: int)
    ensures GrowsPushless(s.log, PingNode(c, s, id, now).log)
  {
    var (s1, conn) := if id in s.conns then (s, Some(s.conns[id])) else ConnectToNode(c, s, id);
    ConnectSettlesNothing(c, s, id);
    if conn.Some? {
      SendGrows(c, s1, conn.value, MakePing(c, Uuid(c, s1), id, now));
    }
  }

  lemma SendGrows(c: Config, s: State, conn: Conn, pkt: Packet)
    ensures var t := SendVia(c, s, conn, pkt).s;
            && Grows(s.log, t.log) && t.nodes == s.nodes
            && forall i :: |s.log| <= i < |t.log| ==> t.log[i].Sent? && t.log[i].pkt.body == pkt.body
  {
  }

  lemma {:induction false} PingAllPushless(c: Config, s: State, ids: seq<string>, now: int)
    ensures GrowsPushless(s.log, PingAll(c, s, ids, now).log)
    decreases |ids|
  {
    if ids != [] {
      var s1 := if ids[0] == Me(c) then s else PingNode(c, s, ids[0], now);
      PingPushless(c, s, ids[0], now);
      PingAllPushless(c, s1, ids[1..], now);
      GrowsThen(s.log, s1.log, PingAll(c, s1, ids[1..], now).log);
    }
  }

  lemma {:induction false} ExchangePushes(c: Config, s: State, peers: seq<string>, listing: seq<string>, now: int)
    requires forall id :: id in listing ==> id in s.nodes
    ensures var t := Exchange(c, s, peers, listing, now);
            Grows(s.log, t.log) && PushesOnly(t.log, |s.log|, GossipPayload(c.lib, s.nodes, listing))
    decreases |peers|
  {
    if peers != [] {
      var payload := GossipPayload(c.lib, s.nodes, listing);
      var s1 := s;
      if peers[0] in s.conns {
        var push := MakeGossip(c, Uuid(c, s), s.nodes, listing, now);
        s1 := SendVia(c, s, s.conns[peers[0]], push).s;
        SendGrows(c, s, s.conns[peers[0]], push);
      }
      ExchangePushes(c, s1, peers[1..], listing, now);
      PushesThen(s.log, s1.log, Exchange(c, s1, peers[1..], listing, now).log, payload);
    }
  }

  lemma PushesThen(a: seq<Fate>, b: seq<Fate>, d: seq<Fate>, payload: Bytes)
    requires Grows(a, b) && PushesOnly(b, |a|, payload) && Grows(b, d) && PushesOnly(d, |b|, payload)
    ensures Grows(a, d) && PushesOnly(d, |a|, payload)
  {
    assert d[..|a|] == d[..|b|][..|a|];
    assert forall i :: |a| <= i < |b| ==> d[i] == d[..|b|][i];
  }

  // Every gossip packet of a round is a snapshot of the table the round leaves behind.
  lemma RoundPushes(c: Config, s: State, ids: seq<string>, peers: seq<string>, listing: seq<string>, now: int)
    requires RoundOrders(c, s, ids, peers, listing, now)
    ensures var t := Round(c, s, ids, peers, listing, now);
            && Lists(listing, t.nodes.Keys)
            && (forall id :: id in listing ==> id in t.nodes)
            && PushesOnly(t.log, |s.log|, GossipPayload(c.lib, t.nodes, listing))
  {
    var pinged, cleaned := PingAll(c, s, ids, now), BeforeExchange(c, s, ids, now);
    PingAllPushless(c, s, ids, now);
    CleanupGrows(pinged, now);
    GrowsThen(s.log, pinged.log, cleaned.log);
    forall id | id in listing
      ensures id in cleaned.nodes
    {
      assert id in cleaned.nodes.Keys;
    }
    ExchangePushes(c, cleaned, peers, listing, now);
    PushlessPushes(s.log, cleaned.log, GossipPayload(c.lib, cleaned.nodes, listing));
    PushesThen(s.log, cleaned.log, Round(c, s, ids, peers, listing, now).log, GossipPayload(c.lib, cleaned.nodes, listing));
  }

  lemma CleanupGrows(s: State, now: int)
    ensures GrowsPushless(s.log, Cleanup(s, now).log)
  {
  }

  lemma PushlessPushes(a: seq<Fate>, b: seq<Fate>, payload: Bytes)
    requires GrowsPushless(a, b)
    ensures PushesOnly(b, |a|, payload)
  {
  }

  /** After the push of u, the table has its own rows as they were, and for each id that is new
      a row, online as of now, with the address, type and access that u has. */
  ghost predicate Learns(r: NodeTable, u: NodeTable, r1: NodeTable, now: int) {
    && r1.Keys == r.Keys + u.Keys
    && (forall id :: id in r ==> r1[id] == r[id])
    && forall id :: id in u && id !in r ==>
         r1[id] == NodeRow(u[id].address, u[id].nodeType, u[id].access, [], "", now, 0, ONLINE, now)
  }

  // A push that a node sent in a round, when it reaches another node, is merged there; the
  // other then knows whatever it knew and every id in the sender's table, as that has it.
  lemma PushIsMerged(c: Config, s: State, ids: seq<string>, peers: seq<string>, listing: seq<string>, now: int,
                     i: nat, receiver: Config, r: State, conn: Conn, later: int)
    requires c.lib.CodecLaw() && c.lib.SigningLaw() && RoundOrders(c, s, ids, peers, listing, now)
    requires AllSigned(c, s.log)
    requires var t := Round(c, s, ids, peers, listing, now);
             && |s.log| <= i < |t.log| && t.log[i].Sent? && t.log[i].pkt.body.kind == GOSSIP
             && S.Clean(t.nodes)
    requires receiver.lib == c.lib && ProvenBy(conn, c)
    ensures var t := Round(c, s, ids, peers, listing, now);
            var raw := Pack(c.lib, t.log[i].pkt);
            && ReceiveOrder(receiver, r, raw, conn, later, [])
            && Learns(r.nodes, t.nodes, Receive(receiver, r, raw, conn, later, []).nodes, later)
  {
    var t := Round(c, s, ids, peers, listing, now);
    RoundPushes(c, s, ids, peers, listing, now);
    PushAccepted(c, s, ids, peers, listing, now, i, receiver, conn);
    MergedOnArrival(receiver, r, t.log[i].pkt, Pack(c.lib, t.log[i].pkt), conn, later);
    SnapshotMerged(c.lib, t.nodes, listing, r.nodes, later);
  }

  lemma PushAccepted(c: Config, s: State, ids: seq<string>, peers: seq<string>, listing: seq<string>, now: int,
                     i: nat, receiver: Config, conn: Conn)
    requires c.lib.CodecLaw() && c.lib.SigningLaw() && RoundOrders(c, s, ids, peers, listing, now)
    requires AllSigned(c, s.log) && receiver.lib == c.lib && ProvenBy(conn, c)
    requires i < |Round(c, s, ids, peers, listing, now).log| && Round(c, s, ids, peers, listing, now).log[i].Sent?
    ensures var pkt := Round(c, s, ids, peers, listing, now).log[i].pkt;
            Genuine(receiver, Pack(c.lib, pkt), conn) == Some(pkt)
  {
    RoundKeeps(c, s, ids, peers, listing, now);
    HopAccepted(c.lib, Round(c, s, ids, peers, listing, now).log[i].pkt, c.who.signKey);
  }

  lemma SnapshotMerged(lib: Library, t: NodeTable, listing: seq<string>, r: NodeTable, now: int)
    requires lib.CodecLaw() && S.Clean(t) && Lists(listing, t.Keys)
    requires forall id :: id in listing ==> id in t
    ensures Learns(r, t, MergeOf(r, DecodeGossip(lib, GossipPayload(lib, t, listing)), now), now)
  {
    var entries := DecodeGossip(lib, GossipPayload(lib, t, listing));
    S.SnapshotTeaches(lib, t, listing, "");
    GossipRoundTrip(lib, t, listing);
    LegibleHeeded(r.Keys, entries);
    forall id | id in t && id !in r
      ensures MergeOf(r, entries, now)[id]
           == NodeRow(t[id].address, t[id].nodeType, t[id].access, [], "", now, 0, ONLINE, now)
    {
      FirstOfRows(t, listing, id);
    }
  }

  lemma MergedOnArrival(c: Config, s: State, pkt: Packet, raw: Bytes, conn: Conn, now: int)
    requires Genuine(c, raw, conn) == Some(pkt) && pkt.body.kind == GOSSIP
    ensures ReceiveOrder(c, s, raw, conn, now, [])
    ensures Receive(c, s, raw, conn, now, []).nodes == MergeOf(s.nodes, DecodeGossip(c.lib, pkt.body.payload), now)
  {
    ControlNodes(c, s, pkt, conn, now);
  }
}
