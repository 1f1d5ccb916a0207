// What a gossip round sends: after the pings and the cleanup, one push of the table that is
// left to each sampled peer that is connected and takes it, in the order of the sample.
module Rounds {
  import opened Protocol
  import opened Tables
  import opened Merge
  import opened Machine

  /** The peers that take a push, from this tick on: an attempt on each that is connected. */
  function Takers(c: Config, conns: map<string, Conn>, peers: seq<string>, tick: nat): (r: seq<string>)
    ensures forall p :: p in r ==> p in conns && p in peers
  {
    if peers == [] then []
    else if peers[0] !in conns then Takers(c, conns, peers[1..], tick)
    else (if c.luck(tick).delivered then [peers[0]] else []) + Takers(c, conns, peers[1..], tick + 1)
  }

  /** How many of them are connected. */
  function Tries(conns: map<string, Conn>, peers: seq<string>): nat {
    if peers == [] then 0 else (if peers[0] in conns then 1 else 0) + Tries(conns, peers[1..])
  }

  /** A gossip packet of ours that tells of exactly the rows of u, in this order. */
  ghost predicate TellsOf(c: Config, p: Packet, u: NodeTable, listing: seq<string>, now: int)
    requires forall id :: id in listing ==> id in u
  {
    && p.body.kind == "gossip" && p.body.fromAddr == Me(c) && p.body.toAddr == "" && p.body.ts == now
    && p.v == PROTO_VERSION && p == Signed(c.lib, p, c.who.signKey)
    && var entries := DecodeGossip(c.lib, p.body.payload);
       AllLegible(entries) && AllHeard(entries) == HeardOf(u, listing)
  }

  /** log1 is log and one push for each taker, over its connection. */
  ghost predicate PushedTo(c: Config, log: seq<Fate>, log1: seq<Fate>, conns: map<string, Conn>, takers: seq<string>,
                           u: NodeTable, listing: seq<string>, now: int)
    requires (forall id :: id in listing ==> id in u) && forall p :: p in takers ==> p in conns
  {
    && |log1| == |log| + |takers| && log1[..|log|] == log
    && forall i :: 0 <= i < |takers| ==> PushEntry(c, log1[|log| + i], conns[takers[i]], u, listing, now)
  }

  ghost predicate PushEntry(c: Config, f: Fate, conn: Conn, u: NodeTable, listing: seq<string>, now: int)
    requires forall id :: id in listing ==> id in u
  {
    f.Sent? && f.conn == conn && TellsOf(c, f.pkt, u, listing, now)
  }

  /** One attempt to push: one more tick, and one push if it goes through. */
  ghost predicate OnePushed(c: Config, s: State, s1: State, conn: Conn, listing: seq<string>, now: int)
    requires forall id :: id in listing ==> id in s.nodes
  {
    && s1.nodes == s.nodes && s1.conns == s.conns && s1.tick == s.tick + 1
    && (if c.luck(s.tick).delivered
        then |s1.log| == |s.log| + 1 && s1.log[..|s.log|] == s.log
             && PushEntry(c, s1.log[|s.log|], conn, s.nodes, listing, now)
        else s1.log == s.log)
  }

  lemma OnePush(c: Config, s: State, conn: Conn, listing: seq<string>, now: int)
    requires c.lib.CodecLaw() && forall id :: id in listing ==> id in s.nodes
    ensures OnePushed(c, s, SendVia(c, s, conn, MakeGossip(c, Uuid(c, s), s.nodes, listing, now)).s, conn, listing, now)
  {
    GossipRoundTrip(c.lib, s.nodes, listing);
  }

  lemma PushedThen(c: Config, log: seq<Fate>, log1: seq<Fate>, log2: seq<Fate>, conns: map<string, Conn>, first: string,
                   rest: seq<string>, u: NodeTable, listing: seq<string>, now: int)
    requires (forall id :: id in listing ==> id in u) && (forall p :: p in rest ==> p in conns) && first in conns
    requires |log1| == |log| + 1 && log1[..|log|] == log && PushEntry(c, log1[|log|], conns[first], u, listing, now)
    requires PushedTo(c, log1, log2, conns, rest, u, listing, now)
    ensures PushedTo(c, log, log2, conns, [first] + rest, u, listing, now)
  {
    var takers := [first] + rest;
    assert log2[..|log|] == log2[..|log1|][..|log|] == log;
    forall i | 0 <= i < |takers|
      ensures PushEntry(c, log2[|log| + i], conns[takers[i]], u, listing, now)
    {
      if i == 0 {
        assert log2[|log|] == log2[..|log1|][|log|];
      } else {
        assert takers[i] == rest[i - 1] && log2[|log| + i] == log2[|log1| + (i - 1)];
      }
    }
  }

  /** All attempts on these peers: a push for each taker, one tick for each that is connected. */
  ghost predicate AllPushed(c: Config, s: State, t: State, peers: seq<string>, listing: seq<string>, now: int)
    requires forall id :: id in listing ==> id in s.nodes
  {
    && t.nodes == s.nodes && t.conns == s.conns && t.tick == s.tick + Tries(s.conns, peers)
    && PushedTo(c, s.log, t.log, s.conns, Takers(c, s.conns, peers, s.tick), s.nodes, listing, now)
  }

  lemma FirstPush(c: Config, s: State, s1: State, t: State, peers: seq<string>, listing: seq<string>, now: int)
    requires (forall id :: id in listing ==> id in s.nodes) && peers != [] && peers[0] in s.conns
    requires OnePushed(c, s, s1, s.conns[peers[0]], listing, now) && AllPushed(c, s1, t, peers[1..], listing, now)
    ensures AllPushed(c, s, t, peers, listing, now)
  {
    var rest := Takers(c, s.conns, peers[1..], s.tick + 1);
    if c.luck(s.tick).delivered {
      PushedThen(c, s.log, s1.log, t.log, s.conns, peers[0], rest, s.nodes, listing, now);
    } else {
      assert [] + rest == rest;
    }
  }

  lemma {:induction false} ExchangeExact(c: Config, s: State, peers: seq<string>, listing: seq<string>, now: int)
    requires c.lib.CodecLaw() && forall id :: id in listing ==> id in s.nodes
    ensures AllPushed(c, s, Exchange(c, s, peers, listing, now), peers, listing, now)
    decreases |peers|
  {
    if peers != [] {
      if peers[0] in s.conns {
        var s1 := SendVia(c, s, s.conns[peers[0]], MakeGossip(c, Uuid(c, s), s.nodes, listing, now)).s;
        OnePush(c, s, s.conns[peers[0]], listing, now);
        ExchangeExact(c, s1, peers[1..], listing, now);
        FirstPush(c, s, s1, Exchange(c, s1, peers[1..], listing, now), peers, listing, now);
      } else {
        ExchangeExact(c, s, peers[1..], listing, now);
      }
    }
  }

  /** A sample as the round draws it: distinct peers that were online, three or all there are. */
  ghost predicate Sampled(c: Config, t: NodeTable, peers: seq<string>) {
    && (forall i, j :: 0 <= i < j < |peers| ==> peers[i] != peers[j])
    && (forall p :: p in peers ==> p in t && t[p].status == "online" && p != Me(c))
    && |peers| <= 3
    && (|peers| < 3 ==> forall p :: p in t && t[p].status == "online" && p != Me(c) ==> p in peers)
  }

  lemma DrawnSample(c: Config, t: NodeTable, peers: seq<string>)
    requires Sample(c, t, peers)
    ensures Sampled(c, t, peers)
  {
    var online, drawn := OnlinePeers(c, t), set p | p in peers;
    if |peers| < 3 {
      DistinctSize(peers);
      SameSize(drawn, online);
      forall p | p in t && t[p].status == "online" && p != Me(c)
        ensures p in peers
      {
        assert p in online && p in drawn;
      }
    }
  }

  // What a round sends after its pings and its cleanup, entry by entry: one push of the table
  // that is left for each sampled, connected peer whose send goes through, in sample order,
  // and nothing else.
  lemma RoundExact(c: Config, s: State, ids: seq<string>, peers: seq<string>, listing: seq<string>, now: int)
    requires c.lib.CodecLaw() && RoundOrders(c, s, ids, peers, listing, now)
    ensures var s0, t := BeforeExchange(c, s, ids, now), Round(c, s, ids, peers, listing, now);
            && Sampled(c, s.nodes, peers)
            && t.nodes == s0.nodes && t.conns == s0.conns
            && Lists(listing, t.nodes.Keys) && (forall id :: id in listing ==> id in t.nodes)
            && PushedTo(c, s0.log, t.log, s0.conns, Takers(c, s0.conns, peers, s0.tick), t.nodes, listing, now)
  {
    var s0 := BeforeExchange(c, s, ids, now);
    DrawnSample(c, s.nodes, peers);
    forall id | id in listing
      ensures id in s0.nodes
    {
      assert id in s0.nodes.Keys;
    }
    ExchangeExact(c, s0, peers, listing, now);
  }

  // Which peers those are: of distinct peers the i-th takes a push exactly when it is connected
  // and the attempt that is its own goes through; and it takes no more than one.
  lemma {:induction false} TakerExactly(c: Config, conns: map<string, Conn>, peers: seq<string>, tick: nat, i: nat)
    requires i < |peers| && forall j, k :: 0 <= j < k < |peers| ==> peers[j] != peers[k]
    ensures peers[i] in Takers(c, conns, peers, tick)
            <==> peers[i] in conns && c.luck(tick + Tries(conns, peers[..i])).delivered
    ensures var r := Takers(c, conns, peers, tick); forall j, k :: 0 <= j < k < |r| ==> r[j] != r[k]
    decreases |peers|
  {
    var rest := peers[1..];
    var tick1 := if peers[0] in conns then tick + 1 else tick;
    assert peers[0] !in rest;
    assert peers[0] !in Takers(c, conns, rest, tick1);
    if i > 0 {
      assert peers[..i][0] == peers[0] && peers[..i][1..] == rest[..i - 1];
      TakerExactly(c, conns, rest, tick1, i - 1);
    } else if |peers| > 1 {
      TakerExactly(c, conns, rest, tick1, 0);
    }
  }
}
