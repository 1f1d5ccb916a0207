// Gossip over a network of nodes: tables, and pushes in flight, each a snapshot of the
// sender's table. No node is removed in the runs of this module.
module Spread {
  import opened Text
  import opened Primitives
  import opened Tables
  import opened Merge
  import opened Liveness

  /** A gossip packet on its way. */
  datatype Push = Push(to: string, payload: Bytes)

  datatype Net = Net(tables: map<string, NodeTable>, flights: map<nat, Push>)

  datatype Move =
    | Pushes(from: string, to: string, listing: seq<string>)
    | Arrives(push: nat, now: int)
    | IsLost(push: nat)
    | Local(at: string, e: TableEvent)

  /** Rows the merge does not skip. */
  ghost predicate Clean(t: NodeTable) {
    "" !in t && forall id :: id in t ==> t[id].address != ""
  }

  ghost predicate CleanNet(n: Net) {
    forall id :: id in n.tables ==> Clean(n.tables[id])
  }

  /** Genesis, join or a ping's outcome at one node; nothing leaves its table. */
  ghost predicate Harmless(t: NodeTable, e: TableEvent) {
    && !e.Told?
    && (e.Introduced? ==> e.id != "" && e.address != "")
    && t.Keys <= After(t, e).Keys
  }

  ghost predicate CanMove(n: Net, m: Move) {
    match m
    case Pushes(from, to, listing) => from in n.tables && to in n.tables && Lists(listing, n.tables[from].Keys)
    case Arrives(push, _) => push in n.flights && n.flights[push].to in n.tables
    case IsLost(push) => push in n.flights
    case Local(at, e) => at in n.tables && Harmless(n.tables[at], e)
  }

  /** serial names the push, if this is one. */
  ghost function Apply(lib: Library, n: Net, m: Move, serial: nat): Net
    requires CanMove(n, m)
  {
    match m
    case Pushes(from, to, listing) =>
      assert forall id :: id in listing ==> id in n.tables[from].Keys;
      n.(flights := n.flights[serial := Push(to, GossipPayload(lib, n.tables[from], listing))])
    case Arrives(push, now) =>
      var p := n.flights[push];
      Net(n.tables[p.to := MergeOf(n.tables[p.to], DecodeGossip(lib, p.payload), now)], n.flights - {push})
    case IsLost(push) => n.(flights := n.flights - {push})
    case Local(at, e) => n.(tables := n.tables[at := After(n.tables[at], e)])
  }

  ghost predicate IsNetRun(lib: Library, nets: seq<Net>, moves: seq<Move>) {
    && |nets| == |moves| + 1
    && forall i :: 0 <= i < |moves| ==>
         CanMove(nets[i], moves[i]) && nets[i + 1] == Apply(lib, nets[i], moves[i], i)
  }

  // --- known ids only grow ---

  ghost predicate Grown(a: Net, b: Net) {
    a.tables.Keys == b.tables.Keys && forall id :: id in a.tables ==> a.tables[id].Keys <= b.tables[id].Keys
  }

  lemma MoveGrows(lib: Library, n: Net, m: Move, serial: nat)
    requires CanMove(n, m)
    ensures Grown(n, Apply(lib, n, m, serial))
  {
  }

  // In every run, from any moment to any later one, no node forgets an id.
  lemma KnownOnlyGrow(lib: Library, nets: seq<Net>, moves: seq<Move>, i: nat, j: nat)
    requires IsNetRun(lib, nets, moves) && i <= j < |nets|
    ensures Grown(nets[i], nets[j])
  {
    forall k | 0 <= k < |nets| - 1
      ensures GrownAt(nets, k)
    {
      StepGrows(lib, nets, moves, k);
    }
    GrownAlong(nets, i, j);
  }

  ghost predicate GrownAt(nets: seq<Net>, k: nat)
    requires k + 1 < |nets|
  {
    Grown(nets[k], nets[k + 1])
  }

  lemma {:induction false} GrownAlong(nets: seq<Net>, i: nat, j: nat)
    requires i <= j < |nets| && forall k :: 0 <= k < |nets| - 1 ==> GrownAt(nets, k)
    ensures Grown(nets[i], nets[j])
    decreases j - i
  {
    if i < j {
      GrownAlong(nets, i, j - 1);
      assert GrownAt(nets, j - 1);
      GrownThen(nets[i], nets[j - 1], nets[j]);
    }
  }

  lemma StepGrows(lib: Library, nets: seq<Net>, moves: seq<Move>, i: nat)
    requires IsNetRun(lib, nets, moves) && i < |moves|
    ensures Grown(nets[i], nets[i + 1])
  {
    MoveGrows(lib, nets[i], moves[i], i);
  }

  lemma GrownThen(a: Net, b: Net, c: Net)
    requires Grown(a, b) && Grown(b, c)
    ensures Grown(a, c)
  {
  }

  // --- every row stays usable ---

  lemma AfterClean(t: NodeTable, e: TableEvent)
    requires Clean(t) && Harmless(t, e)
    ensures Clean(After(t, e))
  {
  }

  lemma MergedClean(t: NodeTable, heard: seq<Heard>, now: int)
    requires Clean(t)
    ensures Clean(Merged(t, heard, now))
  {
  }

  lemma {:induction false} StaysClean(lib: Library, nets: seq<Net>, moves: seq<Move>, i: nat)
    requires IsNetRun(lib, nets, moves) && CleanNet(nets[0]) && i < |nets|
    ensures CleanNet(nets[i])
  {
    if i > 0 {
      StaysClean(lib, nets, moves, i - 1);
      var n := nets[i - 1];
      match moves[i - 1]
      case Arrives(push, now) =>
        var t := n.tables[n.flights[push].to];
        MergedClean(t, Heeded(t.Keys, DecodeGossip(lib, n.flights[push].payload)), now);
      case Local(at, e) => AfterClean(n.tables[at], e);
      case _ =>
    }
  }

  // --- a delivered push carries everything the sender knew ---

  lemma {:induction false} HeardOfIds(t: NodeTable, ids: seq<string>)
    requires Clean(t) && forall id :: id in ids ==> id in t
    ensures HeardIds(HeardOf(t, ids)) == set id | id in ids
  {
    if ids != [] {
      HeardOfIds(t, ids[1..]);
      var heard, rest := HeardOf(t, ids), HeardOf(t, ids[1..]);
      assert heard == [heard[0]] + rest && heard[0].nodeId == ids[0] && Usable(heard[0]);
      PrependIds(heard[0], rest);
      assert (set id | id in ids) == {ids[0]} + (set id | id in ids[1..]);
    }
  }

  /** The ids a push in flight will teach. */
  ghost function Teaches(lib: Library, p: Push): set<string> {
    HeardIds(AllHeard(DecodeGossip(lib, p.payload)))
  }

  /** Nothing in the push can stop the merge loop. */
  ghost predicate Legible(lib: Library, p: Push) {
    AllLegible(DecodeGossip(lib, p.payload))
  }

  lemma SnapshotTeaches(lib: Library, t: NodeTable, listing: seq<string>, to: string)
    requires lib.CodecLaw() && Clean(t) && Lists(listing, t.Keys)
    requires forall id :: id in listing ==> id in t
    ensures var p := Push(to, GossipPayload(lib, t, listing));
            Teaches(lib, p) == t.Keys && Legible(lib, p)
  {
    GossipRoundTrip(lib, t, listing);
    HeardOfIds(t, listing);
    assert (set id | id in listing) == t.Keys;
  }

  lemma PushTeaches(lib: Library, n: Net, m: Move, serial: nat)
    requires lib.CodecLaw() && CleanNet(n) && m.Pushes? && CanMove(n, m)
    ensures serial in Apply(lib, n, m, serial).flights
    ensures var p := Apply(lib, n, m, serial).flights[serial];
            p.to == m.to && Teaches(lib, p) == n.tables[m.from].Keys && Legible(lib, p)
  {
    var t := n.tables[m.from];
    forall id | id in m.listing
      ensures id in t
    {
      assert id in t.Keys;
    }
    SnapshotTeaches(lib, t, m.listing, m.to);
  }

  // While it is in flight, a push is what it was when it was sent.
  lemma {:induction false} FlightKept(lib: Library, nets: seq<Net>, moves: seq<Move>, a: nat, b: nat)
    requires IsNetRun(lib, nets, moves) && a < b < |nets|
    requires moves[a].Pushes? && a in nets[b].flights
    ensures a in nets[a + 1].flights && nets[b].flights[a] == nets[a + 1].flights[a]
    decreases b
  {
    if b > a + 1 {
      assert CanMove(nets[b - 1], moves[b - 1]);
      FlightKept(lib, nets, moves, a, b - 1);
    }
  }

  // What the sender of a delivered push knew when it was sent, the receiver knows once it
  // has arrived.
  lemma DeliveredPush(lib: Library, nets: seq<Net>, moves: seq<Move>, a: nat, b: nat)
    requires lib.CodecLaw() && IsNetRun(lib, nets, moves) && CleanNet(nets[0])
    requires a < b < |moves| && moves[a].Pushes? && moves[b].Arrives? && moves[b].push == a
    ensures moves[a].from in nets[a].tables && moves[a].to in nets[b + 1].tables
    ensures nets[a].tables[moves[a].from].Keys <= nets[b + 1].tables[moves[a].to].Keys
  {
    StaysClean(lib, nets, moves, a);
    assert CanMove(nets[a], moves[a]) && CanMove(nets[b], moves[b]);
    PushTeaches(lib, nets[a], moves[a], a);
    FlightKept(lib, nets, moves, a, b);
    assert nets[b + 1] == Apply(lib, nets[b], moves[b], b);
    var p := nets[b].flights[a];
    LegibleHeeded(nets[b].tables[p.to].Keys, DecodeGossip(lib, p.payload));
  }

  // --- spreading along a path ---

  /** One delivered push, by the index of the push and of its arrival. */
  datatype Relay = Relay(sent: nat, arrived: nat)

  /** Delivered pushes, one after the other, each from the node the last one reached. */
  ghost predicate Chain(moves: seq<Move>, relays: seq<Relay>) {
    && (forall k :: 0 <= k < |relays| ==> IsRelay(moves, relays[k]))
    && (forall k :: 0 < k < |relays| ==> Follows(moves, relays[k - 1], relays[k]))
  }

  ghost predicate IsRelay(moves: seq<Move>, r: Relay) {
    && r.sent < r.arrived < |moves|
    && moves[r.sent].Pushes? && moves[r.arrived].Arrives? && moves[r.arrived].push == r.sent
  }

  ghost predicate Follows(moves: seq<Move>, r: Relay, next: Relay)
    requires IsRelay(moves, r) && IsRelay(moves, next)
  {
    r.arrived < next.sent && moves[next.sent].from == moves[r.sent].to
  }

  // Gossip spreads: along any chain of delivered pushes, everything the first node knew at
  // the start of the run the last node knows at its end.
  lemma GossipSpreads(lib: Library, nets: seq<Net>, moves: seq<Move>, relays: seq<Relay>)
    requires lib.CodecLaw() && IsNetRun(lib, nets, moves) && CleanNet(nets[0])
    requires relays != [] && Chain(moves, relays)
    ensures var first, last := moves[relays[0].sent].from, moves[relays[|relays| - 1].sent].to;
            first in nets[0].tables && last in nets[|moves|].tables
            && nets[0].tables[first].Keys <= nets[|moves|].tables[last].Keys
  {
    ChainSpreads(lib, nets, moves, relays);
    KnownOnlyGrow(lib, nets, moves, 0, relays[0].sent);
    KnownOnlyGrow(lib, nets, moves, relays[|relays| - 1].arrived + 1, |moves|);
  }

  lemma {:induction false} ChainSpreads(lib: Library, nets: seq<Net>, moves: seq<Move>, relays: seq<Relay>)
    requires lib.CodecLaw() && IsNetRun(lib, nets, moves) && CleanNet(nets[0])
    requires relays != [] && Chain(moves, relays)
    ensures var a, b := relays[0].sent, relays[|relays| - 1].arrived;
            var first, last := moves[a].from, moves[relays[|relays| - 1].sent].to;
            first in nets[a].tables && last in nets[b + 1].tables
            && nets[a].tables[first].Keys <= nets[b + 1].tables[last].Keys
  {
    var n := |relays| - 1;
    var r := relays[n];
    DeliveredPush(lib, nets, moves, r.sent, r.arrived);
    if n > 0 {
      ChainSpreads(lib, nets, moves, relays[..n]);
      assert Follows(moves, relays[n - 1], relays[n]);
      KnownOnlyGrow(lib, nets, moves, relays[n - 1].arrived + 1, r.sent);
    }
  }

  // --- nobody is made up ---

  /** x was in a table at the start, or a genesis or join brought it in before move i. */
  ghost predicate Introduced(nets: seq<Net>, moves: seq<Move>, i: nat, x: string)
    requires nets != [] && i <= |moves|
  {
    || (exists id :: id in nets[0].tables && x in nets[0].tables[id])
    || (exists k :: 0 <= k < i && moves[k].Local? && moves[k].e.Introduced? && moves[k].e.id == x)
  }

  ghost predicate AllIntroduced(lib: Library, nets: seq<Net>, moves: seq<Move>, i: nat)
    requires i <= |moves| < |nets|
  {
    && (forall id, x :: id in nets[i].tables && x in nets[i].tables[id] ==> Introduced(nets, moves, i, x))
    && (forall k, x :: k in nets[i].flights && x in Teaches(lib, nets[i].flights[k]) ==> Introduced(nets, moves, i, x))
  }

  lemma LaterToo(nets: seq<Net>, moves: seq<Move>, i: nat, x: string)
    requires nets != [] && i < |moves| && Introduced(nets, moves, i, x)
    ensures Introduced(nets, moves, i + 1, x)
  {
  }

  lemma TableSources(lib: Library, nets: seq<Net>, moves: seq<Move>, i: nat, id: string, x: string)
    requires lib.CodecLaw() && IsNetRun(lib, nets, moves) && i < |moves|
    requires AllIntroduced(lib, nets, moves, i)
    requires id in nets[i + 1].tables && x in nets[i + 1].tables[id]
    ensures Introduced(nets, moves, i + 1, x)
  {
    assert CanMove(nets[i], moves[i]) && nets[i + 1] == Apply(lib, nets[i], moves[i], i);
    if x in nets[i].tables[id] {
      LaterToo(nets, moves, i, x);
    } else if moves[i].Arrives? {
      var p := nets[i].flights[moves[i].push];
      HeededIds(nets[i].tables[p.to].Keys, DecodeGossip(lib, p.payload));
      assert x in Teaches(lib, p);
      LaterToo(nets, moves, i, x);
    } else {
      assert moves[i].Local? && moves[i].e.Introduced? && moves[i].e.id == x;
    }
  }

  lemma FlightSources(lib: Library, nets: seq<Net>, moves: seq<Move>, i: nat, k: nat, x: string)
    requires lib.CodecLaw() && IsNetRun(lib, nets, moves) && i < |moves| && CleanNet(nets[i])
    requires AllIntroduced(lib, nets, moves, i)
    requires k in nets[i + 1].flights && x in Teaches(lib, nets[i + 1].flights[k])
    ensures Introduced(nets, moves, i + 1, x)
  {
    assert CanMove(nets[i], moves[i]) && nets[i + 1] == Apply(lib, nets[i], moves[i], i);
    if moves[i].Pushes? && k == i {
      PushTeaches(lib, nets[i], moves[i], i);
      assert x in nets[i].tables[moves[i].from];
    } else {
      assert k in nets[i].flights && nets[i].flights[k] == nets[i + 1].flights[k];
    }
    LaterToo(nets, moves, i, x);
  }

  // Every id in any table, or on its way to one, was there at the start or was introduced by
  // some genesis or join of the run.
  lemma {:induction false} NobodyMadeUp(lib: Library, nets: seq<Net>, moves: seq<Move>, i: nat)
    requires lib.CodecLaw() && IsNetRun(lib, nets, moves) && CleanNet(nets[0]) && nets[0].flights == map[]
    requires i <= |moves|
    ensures AllIntroduced(lib, nets, moves, i)
  {
    if i > 0 {
      NobodyMadeUp(lib, nets, moves, i - 1);
      StaysClean(lib, nets, moves, i - 1);
      forall id, x | id in nets[i].tables && x in nets[i].tables[id]
        ensures Introduced(nets, moves, i, x)
      {
        TableSources(lib, nets, moves, i - 1, id, x);
      }
      forall k, x | k in nets[i].flights && x in Teaches(lib, nets[i].flights[k])
        ensures Introduced(nets, moves, i, x)
      {
        FlightSources(lib, nets, moves, i - 1, k, x);
      }
    }
  }
}
