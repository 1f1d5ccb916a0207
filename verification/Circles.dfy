// When a message stops. In a network whose sends go through it follows one entry of each
// presence row, so it lands exactly when that walk does not come back to where it was; and
// the rank that bounds every journey exists exactly when no entries form a circle.
module Circles {
  import opened Text
  import opened Primitives
  import opened Protocol
  import opened Tables
  import opened Machine
  import opened Ledger
  import opened Fates
  import opened Hops

  // --- the walk ---

  /** Where a node that gets through sends a message for the cell of this row. */
  function Target(p: PresenceRow): string {
    if Visits(p) then p.visiting.value else p.home
  }

  /** The message goes no further than this node. */
  predicate Stops(h: Host, cell: string) {
    cell !in h.s.presence || Target(h.s.presence[cell]) == Me(h.c)
  }

  predicate Onward(w: World, cell: string, id: string) {
    id in w && !Stops(w[id], cell) && Target(w[id].s.presence[cell]) in w
  }

  function Walk(w: World, at: string, cell: string, k: nat): string {
    if k == 0 then at
    else
      var id := Walk(w, at, cell, k - 1);
      if Onward(w, cell, id) then Target(w[id].s.presence[cell]) else id
  }

  lemma SameNext(w: World, at: string, cell: string, i: nat, j: nat)
    requires Walk(w, at, cell, i) == Walk(w, at, cell, j)
    ensures Walk(w, at, cell, i + 1) == Walk(w, at, cell, j + 1)
  {
  }

  /** The first n steps of the walk lead on. */
  ghost predicate Moves(w: World, at: string, cell: string, n: nat) {
    forall k :: 0 <= k < n ==> Onward(w, cell, Walk(w, at, cell, k))
  }

  // --- a network that gets through ---

  ghost predicate Filed(conns: map<string, Conn>) {
    forall id :: id in conns ==> conns[id].peerNodeId == id
  }

  /** The node at id always answers, as itself. */
  ghost predicate Answers(c: Config, id: string) {
    forall t :: c.luck(t).reached.Some? && Authenticate(c, c.luck(t).reached.value, Some(id)).Some?
  }

  /** There is a connection to the node, or one can be opened. */
  ghost predicate Opens(h: Host, id: string) {
    id in h.s.conns
    || (id != "" && id in h.s.nodes && h.s.nodes[id].status == ONLINE && Answers(h.c, id))
  }

  ghost predicate GetsThrough(h: Host, lib: Library, id: string, cell: string) {
    && h.c.lib == lib && Me(h.c) == id && Filed(h.s.conns)
    && (forall t :: h.c.luck(t).delivered)
    && (!Stops(h, cell) ==> Opens(h, Target(h.s.presence[cell])))
  }

  ghost predicate AllGetThrough(w: World, lib: Library, cell: string) {
    && lib.CodecLaw() && lib.SigningLaw() && cell !in w
    && forall id :: id in w ==> GetsThrough(w[id], lib, id, cell)
  }

  // --- one hop ---

  /** The same connection, or none, under this id. */
  predicate Same(conns: map<string, Conn>, conns1: map<string, Conn>, id: string) {
    (id in conns1 <==> id in conns) && (id in conns ==> conns1[id] == conns[id])
  }

  /** The packet went to the peer, and there is a connection to it now. */
  ghost predicate Passed(c: Config, s: State, pkt: Packet, a: Attempt, peer: string) {
    && a.ok && a.pkt == Signed(c.lib, pkt, c.who.signKey)
    && SameTables(s, a.s) && Filed(a.s.conns) && peer in a.s.conns
    && (forall id :: id != peer ==> Same(s.conns, a.s.conns, id))
    && |a.s.log| == |s.log| + 1
    && a.s.log[|s.log|].Sent? && a.s.log[|s.log|].conn.peerNodeId == peer && a.s.log[|s.log|].pkt == a.pkt
  }

  lemma PassesOn(c: Config, s: State, id: string, pkt: Packet)
    requires id != Me(c) && Filed(s.conns) && Opens(Host(c, s), id)
    requires forall t :: c.luck(t).delivered
    ensures Passed(c, s, pkt, SendToNode(c, s, id, pkt), id)
  {
    if id in s.conns {
      assert SendTo(c, s, id, pkt).ok;
    } else {
      Connects(c, s, id);
      assert c.luck(s.tick + 1).delivered;
    }
  }

  lemma Connects(c: Config, s: State, id: string)
    requires id != "" && Answers(c, id)
    ensures var (s1, conn) := ConnectToNode(c, s, id);
            conn.Some? && conn.value.peerNodeId == id && s1.tick == s.tick + 1 && s1.log == s.log
            && SameTables(s, s1) && s1.conns == s.conns[id := conn.value]
  {
    assert c.luck(s.tick).reached.Some?;
  }

  // A message that stops here leaves, if at all, for its cell.
  lemma EndsLocally(h: Host, lib: Library, id: string, pkt: Packet, now: int, cell: string)
    requires GetsThrough(h, lib, id, cell) && Stops(h, cell)
    requires ParseAddr(pkt.body.toAddr).0 == Some(cell)
    ensures var a := Route(h.c, h.s, pkt, now);
            a.ok && |a.s.log| == |h.s.log| + 1
            && (a.s.log[|h.s.log|].Sent? ==> a.s.log[|h.s.log|].conn.peerNodeId == cell)
  {
    DeliverLocalTried(h.c, h.s, pkt);
  }

  lemma LeavesForTarget(h: Host, lib: Library, id: string, pkt: Packet, now: int, cell: string)
    requires GetsThrough(h, lib, id, cell) && !Stops(h, cell)
    requires ParseAddr(pkt.body.toAddr).0 == Some(cell)
    ensures Passed(h.c, h.s, pkt, Route(h.c, h.s, pkt, now), Target(h.s.presence[cell]))
  {
    var p := h.s.presence[cell];
    PassesOn(h.c, h.s, Target(p), pkt);
    assert TryNodes(h.c, h.s, p, pkt) == SendToNode(h.c, h.s, Target(p), pkt);
  }

  /** As far as the cell goes nothing has changed here. */
  ghost predicate SameHost(h: Host, h1: Host, cell: string) {
    && h1.c == h.c && h1.s.presence == h.s.presence && h1.s.cells == h.s.cells
    && Same(h.s.conns, h1.s.conns, cell)
  }

  /** The same nodes, none of them changed as far as the cell goes. */
  ghost predicate SameRows(w: World, w1: World, cell: string) {
    && w1.Keys == w.Keys
    && forall id :: id in w ==> SameHost(w[id], w1[id], cell)
  }

  lemma SameRowsThen(w: World, w1: World, w2: World, cell: string)
    requires SameRows(w, w1, cell) && SameRows(w1, w2, cell)
    ensures SameRows(w, w2, cell)
  {
  }

  lemma HostForwards(h: Host, lib: Library, receiver: Config, id: string, nodes: set<string>, pkt: Packet, now: int,
                     cell: string)
    requires lib.CodecLaw() && lib.SigningLaw() && receiver.lib == lib
    requires GetsThrough(h, lib, id, cell) && !Stops(h, cell) && Target(h.s.presence[cell]) in nodes
    requires ParseAddr(pkt.body.toAddr).0 == Some(cell)
    ensures var h1, to := HostAfter(h, pkt, now), Target(h.s.presence[cell]);
            GetsThrough(h1, lib, id, cell) && (to != cell ==> SameHost(h, h1, cell))
    ensures var f, to := ForwardOf(h, nodes, pkt, now), Target(h.s.presence[cell]);
            f.Some? && f.value.conn.peerNodeId == to
            && Arrival(h.c, receiver, f.value) == InFlight(to, f.value.pkt) && f.value.pkt.body == pkt.body
  {
    LeavesForTarget(h, lib, id, pkt, now, cell);
    HopAccepted(lib, pkt, h.c.who.signKey);
  }

  lemma ForwardHop(l: Leg, lib: Library, now: int, cell: string)
    requires AllGetThrough(l.w, lib, cell) && Moving(l) && ParseAddr(l.f.pkt.body.toAddr).0 == Some(cell)
    requires Onward(l.w, cell, l.f.at)
    ensures var l1, to := Hop(l, now), Target(l.w[l.f.at].s.presence[cell]);
            && l1.f.InFlight? && l1.f.at == to && l1.f.pkt.body == l.f.pkt.body && l1.forwards == l.forwards + 1
            && AllGetThrough(l1.w, lib, cell) && SameRows(l.w, l1.w, cell)
  {
    var at, to := l.f.at, Target(l.w[l.f.at].s.presence[cell]);
    HostForwards(l.w[at], lib, l.w[to].c, at, l.w.Keys, l.f.pkt, now, cell);
    OneHostAfter(l.w, lib, cell, at, HostAfter(l.w[at], l.f.pkt, now));
  }

  lemma OneHostAfter(w: World, lib: Library, cell: string, at: string, h1: Host)
    requires AllGetThrough(w, lib, cell) && at in w && GetsThrough(h1, lib, at, cell)
    requires SameHost(w[at], h1, cell)
    ensures AllGetThrough(w[at := h1], lib, cell) && SameRows(w, w[at := h1], cell)
  {
  }

  lemma LastHop(l: Leg, lib: Library, now: int, cell: string)
    requires AllGetThrough(l.w, lib, cell) && Moving(l) && ParseAddr(l.f.pkt.body.toAddr).0 == Some(cell)
    requires !Onward(l.w, cell, l.f.at)
    ensures Hop(l, now).f == Landed(l.f.at) && Hop(l, now).forwards == l.forwards
  {
    var h := l.w[l.f.at];
    if Stops(h, cell) {
      EndsLocally(h, lib, l.f.at, l.f.pkt, now, cell);
    } else {
      LeavesForTarget(h, lib, l.f.at, l.f.pkt, now, cell);
    }
  }

  // --- the whole journey ---

  /** How l continues start, n hops later, if the message follows the walk. */
  ghost predicate Follows(start: Leg, l: Leg, cell: string, n: nat)
    requires start.f.InFlight? && l.forwards >= start.forwards
  {
    var w, at, j := start.w, start.f.at, l.forwards - start.forwards;
    if Moves(w, at, cell, n) then
      j == n && l.f.InFlight? && l.f.at == Walk(w, at, cell, n) && l.f.pkt.body == start.f.pkt.body
    else
      j < n && Moves(w, at, cell, j) && !Moves(w, at, cell, j + 1) && l.f == Landed(Walk(w, at, cell, j))
  }

  // The exact course of a message: it is still moving after n hops if and only if the first
  // n steps of the walk lead on, and then it is where the walk is, forwarded n times;
  // otherwise it has landed where the walk first does not lead on.
  lemma {:induction false} TravelExact(start: Leg, lib: Library, times: seq<int>, cell: string)
    requires AllGetThrough(start.w, lib, cell) && Moving(start)
    requires ParseAddr(start.f.pkt.body.toAddr).0 == Some(cell)
    ensures var l := Travel(start, times);
            && l.forwards >= start.forwards && Follows(start, l, cell, |times|)
            && (l.f.InFlight? ==> AllGetThrough(l.w, lib, cell) && SameRows(start.w, l.w, cell))
  {
    if times == [] {
      assert Moves(start.w, start.f.at, cell, 0);
    } else {
      var n, now := |times| - 1, times[|times| - 1];
      TravelExact(start, lib, times[..n], cell);
      var l := Travel(start, times[..n]);
      if Moving(l) {
        FollowsOn(start, l, lib, now, cell, n);
      } else {
        FollowsStill(start, l, cell, n);
      }
    }
  }

  lemma FollowsOn(start: Leg, l: Leg, lib: Library, now: int, cell: string, n: nat)
    requires Moving(start) && Moving(l) && ParseAddr(start.f.pkt.body.toAddr).0 == Some(cell)
    requires l.forwards >= start.forwards && Follows(start, l, cell, n)
    requires AllGetThrough(l.w, lib, cell) && SameRows(start.w, l.w, cell)
    ensures var l1 := Hop(l, now);
            && l1.forwards >= start.forwards && Follows(start, l1, cell, n + 1)
            && (l1.f.InFlight? ==> AllGetThrough(l1.w, lib, cell) && SameRows(start.w, l1.w, cell))
  {
    SameOnward(start.w, l.w, cell, l.f.at);
    if Onward(l.w, cell, l.f.at) {
      ForwardHop(l, lib, now, cell);
      SameRowsThen(start.w, l.w, Hop(l, now).w, cell);
      FollowsForward(start, l, Hop(l, now), cell, n);
    } else {
      LastHop(l, lib, now, cell);
      FollowsLast(start, l, Hop(l, now), cell, n);
    }
  }

  lemma SameOnward(w: World, w1: World, cell: string, id: string)
    requires SameRows(w, w1, cell)
    ensures Onward(w1, cell, id) <==> Onward(w, cell, id)
    ensures Onward(w, cell, id) ==> w1[id].s.presence[cell] == w[id].s.presence[cell]
  {
  }

  lemma FollowsForward(start: Leg, l: Leg, l1: Leg, cell: string, n: nat)
    requires Moving(start) && l.f.InFlight? && l.forwards >= start.forwards && Follows(start, l, cell, n)
    requires Onward(start.w, cell, l.f.at) && l1.f.InFlight? && l1.f.at == Target(start.w[l.f.at].s.presence[cell])
    requires l1.f.pkt.body == l.f.pkt.body && l1.forwards == l.forwards + 1
    ensures Follows(start, l1, cell, n + 1)
  {
    WalkStays(start.w, start.f.at, cell, n);
  }

  lemma FollowsLast(start: Leg, l: Leg, l1: Leg, cell: string, n: nat)
    requires Moving(start) && l.f.InFlight? && l.forwards >= start.forwards && Follows(start, l, cell, n)
    requires !Onward(start.w, cell, l.f.at) && l1.f == Landed(l.f.at) && l1.forwards == l.forwards
    ensures Follows(start, l1, cell, n + 1)
  {
    WalkStays(start.w, start.f.at, cell, n);
  }

  lemma FollowsStill(start: Leg, l: Leg, cell: string, n: nat)
    requires Moving(start) && l.forwards >= start.forwards && Follows(start, l, cell, n)
    requires !Moving(l) && SameKeys(start, l)
    ensures Follows(start, l, cell, n + 1)
  {
    WalkStays(start.w, start.f.at, cell, if Moves(start.w, start.f.at, cell, n) then n else 0);
  }

  ghost predicate SameKeys(start: Leg, l: Leg) {
    l.f.InFlight? ==> l.w.Keys == start.w.Keys
  }

  lemma WalkStays(w: World, at: string, cell: string, n: nat)
    requires at in w && Moves(w, at, cell, n)
    ensures Walk(w, at, cell, n) in w
    ensures Moves(w, at, cell, n + 1) <==> Onward(w, cell, Walk(w, at, cell, n))
  {
    if n > 0 {
      assert Onward(w, cell, Walk(w, at, cell, n - 1));
    }
  }

  // --- finite networks ---

  /** The walk is at its j-th step where it was at its i-th. */
  ghost predicate ComesBack(w: World, at: string, cell: string, i: nat, j: nat) {
    i < j && Moves(w, at, cell, j) && Walk(w, at, cell, i) == Walk(w, at, cell, j)
  }

  lemma {:induction false} Repeats(w: World, at: string, cell: string, i: nat, j: nat, k: nat) returns (m: nat)
    requires i < j && Walk(w, at, cell, i) == Walk(w, at, cell, j)
    ensures m < j && Walk(w, at, cell, k) == Walk(w, at, cell, m)
  {
    if k < j {
      m := k;
    } else {
      var before := Repeats(w, at, cell, i, j, k - 1);
      m := OneOn(w, at, cell, i, j, before, k - 1);
    }
  }

  lemma OneOn(w: World, at: string, cell: string, i: nat, j: nat, m: nat, k: nat) returns (m1: nat)
    requires i < j && Walk(w, at, cell, i) == Walk(w, at, cell, j)
    requires m < j && Walk(w, at, cell, k) == Walk(w, at, cell, m)
    ensures m1 < j && Walk(w, at, cell, k + 1) == Walk(w, at, cell, m1)
  {
    SameNext(w, at, cell, k, m);
    m1 := if m + 1 == j then i else m + 1;
  }

  lemma BackForEver(w: World, at: string, cell: string, i: nat, j: nat, n: nat)
    requires ComesBack(w, at, cell, i, j)
    ensures Moves(w, at, cell, n)
  {
    forall k | 0 <= k < n
      ensures Onward(w, cell, Walk(w, at, cell, k))
    {
      var m := Repeats(w, at, cell, i, j, k);
    }
  }

  ghost predicate Distinct(ids: seq<string>) {
    forall i, j :: 0 <= i < j < |ids| ==> ids[i] != ids[j]
  }

  // A walk of as many steps as there are nodes has come back.
  lemma LongWalkComesBack(w: World, at: string, cell: string) returns (i: nat, j: nat)
    requires at in w && Moves(w, at, cell, |w|)
    ensures j <= |w| && ComesBack(w, at, cell, i, j)
  {
    var ids := seq(|w| + 1, k requires k >= 0 => Walk(w, at, cell, k));
    forall k | 0 <= k <= |w|
      ensures ids[k] in w.Keys
    {
      WalkStays(w, at, cell, k);
    }
    if Distinct(ids) {
      DistinctSize(ids);
      Subset((set id | id in ids), w.Keys);
    }
    i, j :| 0 <= i < j < |ids| && ids[i] == ids[j];
  }

  // When a message lands: after as many hops as there are nodes it has landed, or it never
  // will; and it never will if and only if the walk comes back within that many steps.
  lemma LandsExactly(start: Leg, lib: Library, times: seq<int>, cell: string)
    requires AllGetThrough(start.w, lib, cell) && Moving(start)
    requires ParseAddr(start.f.pkt.body.toAddr).0 == Some(cell)
    requires |times| >= |start.w|
    ensures Travel(start, times).f.InFlight?
            <==> exists i: nat, j: nat :: j <= |start.w| && ComesBack(start.w, start.f.at, cell, i, j)
    ensures !Travel(start, times).f.InFlight? ==>
              Travel(start, times).f.Landed? && Travel(start, times).forwards - start.forwards < |start.w|
  {
    var w, at, n := start.w, start.f.at, |start.w|;
    TravelExact(start, lib, times, cell);
    if Moves(w, at, cell, n) {
      var i, j := LongWalkComesBack(w, at, cell);
      BackForEver(w, at, cell, i, j, |times|);
    } else {
      forall i: nat, j: nat | j <= n
        ensures !ComesBack(w, at, cell, i, j)
      {
        if ComesBack(w, at, cell, i, j) {
          BackForEver(w, at, cell, i, j, n);
        }
      }
    }
  }

  // --- circles ---

  /** The place after the i-th of n in a ring. */
  function After(i: nat, n: nat): nat {
    if i + 1 == n then 0 else i + 1
  }

  function Around(i: nat, n: nat, steps: nat): nat {
    if steps == 0 then i else After(Around(i, n, steps - 1), n)
  }

  /** Each node of the ring sends the cell's messages to the next, the last to the first. */
  ghost predicate Ring(w: World, ring: seq<string>, cell: string) {
    forall k :: 0 <= k < |ring| ==> Link(w, ring, cell, k)
  }

  ghost predicate Link(w: World, ring: seq<string>, cell: string, k: nat)
    requires k < |ring|
  {
    && ring[k] in w && !Stops(w[ring[k]], cell)
    && Target(w[ring[k]].s.presence[cell]) == ring[After(k, |ring|)]
  }

  lemma {:induction false} RoundTheRing(w: World, ring: seq<string>, cell: string, i: nat, n: nat)
    requires Ring(w, ring, cell) && i < |ring|
    ensures Around(i, |ring|, n) < |ring|
    ensures Moves(w, ring[i], cell, n) && Walk(w, ring[i], cell, n) == ring[Around(i, |ring|, n)]
  {
    if n > 0 {
      RoundTheRing(w, ring, cell, i, n - 1);
      assert Link(w, ring, cell, Around(i, |ring|, n - 1));
      assert Link(w, ring, cell, Around(i, |ring|, n));
    }
  }

  // Nodes whose entries form a circle, of any length and by home or visiting entries alike,
  // pass the message round for ever.
  lemma CircleNeverLands(start: Leg, lib: Library, ring: seq<string>, i: nat, cell: string, times: seq<int>)
    requires AllGetThrough(start.w, lib, cell) && Ring(start.w, ring, cell)
    requires i < |ring| && start.f.InFlight? && start.f.at == ring[i]
    requires ParseAddr(start.f.pkt.body.toAddr).0 == Some(cell)
    ensures var l := Travel(start, times);
            && Around(i, |ring|, |times|) < |ring|
            && l.f.InFlight? && l.f.at == ring[Around(i, |ring|, |times|)]
            && l.f.pkt.body == start.f.pkt.body && l.forwards == start.forwards + |times|
  {
    assert Link(start.w, ring, cell, i);
    RoundTheRing(start.w, ring, cell, i, |times|);
    TravelExact(start, lib, times, cell);
  }

  // --- ranks ---

  /** A presence entry for the cell that leads from one node to another name. */
  predicate Entry(w: World, cell: string, id: string, next: string) {
    && id in w && next != id && cell in w[id].s.presence
    && (next == w[id].s.presence[cell].home
        || (Visits(w[id].s.presence[cell]) && next == w[id].s.presence[cell].visiting.value))
  }

  ghost predicate Path(w: World, cell: string, ids: seq<string>) {
    |ids| >= 2 && forall k :: 0 <= k < |ids| - 1 ==> Entry(w, cell, ids[k], ids[k + 1])
  }

  ghost predicate Leads(w: World, cell: string, id: string, to: string) {
    exists ids :: Path(w, cell, ids) && ids[0] == id && ids[|ids| - 1] == to
  }

  ghost predicate Circular(w: World, cell: string) {
    exists id :: Leads(w, cell, id, id)
  }

  ghost function Reach(w: World, cell: string, id: string): set<string> {
    set x | x in w.Keys && Leads(w, cell, id, x)
  }

  lemma {:induction false} PathDescends(w: World, cell: string, ids: seq<string>, rank: string -> nat)
    requires Path(w, cell, ids) && Ranked(w, cell, rank)
    ensures rank(ids[|ids| - 1]) < rank(ids[0])
  {
    assert Entry(w, cell, ids[0], ids[1]) && RowDownhill(w[ids[0]].s, ids[0], cell, rank);
    if |ids| > 2 {
      assert Path(w, cell, ids[1..]);
      PathDescends(w, cell, ids[1..], rank);
    }
  }

  lemma LeadsOn(w: World, cell: string, id: string, next: string, to: string)
    requires Entry(w, cell, id, next) && Leads(w, cell, next, to)
    ensures Leads(w, cell, id, to)
  {
    var ids :| Path(w, cell, ids) && ids[0] == next && ids[|ids| - 1] == to;
    var longer := [id] + ids;
    assert Path(w, cell, longer) by {
      forall k | 0 <= k < |longer| - 1
        ensures Entry(w, cell, longer[k], longer[k + 1])
      {
        if k > 0 {
          assert Entry(w, cell, ids[k - 1], ids[k]);
        }
      }
    }
    assert longer[0] == id && longer[|longer| - 1] == to;
  }

  lemma ReachShrinks(w: World, cell: string, id: string, next: string)
    requires Entry(w, cell, id, next) && next in w && !Circular(w, cell)
    ensures |Reach(w, cell, next)| < |Reach(w, cell, id)|
  {
    forall x | x in Reach(w, cell, next)
      ensures x in Reach(w, cell, id)
    {
      LeadsOn(w, cell, id, next, x);
    }
    assert Path(w, cell, [id, next]);
    assert Leads(w, cell, id, next);
    assert next !in Reach(w, cell, next) && next in Reach(w, cell, id);
    Subset(Reach(w, cell, next) + {next}, Reach(w, cell, id));
  }

  ghost function RankByReach(w: World, cell: string): string -> nat {
    (id: string) => if id in w then 1 + |Reach(w, cell, id)| else 0
  }

  /** The presence rows for the cell name a home. */
  ghost predicate HomesNamed(w: World, cell: string) {
    forall id :: id in w && id != "" && cell in w[id].s.presence ==> w[id].s.presence[cell].home != ""
  }

  lemma RankedByReach(w: World, cell: string)
    requires HomesNamed(w, cell) && !Circular(w, cell)
    ensures Ranked(w, cell, RankByReach(w, cell))
  {
    var rank := RankByReach(w, cell);
    forall id, next | Entry(w, cell, id, next)
      ensures rank(next) < rank(id)
    {
      if next in w {
        ReachShrinks(w, cell, id, next);
      }
    }
    forall id | id in w
      ensures RowDownhill(w[id].s, id, cell, rank)
    {
      if cell in w[id].s.presence {
        var p := w[id].s.presence[cell];
        assert p.home != id ==> Entry(w, cell, id, p.home);
        assert Visits(p) && p.visiting.value != id ==> Entry(w, cell, id, p.visiting.value);
      }
    }
  }

  // When there is a bound: the rank that the landing theorem asks for exists if and only if
  // no path of entries, visiting or home, leads from a node back to itself, and every home
  // entry has a name.
  lemma RankExactly(w: World, cell: string)
    ensures (exists rank: string -> nat :: Ranked(w, cell, rank)) <==> HomesNamed(w, cell) && !Circular(w, cell)
  {
    if HomesNamed(w, cell) && !Circular(w, cell) {
      RankedByReach(w, cell);
    }
    forall rank: string -> nat | Ranked(w, cell, rank)
      ensures HomesNamed(w, cell) && !Circular(w, cell)
    {
      forall id | id in w && id != "" && cell in w[id].s.presence
        ensures w[id].s.presence[cell].home != ""
      {
        assert RowDownhill(w[id].s, id, cell, rank);
      }
      forall ids | Path(w, cell, ids)
        ensures ids[|ids| - 1] != ids[0]
      {
        PathDescends(w, cell, ids, rank);
      }
    }
  }
}
