// Gossip among whole nodes: what spreads are the packets that rounds really send, and what
// merges them is the receivers' own dispatch.
module NetworkGossip {
  import opened Text
  import opened Primitives
  import opened Protocol
  import opened Tables
  import opened Merge
  import opened Machine
  import opened Pushes
  import opened Hops
  import opened Network
  import H = NodeHistory
  import Spread

  /** A push: the round that sent it, its letter, and the arrival of that. */
  datatype Relay = Relay(sent: nat, l: Letter, arrived: nat)

  ghost predicate IsRelay(nets: seq<Net>, moves: seq<Move>, r: Relay)
    requires |nets| == |moves| + 1
  {
    && r.sent < r.arrived < |moves|
    && moves[r.sent].Acts? && moves[r.sent].e.Gossiped? && moves[r.sent].at == r.l.from
    && r.l.from in nets[r.sent].w && |nets[r.sent].w[r.l.from].s.log| <= r.l.index
    && Aloft(nets[r.sent + 1].w, r.l) && Content(nets[r.sent + 1].w, r.l).pkt.body.kind == GOSSIP
    && moves[r.arrived].Arrives? && moves[r.arrived].l == r.l
  }

  ghost function Known(n: Net, id: string): set<string>
    requires id in n.w
  {
    n.w[id].s.nodes.Keys
  }

  // --- what one move does, as far as gossip goes ---

  /** In n1 the letter says what it says in n. */
  ghost predicate SameLetter(n: Net, n1: Net, l: Letter) {
    Aloft(n.w, l) ==> Aloft(n1.w, l) && Content(n1.w, l) == Content(n.w, l)
  }

  ghost predicate IsPush(w: World, l: Letter) {
    Aloft(w, l) && Content(w, l).pkt.body.kind == GOSSIP
  }

  /** The push is its sender's table, listed in this order. */
  ghost predicate Snapshot(w: World, lib: Library, l: Letter, listing: seq<string>) {
    && IsPush(w, l)
    && var t := w[l.from].s.nodes;
       && Lists(listing, t.Keys) && (forall id :: id in listing ==> id in t)
       && Content(w, l).pkt.body.payload == GossipPayload(lib, t, listing)
  }

  /** The pushes this node has sent in between are snapshots of the table it has now. */
  ghost predicate PushesTable(n: Net, n1: Net, lib: Library, at: string) {
    && at in n.w
    && forall l: Letter :: IsPush(n1.w, l) && l.from == at && |n.w[at].s.log| <= l.index
                           ==> exists listing :: Snapshot(n1.w, lib, l, listing)
  }

  /** The push has been merged where it went. */
  ghost predicate MergesPush(n: Net, n1: Net, lib: Library, l: Letter, now: int) {
    IsPush(n.w, l) ==>
      var to := Goal(n.w, l);
      && to in n.w && to in n1.w
      && n1.w[to].s.nodes == MergeOf(n.w[to].s.nodes, DecodeGossip(lib, Content(n.w, l).pkt.body.payload), now)
  }

  ghost predicate Effect(n: Net, m: Move, n1: Net, lib: Library) {
    && (forall l :: SameLetter(n, n1, l))
    && (m.Acts? && m.e.Gossiped? ==> PushesTable(n, n1, lib, m.at))
    && (m.Arrives? ==> MergesPush(n, n1, lib, m.l, m.now))
  }

  lemma MoveKeepsLetter(n: Net, lib: Library, m: Move, l: Letter)
    requires Sane(n, lib) && CanMove(n, m)
    ensures SameLetter(n, Apply(n, m), l)
  {
    if Aloft(n.w, l) {
      if m.Acts? {
        NodeStepSane(n, lib, m.at, m.e, {});
        GrownAloft(n.w, m.at, Apply(n, m).w[m.at], l);
      } else if m.Arrives? {
        var to, e := Goal(n.w, m.l), ArrivalOf(n, m.l, m.now, m.order);
        NodeStepSane(n, lib, to, e, {m.l});
        GrownAloft(n.w, to, Apply(n, m).w[to], l);
      }
    }
  }

  lemma RoundPushesTable(n: Net, lib: Library, at: string, e: Event, n1: Net)
    requires Sane(n, lib) && e.Gossiped? && CanMove(n, Acts(at, e)) && n1 == NodeStep(n, at, e, {})
    ensures PushesTable(n, n1, lib, at)
  {
    var h := n.w[at];
    RoundPushes(h.c, h.s, e.ids, e.peers, e.listing, e.now);
    assert HonestHost(h, lib, at);
    forall l: Letter | IsPush(n1.w, l) && l.from == at && |n.w[at].s.log| <= l.index
      ensures exists listing :: Snapshot(n1.w, lib, l, listing)
    {
      assert Snapshot(n1.w, lib, l, e.listing);
    }
  }

  lemma ArrivalMergesPush(n: Net, lib: Library, l: Letter, now: int, order: seq<string>, n1: Net)
    requires Sane(n, lib) && CanMove(n, Arrives(l, now, order)) && n1 == Apply(n, Arrives(l, now, order))
    ensures MergesPush(n, n1, lib, l, now)
  {
    if IsPush(n.w, l) {
      var to, pkt, sender := Goal(n.w, l), Content(n.w, l).pkt, n.w[l.from].c;
      assert HonestHost(n.w[l.from], lib, l.from) && HonestHost(n.w[to], lib, to);
      HopAccepted(lib, pkt, sender.who.signKey);
      MergedByReceiver(n.w[to].c, n.w[to].s, pkt, Pack(lib, pkt), ConnTo(sender), now, order);
    }
  }

  lemma MergedByReceiver(c: Config, s: State, pkt: Packet, raw: Bytes, conn: Conn, now: int, order: seq<string>)
    requires Genuine(c, raw, conn) == Some(pkt) && pkt.body.kind == GOSSIP
    requires Enabled(c, s, Received(conn, raw, now, order))
    ensures Step(c, s, Received(conn, raw, now, order)).nodes
         == MergeOf(s.nodes, DecodeGossip(c.lib, pkt.body.payload), now)
  {
    H.ControlNodes(c, s, pkt, conn, now);
  }

  lemma MoveEffect(n: Net, lib: Library, m: Move)
    requires Sane(n, lib) && CanMove(n, m)
    ensures Effect(n, m, Apply(n, m), lib)
  {
    forall l
      ensures SameLetter(n, Apply(n, m), l)
    {
      MoveKeepsLetter(n, lib, m, l);
    }
    if m.Acts? && m.e.Gossiped? {
      RoundPushesTable(n, lib, m.at, m.e, Apply(n, m));
    }
    if m.Arrives? {
      ArrivalMergesPush(n, lib, m.l, m.now, m.order, Apply(n, m));
    }
  }

  // --- runs, by the effects of their moves ---

  ghost predicate EffectAt(nets: seq<Net>, moves: seq<Move>, lib: Library, i: nat)
    requires i < |moves| && |nets| == |moves| + 1
  {
    Effect(nets[i], moves[i], nets[i + 1], lib)
  }

  ghost predicate Effects(nets: seq<Net>, moves: seq<Move>, lib: Library) {
    |nets| == |moves| + 1 && forall i :: 0 <= i < |moves| ==> EffectAt(nets, moves, lib, i)
  }

  lemma RunEffects(nets: seq<Net>, moves: seq<Move>, lib: Library)
    requires IsNetRun(nets, moves) && Sane(nets[0], lib)
    ensures Effects(nets, moves, lib)
  {
    forall i | 0 <= i < |moves|
      ensures EffectAt(nets, moves, lib, i)
    {
      SaneRun(nets, moves, lib, i);
      assert StepOf(nets, moves, i);
      MoveEffect(nets[i], lib, moves[i]);
    }
  }

  // A letter says for ever what it said when it was sent.
  lemma {:induction false} LetterKept(nets: seq<Net>, moves: seq<Move>, lib: Library, l: Letter, i: nat, j: nat)
    requires Effects(nets, moves, lib) && i <= j <= |moves|
    ensures SameLetter(nets[i], nets[j], l)
    decreases j
  {
    if i < j {
      LetterKept(nets, moves, lib, l, i, j - 1);
      assert EffectAt(nets, moves, lib, j - 1);
      assert SameLetter(nets[j - 1], nets[j], l);
    }
  }

  // What the sender of an arrived push knew after its round, the receiver knows, along with
  // what it knew itself.
  lemma RelayTeaches(nets: seq<Net>, moves: seq<Move>, lib: Library, r: Relay)
    requires lib.CodecLaw() && Effects(nets, moves, lib) && IsRelay(nets, moves, r)
    requires Spread.Clean(nets[r.sent + 1].w[r.l.from].s.nodes)
    ensures r.l.from in nets[r.sent + 1].w && Aloft(nets[r.arrived].w, r.l)
    ensures var to := Goal(nets[r.arrived].w, r.l);
            && to == Goal(nets[r.sent + 1].w, r.l)
            && to in nets[r.arrived].w && to in nets[r.arrived + 1].w
            && Known(nets[r.arrived + 1], to) == Known(nets[r.arrived], to) + Known(nets[r.sent + 1], r.l.from)
  {
    var listing := RelaySnapshot(nets, moves, lib, r);
    LetterKept(nets, moves, lib, r.l, r.sent + 1, r.arrived);
    assert EffectAt(nets, moves, lib, r.arrived);
    PushTeaches(nets[r.sent + 1], nets[r.arrived], nets[r.arrived + 1], lib, r.l, moves[r.arrived].now, listing);
  }

  lemma RelaySnapshot(nets: seq<Net>, moves: seq<Move>, lib: Library, r: Relay) returns (listing: seq<string>)
    requires Effects(nets, moves, lib) && IsRelay(nets, moves, r)
    ensures Snapshot(nets[r.sent + 1].w, lib, r.l, listing)
  {
    assert EffectAt(nets, moves, lib, r.sent);
    assert IsPush(nets[r.sent + 1].w, r.l);
    listing :| Snapshot(nets[r.sent + 1].w, lib, r.l, listing);
  }

  // A snapshot of n, still in the air in n1, is merged by the step to n2.
  lemma PushTeaches(n: Net, n1: Net, n2: Net, lib: Library, l: Letter, now: int, listing: seq<string>)
    requires lib.CodecLaw() && Snapshot(n.w, lib, l, listing) && SameLetter(n, n1, l) && MergesPush(n1, n2, lib, l, now)
    requires Spread.Clean(n.w[l.from].s.nodes)
    ensures Aloft(n1.w, l) && Goal(n1.w, l) == Goal(n.w, l)
    ensures var to := Goal(n1.w, l);
            to in n1.w && to in n2.w && Known(n2, to) == Known(n1, to) + Known(n, l.from)
  {
    SnapshotMerged(lib, n.w[l.from].s.nodes, listing, n1.w[Goal(n1.w, l)].s.nodes, now);
  }

  /** No node forgets an id between the two. */
  ghost predicate Remembers(n: Net, n1: Net) {
    forall id :: id in n.w ==> id in n1.w && Known(n, id) <= Known(n1, id)
  }

  /** No node of the run ever forgets an id. */
  ghost predicate Forgetless(nets: seq<Net>, moves: seq<Move>)
    requires |nets| == |moves| + 1
  {
    forall i :: 0 <= i < |moves| ==> Remembers(Before(nets, moves, i), After(nets, moves, i))
  }

  ghost function Before(nets: seq<Net>, moves: seq<Move>, i: nat): Net
    requires i < |moves| < |nets|
  {
    nets[i]
  }

  ghost function After(nets: seq<Net>, moves: seq<Move>, i: nat): Net
    requires i < |moves| && |nets| == |moves| + 1
  {
    nets[i + 1]
  }

  lemma {:induction false} KnownStays(nets: seq<Net>, moves: seq<Move>, i: nat, j: nat, id: string)
    requires |nets| == |moves| + 1 && Forgetless(nets, moves) && i <= j <= |moves| && id in nets[i].w
    ensures id in nets[j].w && Known(nets[i], id) <= Known(nets[j], id)
    decreases j
  {
    if i < j {
      KnownStays(nets, moves, i, j - 1, id);
      assert Remembers(Before(nets, moves, j - 1), After(nets, moves, j - 1));
    }
  }

  /** Arrived pushes of usable rows, one after the other, each from where the last one arrived. */
  ghost predicate Chain(nets: seq<Net>, moves: seq<Move>, relays: seq<Relay>)
    requires |nets| == |moves| + 1
  {
    && (forall k :: 0 <= k < |relays| ==>
          IsRelay(nets, moves, relays[k]) && Spread.Clean(nets[relays[k].sent + 1].w[relays[k].l.from].s.nodes))
    && (forall k :: 0 < k < |relays| ==> Linked(nets, relays[k - 1], relays[k]))
  }

  ghost predicate Linked(nets: seq<Net>, r: Relay, next: Relay) {
    && r.arrived < next.sent && r.arrived < |nets|
    && Aloft(nets[r.arrived].w, r.l) && Goal(nets[r.arrived].w, r.l) == next.l.from
  }

  /** Where the push arrived, all is known that this node knew at moment i. */
  ghost predicate Taught(nets: seq<Net>, i: nat, id: string, r: Relay) {
    && i < |nets| && id in nets[i].w
    && r.arrived + 1 < |nets| && Aloft(nets[r.arrived].w, r.l)
    && var to := Goal(nets[r.arrived].w, r.l);
       to in nets[r.arrived + 1].w && Known(nets[i], id) <= Known(nets[r.arrived + 1], to)
  }

  lemma OneRelay(nets: seq<Net>, moves: seq<Move>, lib: Library, r: Relay)
    requires lib.CodecLaw() && Effects(nets, moves, lib) && Forgetless(nets, moves) && IsRelay(nets, moves, r)
    requires Spread.Clean(nets[r.sent + 1].w[r.l.from].s.nodes)
    ensures Taught(nets, r.sent, r.l.from, r) && Taught(nets, r.sent + 1, r.l.from, r)
  {
    RelayTeaches(nets, moves, lib, r);
    KnownStays(nets, moves, r.sent, r.sent + 1, r.l.from);
  }

  lemma NextRelay(nets: seq<Net>, moves: seq<Move>, i: nat, id: string, r: Relay, next: Relay)
    requires |nets| == |moves| + 1 && Forgetless(nets, moves) && Taught(nets, i, id, r) && Linked(nets, r, next)
    requires Taught(nets, next.sent + 1, next.l.from, next)
    ensures Taught(nets, i, id, next)
  {
    KnownStays(nets, moves, r.arrived + 1, next.sent + 1, next.l.from);
  }

  lemma ChainBefore(nets: seq<Net>, moves: seq<Move>, relays: seq<Relay>)
    requires |nets| == |moves| + 1 && |relays| > 1 && Chain(nets, moves, relays)
    ensures Chain(nets, moves, relays[..|relays| - 1])
    ensures Linked(nets, relays[|relays| - 2], relays[|relays| - 1])
  {
    var before := relays[..|relays| - 1];
    assert forall k :: 0 <= k < |before| ==> before[k] == relays[k];
  }

  lemma {:induction false} ChainTeaches(nets: seq<Net>, moves: seq<Move>, lib: Library, relays: seq<Relay>)
    requires lib.CodecLaw() && Effects(nets, moves, lib) && Forgetless(nets, moves)
    requires relays != [] && Chain(nets, moves, relays)
    ensures Taught(nets, relays[0].sent, relays[0].l.from, relays[|relays| - 1])
  {
    var n := |relays| - 1;
    OneRelay(nets, moves, lib, relays[n]);
    if n > 0 {
      ChainBefore(nets, moves, relays);
      ChainTeaches(nets, moves, lib, relays[..n]);
      NextRelay(nets, moves, relays[0].sent, relays[0].l.from, relays[n - 1], relays[n]);
    }
  }

  // Gossip spreads through a network of whole nodes: along any chain of pushes that their
  // rounds sent and that arrived, whatever else the nodes did meanwhile, everything the first
  // node knew at the start the last one knows at the end, if nobody is removed.
  lemma RunsSpread(nets: seq<Net>, moves: seq<Move>, lib: Library, relays: seq<Relay>)
    requires IsNetRun(nets, moves) && Sane(nets[0], lib) && Forgetless(nets, moves)
    requires relays != [] && Chain(nets, moves, relays)
    ensures var first, last := relays[0], relays[|relays| - 1];
            && first.l.from in nets[0].w && Aloft(nets[last.arrived].w, last.l)
            && var to := Goal(nets[last.arrived].w, last.l);
               to in nets[|moves|].w && Known(nets[0], first.l.from) <= Known(nets[|moves|], to)
  {
    var first, last := relays[0], relays[|relays| - 1];
    RunEffects(nets, moves, lib);
    ChainTeaches(nets, moves, lib, relays);
    SaneRun(nets, moves, lib, first.sent);
    KnownStays(nets, moves, 0, first.sent, first.l.from);
    KnownStays(nets, moves, last.arrived + 1, |moves|, Goal(nets[last.arrived].w, last.l));
  }
}
