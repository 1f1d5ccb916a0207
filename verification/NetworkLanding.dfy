// A message in a network that does whatever else it does: the ranks that bound one journey
// bound all the arrivals of a message in every interleaving.
module NetworkLanding {
  import opened Text
  import opened Primitives
  import opened Protocol
  import opened Tables
  import opened Machine
  import opened Ledger
  import opened Invariants
  import opened FlushDelivery
  import opened Pushes
  import opened Logs
  import opened Hops
  import opened Network
  import D = Delivery

  // --- what one step sends ---

  // What a step adds to the log about b, when it does not give b, goes to b's cell at most.
  lemma NoneWeighs(lib: Library, log: seq<Fate>, log1: seq<Fate>, b: Body)
    requires Grows(log, log1) && LogCount(lib, log1, b) == LogCount(lib, log, b)
    ensures forall i :: |log| <= i < |log1| ==> !Weighs(lib, log1[i], b)
  {
    LogCountGrows(lib, log, log1, b);
  }

  lemma {:induction false} LogCountGrows(lib: Library, log: seq<Fate>, log1: seq<Fate>, b: Body)
    requires Grows(log, log1)
    ensures LogCount(lib, log1, b) >= LogCount(lib, log, b)
    ensures LogCount(lib, log1, b) == LogCount(lib, log, b) ==>
              forall i :: |log| <= i < |log1| ==> !Weighs(lib, log1[i], b)
    decreases |log1|
  {
    if |log1| == |log| {
      assert log1 == log;
    } else {
      var n := |log1| - 1;
      assert log1[..n][..|log|] == log1[..|log|];
      LogCountGrows(lib, log, log1[..n], b);
      assert forall i :: 0 <= i < n ==> log1[..n][i] == log1[i];
    }
  }

  /** Of the new entries that carry b none went to another peer than this. */
  ghost predicate OnlyTo(log: seq<Fate>, log1: seq<Fate>, b: Body, cell: string) {
    forall i :: |log| <= i < |log1| && log1[i].Sent? && log1[i].pkt.body == b ==> log1[i].conn.peerNodeId == cell
  }

  lemma RegisterOnlyTo(c: Config, s: State, payload: Bytes, conn: Conn, now: int, order: seq<string>, b: Body, cell: string)
    requires Bound(s) && BufferOk(c.lib, s.buffer) && FlushOrder(c, s, payload, conn, now, order)
    requires ParseAddr(b.toAddr).0 == Some(cell)
    ensures OnlyTo(s.log, HandleCellRegister(c, s, payload, conn, now, order).log, b, cell)
  {
    var claim := ProvenClaim(c, payload, conn);
    if claim.Some? {
      RegistrationDrains(c, s, payload, conn, now, order);
      FlushOnlyTo(c, s, HandleCellRegister(c, s, payload, conn, now, order), conn.peerNodeId, now, order, b, cell);
    }
  }

  lemma FlushOnlyTo(c: Config, s: State, t: State, claimed: string, now: int, order: seq<string>, b: Body, cell: string)
    requires Bound(s) && BufferOk(c.lib, s.buffer) && ParseAddr(b.toAddr).0 == Some(cell)
    requires Lists(order, Buffered(s.buffer, claimed, now).Keys)
    requires forall id :: id in order ==> id in s.buffer && Unpack(c.lib, s.buffer[id].payload).Some?
    requires FlushLog(c, s, t, s.buffer, order, claimed)
    ensures OnlyTo(s.log, t.log, b, cell)
  {
    forall i | |s.log| <= i < |t.log|
      ensures t.log[i].Sent? && t.log[i].pkt.body == b ==> t.log[i].conn.peerNodeId == cell
    {
      FlushEntryTo(c, s, t, claimed, now, order, i - |s.log|, b, cell);
    }
  }

  lemma FlushEntryTo(c: Config, s: State, t: State, claimed: string, now: int, order: seq<string>, k: nat, b: Body, cell: string)
    requires Bound(s) && BufferOk(c.lib, s.buffer) && ParseAddr(b.toAddr).0 == Some(cell)
    requires Lists(order, Buffered(s.buffer, claimed, now).Keys)
    requires forall id :: id in order ==> id in s.buffer && Unpack(c.lib, s.buffer[id].payload).Some?
    requires FlushLog(c, s, t, s.buffer, order, claimed) && k < |order|
    ensures var f := t.log[|s.log| + k];
            f.Sent? && f.pkt.body == b ==> f.conn.peerNodeId == cell
  {
    var f := t.log[|s.log| + k];
    assert RowFate(c, s, Connection(s, claimed), s.buffer[order[k]], k, f);
    if f.Sent? && f.pkt.body == b {
      RowSentTo(c, s, claimed, now, order[k], k, f, b, cell, order);
    }
  }

  lemma RowSentTo(c: Config, s: State, claimed: string, now: int, id: string, k: nat, f: Fate, b: Body, cell: string, order: seq<string>)
    requires Bound(s) && BufferOk(c.lib, s.buffer) && ParseAddr(b.toAddr).0 == Some(cell)
    requires Lists(order, Buffered(s.buffer, claimed, now).Keys) && id in order
    requires id in s.buffer && Unpack(c.lib, s.buffer[id].payload).Some?
    requires RowFate(c, s, Connection(s, claimed), s.buffer[id], k, f)
    requires f.Sent? && f.pkt.body == b
    ensures f.conn.peerNodeId == cell
  {
    assert id in Buffered(s.buffer, claimed, now).Keys;
    assert RowOk(c.lib, id, s.buffer[id]);
  }

  lemma RouteOnlyTo(c: Config, s: State, pkt: Packet, now: int, b: Body, cell: string)
    requires pkt.body != b
    ensures OnlyTo(s.log, Route(c, s, pkt, now).s.log, b, cell)
  {
    RouteTried(c, s, pkt, now);
    SettledOnlyTo(c, s, Route(c, s, pkt, now).s, pkt.body, b, cell);
  }

  lemma SettledOnlyTo(c: Config, s: State, t: State, x: Body, b: Body, cell: string)
    requires x != b && (Settled(c, s, t, x) || t.log == s.log)
    ensures OnlyTo(s.log, t.log, b, cell)
  {
  }

  lemma SilentOnlyTo(lib: Library, log: seq<Fate>, log1: seq<Fate>, b: Body, cell: string)
    requires Grows(log, log1) && LogCount(lib, log1, b) == LogCount(lib, log, b)
    ensures OnlyTo(log, log1, b, cell)
  {
    NoneWeighs(lib, log, log1, b);
  }

  lemma OnlyToThen(log: seq<Fate>, log1: seq<Fate>, log2: seq<Fate>, b: Body, cell: string)
    requires Grows(log, log1) && Grows(log1, log2) && OnlyTo(log, log1, b, cell) && OnlyTo(log1, log2, b, cell)
    ensures Grows(log, log2) && OnlyTo(log, log2, b, cell)
  {
    GrowsOn(log, log1, log2);
    assert forall i :: 0 <= i < |log1| ==> log2[..|log1|][i] == log2[i];
  }

  lemma RoundOnlyTo(c: Config, s: State, ids: seq<string>, peers: seq<string>, listing: seq<string>, now: int, b: Body, cell: string)
    requires RoundOrders(c, s, ids, peers, listing, now) && b.kind == MSG
    ensures OnlyTo(s.log, Round(c, s, ids, peers, listing, now).log, b, cell)
  {
    var pinged, cleaned, t := PingAll(c, s, ids, now), BeforeExchange(c, s, ids, now), Round(c, s, ids, peers, listing, now);
    PingAllPushless(c, s, ids, now);
    PingAllAccount(c, s, ids, now, b);
    SilentOnlyTo(c.lib, s.log, pinged.log, b, cell);
    CleanupGrows(pinged, now);
    OnlyToThen(s.log, pinged.log, cleaned.log, b, cell);
    ExchangePushes(c, cleaned, peers, listing, now);
    ExchangeAccount(c, cleaned, peers, listing, now, b);
    SilentOnlyTo(c.lib, cleaned.log, t.log, b, cell);
    OnlyToThen(s.log, cleaned.log, t.log, b, cell);
  }

  lemma DispatchOnlyTo(c: Config, s: State, pkt: Packet, conn: Conn, now: int, order: seq<string>, b: Body, cell: string)
    requires Bound(s) && BufferOk(c.lib, s.buffer) && ParseAddr(b.toAddr).0 == Some(cell) && b.kind == MSG
    requires pkt.body.kind == CELL_REGISTER ==> FlushOrder(c, s, pkt.body.payload, conn, now, order)
    requires pkt.body != b
    ensures OnlyTo(s.log, Dispatch(c, s, pkt, conn, now, order).log, b, cell)
  {
    if pkt.body.kind == MSG {
      RouteOnlyTo(c, s, pkt, now, b, cell);
    } else if pkt.body.kind == CELL_REGISTER {
      RegisterOnlyTo(c, s, pkt.body.payload, conn, now, order, b, cell);
    } else {
      ControlGrows(c, s, pkt, conn, now);
      DispatchControlAccount(c, s, pkt, conn, now, b);
      SilentOnlyTo(c.lib, s.log, DispatchControl(c, s, pkt, conn, now).log, b, cell);
    }
  }

  lemma ReceiveOnlyTo(c: Config, s: State, raw: Bytes, conn: Conn, now: int, order: seq<string>, b: Body, cell: string)
    requires Bound(s) && BufferOk(c.lib, s.buffer) && ParseAddr(b.toAddr).0 == Some(cell) && b.kind == MSG
    requires ReceiveOrder(c, s, raw, conn, now, order)
    requires Given(c, Received(conn, raw, now, order)) != Some(b)
    ensures OnlyTo(s.log, Receive(c, s, raw, conn, now, order).log, b, cell)
  {
    var p := Genuine(c, raw, conn);
    if p.Some? {
      DispatchOnlyTo(c, s, p.value, conn, now, order, b, cell);
    }
  }

  // A step that does not give b sends it, if at all, to its cell: out of the buffer.
  lemma StepOnlyTo(c: Config, s: State, e: Event, b: Body, cell: string)
    requires Bound(s) && BufferOk(c.lib, s.buffer) && ParseAddr(b.toAddr).0 == Some(cell) && b.kind == MSG
    requires Enabled(c, s, e) && Given(c, e) != Some(b)
    ensures OnlyTo(s.log, Step(c, s, e).log, b, cell)
  {
    if Bystander(e) {
      BystanderAccount(c, s, e);
    } else {
      match e
      case Received(conn, raw, now, order) => ReceiveOnlyTo(c, s, raw, conn, now, order, b, cell);
      case Submitted(pkt, now) => RouteOnlyTo(c, s, pkt, now, b, cell);
      case Gossiped(ids, peers, listing, now) => RoundOnlyTo(c, s, ids, peers, listing, now, b, cell);
    }
  }

  /** Of the new entries that carry b each went to the cell or to a node of lower rank. */
  ghost predicate Descends(log: seq<Fate>, log1: seq<Fate>, b: Body, cell: string, rank: string -> nat, top: nat) {
    && |log1| <= |log| + 1
    && forall i :: |log| <= i < |log1| && log1[i].Sent? && log1[i].pkt.body == b ==>
         log1[i].conn.peerNodeId == cell || rank(log1[i].conn.peerNodeId) < top
  }

  // A step that gives b sends it on at most once, and then downhill.
  lemma GivenDescends(c: Config, s: State, e: Event, b: Body, cell: string, rank: string -> nat)
    requires Bound(s) && Me(c) != "" && Enabled(c, s, e) && Given(c, e) == Some(b)
    requires ParseAddr(b.toAddr).0 == Some(cell) && RowDownhill(s, Me(c), cell, rank)
    ensures Descends(s.log, Step(c, s, e).log, b, cell, rank, rank(Me(c)))
  {
    D.GivenIsRouted(c, s, e);
    RouteDescends(c, s, D.GivenPacket(c, e), D.TimeOf(e), b, cell, rank);
  }

  lemma RouteDescends(c: Config, s: State, pkt: Packet, now: int, b: Body, cell: string, rank: string -> nat)
    requires Bound(s) && Me(c) != "" && pkt.body == b
    requires ParseAddr(b.toAddr).0 == Some(cell) && RowDownhill(s, Me(c), cell, rank)
    ensures Descends(s.log, Route(c, s, pkt, now).s.log, b, cell, rank, rank(Me(c)))
  {
    SendsDownhill(c, s, pkt, now, cell, rank);
    RouteTried(c, s, pkt, now);
    DescendsIf(s.log, Route(c, s, pkt, now).s.log, b, cell, rank, rank(Me(c)));
  }

  lemma DescendsIf(log: seq<Fate>, log1: seq<Fate>, b: Body, cell: string, rank: string -> nat, top: nat)
    requires log1 == log
             || (|log1| == |log| + 1
                 && (log1[|log|].Sent? ==> log1[|log|].conn.peerNodeId == cell || rank(log1[|log|].conn.peerNodeId) < top))
    ensures Descends(log, log1, b, cell, rank, top)
  {
  }

  // --- adding up ---

  ghost function Sum(letters: set<Letter>, f: Letter -> nat): nat {
    if letters == {} then 0
    else
      var l :| l in letters;
      f(l) + Sum(letters - {l}, f)
  }

  lemma {:induction false} SumOut(letters: set<Letter>, f: Letter -> nat, l: Letter)
    requires l in letters
    ensures Sum(letters, f) == f(l) + Sum(letters - {l}, f)
    decreases letters
  {
    var k :| k in letters && Sum(letters, f) == f(k) + Sum(letters - {k}, f);
    if k != l {
      SumOut(letters - {k}, f, l);
      SumOut(letters - {l}, f, k);
      assert letters - {k} - {l} == letters - {l} - {k};
    }
  }

  lemma {:induction false} SumSame(letters: set<Letter>, f: Letter -> nat, g: Letter -> nat)
    requires forall l :: l in letters ==> f(l) == g(l)
    ensures Sum(letters, f) == Sum(letters, g)
    decreases letters
  {
    if letters != {} {
      var l :| l in letters;
      SumOut(letters, f, l);
      SumOut(letters, g, l);
      SumSame(letters - {l}, f, g);
    }
  }

  // --- the potential ---

  /** One more than the rank of where the letter goes. */
  ghost function HeightOf(w: World, rank: string -> nat, l: Letter): nat {
    if Aloft(w, l) then rank(Goal(w, l)) + 1 else 0
  }

  ghost function Height(w: World, rank: string -> nat): Letter -> nat {
    l => HeightOf(w, rank, l)
  }

  /** How often the copies of b under way can still arrive. */
  ghost function Potential(n: Net, rank: string -> nat, b: Body): nat
    requires forall l :: l in n.air ==> Aloft(n.w, l)
  {
    Sum(AirOf(n, b), Height(n.w, rank))
  }

  lemma SameHeights(w: World, at: string, h1: Host, rank: string -> nat, letters: set<Letter>)
    requires at in w && Grows(w[at].s.log, h1.s.log) && forall l :: l in letters ==> Aloft(w, l)
    ensures Sum(letters, Height(w[at := h1], rank)) == Sum(letters, Height(w, rank))
  {
    forall l | l in letters
      ensures Height(w[at := h1], rank)(l) == Height(w, rank)(l)
    {
      GrownAloft(w, at, h1, l);
    }
    SumSame(letters, Height(w[at := h1], rank), Height(w, rank));
  }

  lemma NoNewLetters(at: string, log: seq<Fate>, log1: seq<Fate>, nodes: set<string>, b: Body, cell: string)
    requires OnlyTo(log, log1, b, cell) && cell !in nodes
    ensures LettersOf(at, log, log1, nodes, b) == {}
  {
  }

  // Sending on adds less than the rank of the sender to the potential.
  lemma OneNewLetter(w: World, at: string, h1: Host, b: Body, cell: string, rank: string -> nat)
    requires at in w && cell !in w && Grows(w[at].s.log, h1.s.log)
    requires Descends(w[at].s.log, h1.s.log, b, cell, rank, rank(at))
    ensures Sum(LettersOf(at, w[at].s.log, h1.s.log, w.Keys, b), Height(w[at := h1], rank)) <= rank(at)
  {
    var log, log1 := w[at].s.log, h1.s.log;
    var letters, l := LettersOf(at, log, log1, w.Keys, b), Letter(at, |log|);
    if letters != {} {
      assert letters == {l};
      SumOut(letters, Height(w[at := h1], rank), l);
      assert Sum(letters - {l}, Height(w[at := h1], rank)) == 0;
      assert Aloft(w[at := h1], l) && rank(Goal(w[at := h1], l)) < rank(at);
    }
  }

  lemma {:induction false} SumUnion(a: set<Letter>, b: set<Letter>, f: Letter -> nat)
    requires a !! b
    ensures Sum(a + b, f) == Sum(a, f) + Sum(b, f)
    decreases b
  {
    if b == {} {
      assert a + b == a;
    } else {
      var l :| l in b;
      SumOut(a + b, f, l);
      SumOut(b, f, l);
      assert (a + b) - {l} == a + (b - {l});
      SumUnion(a, b - {l}, f);
    }
  }

  /** The rows for the cell descend, and neither the cell nor the empty id is a node. */
  ghost predicate Downward(w: World, cell: string, rank: string -> nat) {
    Ranked(w, cell, rank) && cell !in w && "" !in w
  }

  lemma NodeStepPotential(n: Net, lib: Library, at: string, e: Event, b: Body, cell: string, rank: string -> nat)
    requires Sane(n, lib) && Downward(n.w, cell, rank) && b.kind == MSG && ParseAddr(b.toAddr).0 == Some(cell)
    requires at in n.w && Enabled(n.w[at].c, n.w[at].s, e)
    ensures Sane(NodeStep(n, at, e, {}), lib)
    ensures Potential(NodeStep(n, at, e, {}), rank, b)
         <= Potential(n, rank, b) + if Given(n.w[at].c, e) == Some(b) then rank(at) else 0
  {
    var h := n.w[at];
    var h1 := Host(h.c, Step(h.c, h.s, e));
    HostStepKeeps(h, lib, at, e);
    HostAfterPotential(n, lib, at, h1, b, rank);
    assert n.air - {} == n.air;
    if Given(h.c, e) == Some(b) {
      GivenDescends(h.c, h.s, e, b, cell, rank);
      OneNewLetter(n.w, at, h1, b, cell, rank);
    } else {
      StepOnlyTo(h.c, h.s, e, b, cell);
      NoNewLetters(at, h.s.log, h1.s.log, n.w.Keys, b, cell);
    }
  }

  lemma HostAfterPotential(n: Net, lib: Library, at: string, h1: Host, b: Body, rank: string -> nat)
    requires Sane(n, lib) && at in n.w && HonestHost(h1, lib, at) && Grows(n.w[at].s.log, h1.s.log)
    ensures var n1 := WithHost(n, at, h1);
            Sane(n1, lib)
            && Potential(n1, rank, b) == Potential(n, rank, b)
               + Sum(LettersOf(at, n.w[at].s.log, h1.s.log, n.w.Keys, b), Height(n.w[at := h1], rank))
  {
    AirAfter(n, lib, at, h1, b);
    SumUnion(AirOf(n, b), LettersOf(at, n.w[at].s.log, h1.s.log, n.w.Keys, b), Height(n.w[at := h1], rank));
    SameHeights(n.w, at, h1, rank, AirOf(n, b));
  }

  lemma TakenPotential(n: Net, lib: Library, l: Letter, b: Body, rank: string -> nat)
    requires Sane(n, lib) && l in n.air
    ensures var n1 := n.(air := n.air - {l});
            Sane(n1, lib)
            && Potential(n1, rank, b) + (if Carries(n.w, l, b) == 1 then rank(Goal(n.w, l)) + 1 else 0) == Potential(n, rank, b)
  {
    var n1 := n.(air := n.air - {l});
    if Carries(n.w, l, b) == 1 {
      assert AirOf(n1, b) == AirOf(n, b) - {l};
      SumOut(AirOf(n, b), Height(n.w, rank), l);
    } else {
      assert AirOf(n1, b) == AirOf(n, b);
    }
  }

  // --- arrivals ---

  ghost function ArrivedBy(n: Net, m: Move, b: Body): nat {
    if m.Arrives? && Aloft(n.w, m.l) then Carries(n.w, m.l, b) else 0
  }

  ghost function RankOfEntry(n: Net, m: Move, b: Body, rank: string -> nat): nat {
    if EnteredBy(n, m, b) == 1 then rank(m.at) else 0
  }

  lemma ArrivalPotential(n: Net, lib: Library, l: Letter, now: int, order: seq<string>, b: Body, cell: string, rank: string -> nat)
    requires Sane(n, lib) && Downward(n.w, cell, rank) && b.kind == MSG && ParseAddr(b.toAddr).0 == Some(cell)
    requires CanMove(n, Arrives(l, now, order))
    ensures Sane(Apply(n, Arrives(l, now, order)), lib)
    ensures Potential(Apply(n, Arrives(l, now, order)), rank, b) + Carries(n.w, l, b) <= Potential(n, rank, b)
  {
    var taken, to, e := n.(air := n.air - {l}), Goal(n.w, l), ArrivalOf(n, l, now, order);
    ArrivalGives(n, lib, l, now, order, b);
    TakenPotential(n, lib, l, b, rank);
    ArrivalSteps(n, l, now, order);
    NodeStepPotential(taken, lib, to, e, b, cell, rank);
  }

  lemma MovePotential(n: Net, lib: Library, m: Move, b: Body, cell: string, rank: string -> nat)
    requires Sane(n, lib) && Downward(n.w, cell, rank) && b.kind == MSG && ParseAddr(b.toAddr).0 == Some(cell)
    requires CanMove(n, m)
    ensures Sane(Apply(n, m), lib)
    ensures Potential(Apply(n, m), rank, b) + ArrivedBy(n, m, b) <= Potential(n, rank, b) + RankOfEntry(n, m, b, rank)
  {
    match m
    case Acts(at, e) => NodeStepPotential(n, lib, at, e, b, cell, rank);
    case Arrives(l, now, order) => ArrivalPotential(n, lib, l, now, order, b, cell, rank);
    case IsLost(l) => TakenPotential(n, lib, l, b, rank);
  }

  ghost function Arrivals(nets: seq<Net>, moves: seq<Move>, b: Body): nat
    requires |nets| == |moves| + 1
  {
    if moves == [] then 0
    else
      var n := |moves| - 1;
      Arrivals(nets[..n + 1], moves[..n], b) + ArrivedBy(nets[n], moves[n], b)
  }

  /** The ranks of the nodes where copies of b entered, added up. */
  ghost function EntryRanks(nets: seq<Net>, moves: seq<Move>, b: Body, rank: string -> nat): nat
    requires |nets| == |moves| + 1
  {
    if moves == [] then 0
    else
      var n := |moves| - 1;
      EntryRanks(nets[..n + 1], moves[..n], b, rank) + RankOfEntry(nets[n], moves[n], b, rank)
  }

  // In every interleaving in which the presence rows for its cell keep descending in rank, the
  // copies of a message arrive at nodes, taken together, no more often than the ranks of the
  // nodes add up to at which they were given to a router.
  lemma {:induction false} ArrivalsBounded(nets: seq<Net>, moves: seq<Move>, lib: Library, b: Body, cell: string, rank: string -> nat)
    requires IsNetRun(nets, moves) && Sane(nets[0], lib) && b.kind == MSG && ParseAddr(b.toAddr).0 == Some(cell)
    requires forall i :: 0 <= i < |nets| ==> Downward(nets[i].w, cell, rank)
    ensures Sane(nets[|moves|], lib)
    ensures Potential(nets[|moves|], rank, b) + Arrivals(nets, moves, b)
         <= Potential(nets[0], rank, b) + EntryRanks(nets, moves, b, rank)
    decreases |moves|
  {
    if moves != [] {
      var n := |moves| - 1;
      RunPrefix(nets, moves, n);
      ArrivalsBounded(nets[..n + 1], moves[..n], lib, b, cell, rank);
      assert StepOf(nets, moves, n);
      MovePotential(nets[n], lib, moves[n], b, cell, rank);
    }
  }

  // A message given once, at a node of rank r, to a network that has no copy of it: it arrives
  // at most r times; it is then at rest at exactly one node, or under way, or lost on the way;
  // and while it is under way it has arrived fewer than r times.
  lemma GivenOnceLands(nets: seq<Net>, moves: seq<Move>, lib: Library, ids: seq<string>, b: Body, cell: string,
                       rank: string -> nat, k: nat)
    requires IsNetRun(nets, moves) && Sane(nets[0], lib) && Roster(ids, nets[0].w)
    requires b.kind == MSG && ParseAddr(b.toAddr).0 == Some(cell)
    requires forall i :: 0 <= i < |nets| ==> Downward(nets[i].w, cell, rank)
    requires Copies(nets[0], ids, b) == 0
    requires k < |moves| && EnteredBy(nets[k], moves[k], b) == 1
    requires forall i :: 0 <= i < |moves| && i != k ==> EnteredBy(nets[i], moves[i], b) == 0
    ensures Sane(nets[|moves|], lib) && Roster(ids, nets[|moves|].w)
    ensures RestTotal(nets[|moves|].w, ids, b) + |AirOf(nets[|moves|], b)| + Lost(nets, moves, b) == 1
    ensures Arrivals(nets, moves, b) <= rank(moves[k].at)
    ensures AirOf(nets[|moves|], b) != {} ==> Arrivals(nets, moves, b) < rank(moves[k].at)
  {
    NetConservation(nets, moves, lib, ids, b);
    EnteredOnce(nets, moves, b, rank, k);
    GivenOnceBounded(nets, moves, lib, b, cell, rank, moves[k].at);
  }

  lemma GivenOnceBounded(nets: seq<Net>, moves: seq<Move>, lib: Library, b: Body, cell: string,
                         rank: string -> nat, at: string)
    requires IsNetRun(nets, moves) && Sane(nets[0], lib) && b.kind == MSG && ParseAddr(b.toAddr).0 == Some(cell)
    requires forall i :: 0 <= i < |nets| ==> Downward(nets[i].w, cell, rank)
    requires |AirOf(nets[0], b)| == 0 && EntryRanks(nets, moves, b, rank) == rank(at)
    ensures Sane(nets[|moves|], lib)
    ensures Arrivals(nets, moves, b) <= rank(at)
    ensures AirOf(nets[|moves|], b) != {} ==> Arrivals(nets, moves, b) < rank(at)
  {
    ArrivalsBounded(nets, moves, lib, b, cell, rank);
    assert AirOf(nets[0], b) == {};
    SomeAloft(nets[|moves|], rank, b);
  }

  lemma SomeAloft(n: Net, rank: string -> nat, b: Body)
    requires forall l :: l in n.air ==> Aloft(n.w, l)
    ensures AirOf(n, b) != {} ==> Potential(n, rank, b) >= 1
  {
    if l :| l in AirOf(n, b) {
      SumOut(AirOf(n, b), Height(n.w, rank), l);
    }
  }

  lemma {:induction false} EnteredOnce(nets: seq<Net>, moves: seq<Move>, b: Body, rank: string -> nat, k: nat)
    requires |nets| == |moves| + 1
    requires forall i :: 0 <= i < |moves| && i != k ==> EnteredBy(nets[i], moves[i], b) == 0
    requires k < |moves| ==> EnteredBy(nets[k], moves[k], b) == 1
    ensures Entered(nets, moves, b) == if k < |moves| then 1 else 0
    ensures EntryRanks(nets, moves, b, rank) == if k < |moves| then rank(moves[k].at) else 0
    decreases |moves|
  {
    if moves != [] {
      var n := |moves| - 1;
      EnteredOnce(nets[..n + 1], moves[..n], b, rank, k);
    }
  }
}
