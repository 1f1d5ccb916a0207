// A network in which gossip spreads: two nodes, of which one has founded the network and then
// joined the other, which knows nobody. One round, one push, and the other knows both.
module NetworkWitness {
  import opened Text
  import opened Protocol
  import opened Tables
  import opened Auth
  import opened Machine
  import opened NodeHistory
  import opened Rounds
  import opened Hops
  import opened Network
  import opened NetworkGossip
  import opened Witnesses

  /** Two different nodes whose attempts all go through. */
  ghost predicate TwoNodes(a: Config, b: Config) {
    && a.lib == b.lib && a.lib.CodecLaw() && a.lib.SigningLaw()
    && Me(a) != Me(b) && Me(a) != "" && Me(b) != ""
    && forall tick :: a.luck(tick).delivered && b.luck(tick).delivered
  }

  function Founder(a: Config): State {
    Empty.(nodes := map[Me(a) := SelfRow("a:1", "open", 0)])
  }

  /** The node that has founded the network and joined the other. */
  function Joiner(a: Config, b: Config): State {
    Register(Founder(a), PeerConn(b.lib, b.who)).(
      nodes := map[Me(a) := SelfRow("a:1", "open", 0), Me(b) := SelfRow("b:1", "open", 0)])
  }

  /** The node that was joined. */
  function Joined(a: Config): State {
    Register(Empty, PeerConn(a.lib, a.who))
  }

  lemma FounderRun(a: Config)
    ensures Step(a, Empty, Created("a:1", "open", 0)) == Founder(a)
  {
  }

  lemma JoinerStep(a: Config, b: Config)
    requires TwoNodes(a, b)
    ensures Step(a, Founder(a), Event.Joined("b:1", HonestReply(b.lib, b.who), 0)) == Joiner(a, b)
  {
    HonestResponse(b.lib, "", "", [], b.who, "", 0, None);
    assert "b:1"[1] == ':';
  }

  lemma BothReached(a: Config, b: Config)
    requires TwoNodes(a, b)
    ensures Reached(Host(a, Joiner(a, b))) && Reached(Host(b, Joined(a)))
  {
    JoinerReached(a, b);
    var states, events := [Empty, Joined(a)], [Accepted(HonestReply(a.lib, a.who))];
    HonestPeerAccepted(b, Empty, a.who);
    assert RunFromEmpty(b, states, events) && states[|events|] == Joined(a);
  }

  lemma JoinerReached(a: Config, b: Config)
    requires TwoNodes(a, b)
    ensures Reached(Host(a, Joiner(a, b)))
  {
    var founded, joined := Created("a:1", "open", 0), Event.Joined("b:1", HonestReply(b.lib, b.who), 0);
    FounderRun(a);
    JoinerStep(a, b);
    TwoSteps(a, founded, Founder(a), joined, Joiner(a, b));
  }

  lemma TwoSteps(c: Config, e: Event, s: State, e1: Event, s1: State)
    requires Enabled(c, Empty, e) && s == Step(c, Empty, e) && Enabled(c, s, e1) && s1 == Step(c, s, e1)
    ensures Reached(Host(c, s1))
  {
    var states, events := [Empty, s, s1], [e, e1];
    assert RunFromEmpty(c, states, events) && states[|events|] == s1;
  }

  function StartNet(a: Config, b: Config): Net {
    Net(map[Me(a) := Host(a, Joiner(a, b)), Me(b) := Host(b, Joined(a))], {})
  }

  // Both start from states that they reach by runs of their own.
  lemma StartReached(a: Config, b: Config)
    requires TwoNodes(a, b)
    ensures forall id :: id in StartNet(a, b).w ==> Reached(StartNet(a, b).w[id])
  {
    BothReached(a, b);
  }

  lemma StartSane(a: Config, b: Config)
    requires TwoNodes(a, b)
    ensures Sane(StartNet(a, b), a.lib)
  {
    assert HonestHost(Host(a, Joiner(a, b)), a.lib, Me(a));
    assert HonestHost(Host(b, Joined(a)), a.lib, Me(b));
  }

  // --- the round ---

  /** The joiner's table after its round: the same two nodes, both online. */
  ghost predicate BothOnline(a: Config, b: Config, t: NodeTable) {
    && t.Keys == {Me(a), Me(b)}
    && t[Me(a)].status == ONLINE && t[Me(b)].status == ONLINE && t[Me(a)].address == "a:1" && t[Me(b)].address == "b:1"
  }

  lemma Pinged(a: Config, b: Config)
    requires TwoNodes(a, b)
    ensures var s1 := PingAll(a, Joiner(a, b), [Me(a), Me(b)], 0);
            && BothOnline(a, b, s1.nodes) && |s1.log| == 1 && s1.conns == Joiner(a, b).conns && s1.buffer == map[]
  {
    var s := Joiner(a, b);
    PingsOther(a, s, Me(b), 0);
    PingMeaning(a, s, Me(b), 0);
    PingKeepsConns(a, s, Me(b), 0);
  }

  lemma PingsOther(c: Config, s: State, other: string, now: int)
    requires other != Me(c)
    ensures PingAll(c, s, [Me(c), other], now) == PingNode(c, s, other, now)
  {
    var ids := [Me(c), other];
    var rest := ids[1..];
    assert rest == [other] && rest[1..] == [];
    assert PingAll(c, s, ids, now) == PingAll(c, s, rest, now);
    assert PingAll(c, s, rest, now) == PingAll(c, PingNode(c, s, other, now), rest[1..], now);
  }

  lemma PingKeepsConns(c: Config, s: State, id: string, now: int)
    requires id in s.conns
    ensures PingNode(c, s, id, now).conns == s.conns && PingNode(c, s, id, now).buffer == s.buffer
  {
  }

  lemma Cleaned(a: Config, b: Config)
    requires TwoNodes(a, b)
    ensures var s0 := BeforeExchange(a, Joiner(a, b), [Me(a), Me(b)], 0);
            BothOnline(a, b, s0.nodes) && |s0.log| == 2 && s0.conns == Joiner(a, b).conns
  {
    Pinged(a, b);
  }

  function TheRound(a: Config, b: Config): Event {
    Gossiped([Me(a), Me(b)], [Me(b)], [Me(a), Me(b)], 0)
  }

  lemma RoundEnabled(a: Config, b: Config)
    requires TwoNodes(a, b)
    ensures Enabled(a, Joiner(a, b), TheRound(a, b))
  {
    Cleaned(a, b);
    var online := OnlinePeers(a, Joiner(a, b).nodes);
    assert online == {Me(b)};
  }

  /** The round's one push, to the other node. */
  ghost predicate RoundDone(a: Config, b: Config, t: State) {
    && BothOnline(a, b, t.nodes) && |t.log| == 3
    && t.log[2].Sent? && t.log[2].conn == PeerConn(b.lib, b.who) && t.log[2].pkt.body.kind == GOSSIP
  }

  lemma RoundPushesOnce(a: Config, b: Config)
    requires TwoNodes(a, b) && Enabled(a, Joiner(a, b), TheRound(a, b))
    ensures RoundDone(a, b, Step(a, Joiner(a, b), TheRound(a, b)))
  {
    var s, e := Joiner(a, b), TheRound(a, b);
    Cleaned(a, b);
    RoundExact(a, s, e.ids, e.peers, e.listing, 0);
    var s0, t := BeforeExchange(a, s, e.ids, 0), Step(a, s, e);
    OneTaker(a, s0.conns, Me(b), s0.tick);
    assert PushEntry(a, t.log[|s0.log| + 0], s0.conns[Me(b)], t.nodes, e.listing, 0);
  }

  lemma OneTaker(c: Config, conns: map<string, Conn>, peer: string, tick: nat)
    requires peer in conns && c.luck(tick).delivered
    ensures Takers(c, conns, [peer], tick) == [peer]
  {
    assert [peer][1..] == [];
  }

  // --- the run ---

  function Pushed(a: Config): Letter {
    Letter(Me(a), 2)
  }

  /** The push is under way to the other node, which knows nobody yet. */
  ghost predicate PushUnderWay(a: Config, b: Config, n: Net) {
    && Me(a) in n.w && Me(b) in n.w && n.w.Keys == {Me(a), Me(b)}
    && BothOnline(a, b, n.w[Me(a)].s.nodes) && n.w[Me(b)].s.nodes == map[]
    && Aloft(n.w, Pushed(a)) && Goal(n.w, Pushed(a)) == Me(b) && Content(n.w, Pushed(a)).pkt.body.kind == GOSSIP
  }

  ghost predicate AfterRound(a: Config, b: Config, n: Net) {
    PushUnderWay(a, b, n) && Pushed(a) in n.air && n.w[Me(a)].c == a && n.w[Me(b)] == Host(b, Joined(a))
  }

  lemma PushAloft(a: Config, b: Config, n: Net, t: State)
    requires TwoNodes(a, b) && RoundDone(a, b, t)
    requires n.w == map[Me(a) := Host(a, t), Me(b) := Host(b, Joined(a))]
    requires NewLetters(Me(a), Joiner(a, b).log, t.log, {Me(a), Me(b)}) <= n.air
    ensures AfterRound(a, b, n)
  {
    assert n.w.Keys == {Me(a), Me(b)};
    assert Forwarded({Me(a), Me(b)}, t.log[2]);
  }

  lemma RoundNet(a: Config, b: Config, n: Net)
    requires TwoNodes(a, b) && Enabled(a, Joiner(a, b), TheRound(a, b))
    requires CanMove(StartNet(a, b), Acts(Me(a), TheRound(a, b))) && n == Apply(StartNet(a, b), Acts(Me(a), TheRound(a, b)))
    ensures var t := Step(a, Joiner(a, b), TheRound(a, b));
            && n.w == map[Me(a) := Host(a, t), Me(b) := Host(b, Joined(a))]
            && NewLetters(Me(a), Joiner(a, b).log, t.log, {Me(a), Me(b)}) <= n.air
  {
    assert StartNet(a, b).w.Keys == {Me(a), Me(b)};
  }

  lemma PushCanArrive(a: Config, b: Config, n: Net)
    requires TwoNodes(a, b) && Sane(n, a.lib) && AfterRound(a, b, n)
    ensures CanMove(n, Arrives(Pushed(a), 1, []))
  {
    HopAccepted(a.lib, Content(n.w, Pushed(a)).pkt, a.who.signKey);
    assert HonestHost(n.w[Me(a)], a.lib, Me(a));
  }

  function TheMoves(a: Config, b: Config): seq<Move> {
    [Acts(Me(a), TheRound(a, b)), Arrives(Pushed(a), 1, [])]
  }

  ghost predicate Goes(n: Net, m: Move, n1: Net) {
    CanMove(n, m) && n1 == Apply(n, m)
  }

  lemma FirstMove(a: Config, b: Config) returns (n1: Net)
    requires TwoNodes(a, b)
    ensures Goes(StartNet(a, b), Acts(Me(a), TheRound(a, b)), n1) && Sane(n1, a.lib) && AfterRound(a, b, n1)
  {
    var n0, m0 := StartNet(a, b), Acts(Me(a), TheRound(a, b));
    StartSane(a, b);
    RoundEnabled(a, b);
    n1 := Apply(n0, m0);
    MoveSane(n0, a.lib, m0);
    RoundLeads(a, b, n1);
  }

  lemma RoundLeads(a: Config, b: Config, n: Net)
    requires TwoNodes(a, b) && Enabled(a, Joiner(a, b), TheRound(a, b))
    requires CanMove(StartNet(a, b), Acts(Me(a), TheRound(a, b))) && n == Apply(StartNet(a, b), Acts(Me(a), TheRound(a, b)))
    ensures AfterRound(a, b, n)
  {
    RoundPushesOnce(a, b);
    RoundNet(a, b, n);
    PushAloft(a, b, n, Step(a, Joiner(a, b), TheRound(a, b)));
  }

  lemma SecondMove(a: Config, b: Config, n1: Net) returns (n2: Net)
    requires TwoNodes(a, b) && Sane(n1, a.lib) && AfterRound(a, b, n1)
    ensures Goes(n1, Arrives(Pushed(a), 1, []), n2)
    ensures n2.w.Keys == {Me(a), Me(b)} && n2.w[Me(a)] == n1.w[Me(a)]
  {
    var m1 := Arrives(Pushed(a), 1, []);
    PushCanArrive(a, b, n1);
    n2 := Apply(n1, m1);
    MoveSane(n1, a.lib, m1);
    JoinerStays(n1, m1, n2, Me(b), Me(a));
  }

  lemma TheRunExists(a: Config, b: Config) returns (nets: seq<Net>)
    requires TwoNodes(a, b)
    ensures |nets| == 3 && nets[0] == StartNet(a, b) && IsNetRun(nets, TheMoves(a, b)) && PushUnderWay(a, b, nets[1])
    ensures Me(a) in nets[2].w && nets[2].w.Keys == {Me(a), Me(b)} && nets[2].w[Me(a)] == nets[1].w[Me(a)]
  {
    var n1 := FirstMove(a, b);
    var n2 := SecondMove(a, b, n1);
    nets := [StartNet(a, b), n1, n2];
    RunOfTwo(nets, TheMoves(a, b));
  }

  lemma RunOfTwo(nets: seq<Net>, moves: seq<Move>)
    requires |nets| == 3 && |moves| == 2
    requires Goes(nets[0], moves[0], nets[1]) && Goes(nets[1], moves[1], nets[2])
    ensures IsNetRun(nets, moves)
  {
    assert StepOf(nets, moves, 0) && StepOf(nets, moves, 1);
  }

  lemma JoinerStays(n: Net, m: Move, n1: Net, at: string, id: string)
    requires CanMove(n, m) && n1 == Apply(n, m) && id in n.w && id != at
    requires m.Arrives? && Goal(n.w, m.l) == at
    ensures id in n1.w && n1.w[id] == n.w[id]
  {
  }

  lemma IsTheRelay(a: Config, b: Config, nets: seq<Net>)
    requires TwoNodes(a, b) && |nets| == 3 && nets[0] == StartNet(a, b) && PushUnderWay(a, b, nets[1])
    ensures Chain(nets, TheMoves(a, b), [Relay(0, Pushed(a), 1)])
  {
  }

  lemma OtherTaught(a: Config, b: Config, nets: seq<Net>)
    requires TwoNodes(a, b) && |nets| == 3 && IsNetRun(nets, TheMoves(a, b)) && Sane(nets[0], a.lib)
    requires PushUnderWay(a, b, nets[1]) && Chain(nets, TheMoves(a, b), [Relay(0, Pushed(a), 1)])
    ensures Me(b) in nets[2].w && Known(nets[2], Me(b)) == {Me(a), Me(b)}
  {
    var relay := [Relay(0, Pushed(a), 1)][0];
    RunEffects(nets, TheMoves(a, b), a.lib);
    RelayTeaches(nets, TheMoves(a, b), a.lib, relay);
  }

  lemma NobodyForgotten(a: Config, b: Config, nets: seq<Net>)
    requires TwoNodes(a, b) && |nets| == 3 && nets[0] == StartNet(a, b) && PushUnderWay(a, b, nets[1])
    requires Me(a) in nets[2].w && Me(b) in nets[2].w && nets[2].w[Me(a)] == nets[1].w[Me(a)]
    ensures Forgetless(nets, TheMoves(a, b))
  {
    RemembersFirst(a, b, nets[0], nets[1]);
    RemembersNext(a, b, nets[1], nets[2]);
  }

  lemma RemembersFirst(a: Config, b: Config, n: Net, n1: Net)
    requires TwoNodes(a, b) && n == StartNet(a, b) && PushUnderWay(a, b, n1)
    ensures Remembers(n, n1)
  {
  }

  lemma RemembersNext(a: Config, b: Config, n: Net, n1: Net)
    requires PushUnderWay(a, b, n) && Me(a) in n1.w && Me(b) in n1.w && n1.w[Me(a)] == n.w[Me(a)]
    ensures Remembers(n, n1)
  {
  }

  // What the theorem about spreading asks for can be had: from states that both nodes reach by
  // runs of their own, a round pushes, the push arrives, and the node that knew nobody knows
  // both.
  lemma GossipHappens(a: Config, b: Config) returns (nets: seq<Net>, moves: seq<Move>, relay: Relay)
    requires TwoNodes(a, b)
    ensures IsNetRun(nets, moves) && Sane(nets[0], a.lib) && Forgetless(nets, moves) && Chain(nets, moves, [relay])
    ensures |moves| == 2 && nets[0] == StartNet(a, b)
    ensures Me(b) in nets[0].w && Known(nets[0], Me(b)) == {}
    ensures Me(b) in nets[2].w && Known(nets[2], Me(b)) == {Me(a), Me(b)}
  {
    nets := TheRunExists(a, b);
    moves, relay := TheMoves(a, b), Relay(0, Pushed(a), 1);
    StartSane(a, b);
    IsTheRelay(a, b, nets);
    OtherTaught(a, b, nets);
    NobodyForgotten(a, b, nets);
  }
}
