// A network of nodes in any interleaving, with any number of messages under way: whatever
// the nodes do between the hops of one message, no copy of it comes or goes unaccounted for.
module Network {
  import opened Text
  import opened Primitives
  import opened Protocol
  import opened Tables
  import opened Machine
  import opened Ledger
  import opened Invariants
  import opened Pushes
  import opened Logs
  import opened Hops

  /** A packet under way, by the entry that its sender's log has for it. */
  datatype Letter = Letter(from: string, index: nat)

  datatype Net = Net(w: World, air: set<Letter>)

  datatype Move =
    | Acts(at: string, e: Event)          // whatever a node does of its own, or comes from outside
    | Arrives(l: Letter, now: int, order: seq<string>)
    | IsLost(l: Letter)

  ghost predicate Aloft(w: World, l: Letter) {
    l.from in w && l.index < |w[l.from].s.log| && Forwarded(w.Keys, w[l.from].s.log[l.index])
  }

  ghost function Content(w: World, l: Letter): Fate
    requires Aloft(w, l)
  {
    w[l.from].s.log[l.index]
  }

  /** Where the letter goes. */
  ghost function Goal(w: World, l: Letter): string
    requires Aloft(w, l)
  {
    Content(w, l).conn.peerNodeId
  }

  ghost predicate Sane(n: Net, lib: Library) {
    Honest(n.w, lib) && forall l :: l in n.air ==> Aloft(n.w, l)
  }

  /** The receiving node's event when the letter arrives. */
  ghost function ArrivalOf(n: Net, l: Letter, now: int, order: seq<string>): Event
    requires Aloft(n.w, l)
  {
    var c := n.w[l.from].c;
    Received(ConnTo(c), Pack(c.lib, Content(n.w, l).pkt), now, order)
  }

  /** The entries a node's log has more than before that went to nodes of the network. */
  ghost function NewLetters(at: string, log: seq<Fate>, log1: seq<Fate>, nodes: set<string>): set<Letter> {
    set i | |log| <= i < |log1| && Forwarded(nodes, log1[i]) :: Letter(at, i)
  }

  /** The node takes a step, the letters that are gone are no longer under way, and those it sent are. */
  ghost function NodeStep(n: Net, at: string, e: Event, gone: set<Letter>): Net
    requires at in n.w && Enabled(n.w[at].c, n.w[at].s, e)
  {
    var h := n.w[at];
    var s1 := Step(h.c, h.s, e);
    Net(n.w[at := Host(h.c, s1)], (n.air - gone) + NewLetters(at, h.s.log, s1.log, n.w.Keys))
  }

  ghost predicate CanMove(n: Net, m: Move) {
    match m
    case Acts(at, e) => at in n.w && Enabled(n.w[at].c, n.w[at].s, e)
    case Arrives(l, now, order) =>
      l in n.air && Aloft(n.w, l)
      && Enabled(n.w[Goal(n.w, l)].c, n.w[Goal(n.w, l)].s, ArrivalOf(n, l, now, order))
    case IsLost(l) => l in n.air
  }

  ghost function Apply(n: Net, m: Move): Net
    requires CanMove(n, m)
  {
    match m
    case Acts(at, e) => NodeStep(n, at, e, {})
    case Arrives(l, now, order) => NodeStep(n, Goal(n.w, l), ArrivalOf(n, l, now, order), {l})
    case IsLost(l) => n.(air := n.air - {l})
  }

  /** The i-th step. */
  ghost predicate StepOf(nets: seq<Net>, moves: seq<Move>, i: nat)
    requires i < |moves| && |nets| == |moves| + 1
  {
    CanMove(nets[i], moves[i]) && nets[i + 1] == Apply(nets[i], moves[i])
  }

  ghost predicate IsNetRun(nets: seq<Net>, moves: seq<Move>) {
    && |nets| == |moves| + 1
    && forall i :: 0 <= i < |moves| ==> StepOf(nets, moves, i)
  }

  lemma RunPrefix(nets: seq<Net>, moves: seq<Move>, n: nat)
    requires IsNetRun(nets, moves) && n <= |moves|
    ensures IsNetRun(nets[..n + 1], moves[..n])
  {
    var before, past := nets[..n + 1], moves[..n];
    forall i | 0 <= i < n
      ensures StepOf(before, past, i)
    {
      assert StepOf(nets, moves, i);
    }
  }

  // --- every move keeps the network sane ---

  lemma HostStepKeeps(h: Host, lib: Library, id: string, e: Event)
    requires lib.CodecLaw() && HonestHost(h, lib, id) && Enabled(h.c, h.s, e)
    ensures HonestHost(Host(h.c, Step(h.c, h.s, e)), lib, id) && Grows(h.s.log, Step(h.c, h.s, e).log)
  {
    StepKeeps(h.c, h.s, e);
    StepAccount(h.c, h.s, e, Body("", MSG, "", "", [], 0));
    StepGrows(h.c, h.s, e);
  }

  lemma GrownAloft(w: World, at: string, h1: Host, l: Letter)
    requires at in w && Grows(w[at].s.log, h1.s.log) && Aloft(w, l)
    ensures Aloft(w[at := h1], l) && Content(w[at := h1], l) == Content(w, l)
  {
    if l.from == at {
      assert h1.s.log[..|w[at].s.log|][l.index] == h1.s.log[l.index];
    }
  }

  lemma NodeStepSane(n: Net, lib: Library, at: string, e: Event, gone: set<Letter>)
    requires Sane(n, lib) && at in n.w && Enabled(n.w[at].c, n.w[at].s, e)
    ensures Sane(NodeStep(n, at, e, gone), lib)
    ensures Grows(n.w[at].s.log, Step(n.w[at].c, n.w[at].s, e).log)
  {
    var h := n.w[at];
    var h1 := Host(h.c, Step(h.c, h.s, e));
    HostStepKeeps(h, lib, at, e);
    SaneAfter(n, lib, at, h1, gone);
  }

  lemma SaneAfter(n: Net, lib: Library, at: string, h1: Host, gone: set<Letter>)
    requires Sane(n, lib) && at in n.w && HonestHost(h1, lib, at) && Grows(n.w[at].s.log, h1.s.log)
    ensures Sane(Net(n.w[at := h1], (n.air - gone) + NewLetters(at, n.w[at].s.log, h1.s.log, n.w.Keys)), lib)
  {
    forall l | l in n.air
      ensures Aloft(n.w[at := h1], l)
    {
      GrownAloft(n.w, at, h1, l);
    }
    assert n.w[at := h1].Keys == n.w.Keys;
  }

  lemma MoveSane(n: Net, lib: Library, m: Move)
    requires Sane(n, lib) && CanMove(n, m)
    ensures Sane(Apply(n, m), lib) && Apply(n, m).w.Keys == n.w.Keys
  {
    match m
    case Acts(at, e) => NodeStepSane(n, lib, at, e, {});
    case Arrives(l, now, order) => NodeStepSane(n, lib, Goal(n.w, l), ArrivalOf(n, l, now, order), {l});
    case IsLost(l) =>
  }

  lemma {:induction false} SaneRun(nets: seq<Net>, moves: seq<Move>, lib: Library, i: nat)
    requires IsNetRun(nets, moves) && Sane(nets[0], lib) && i < |nets|
    ensures Sane(nets[i], lib) && nets[i].w.Keys == nets[0].w.Keys
  {
    if i > 0 {
      SaneRun(nets, moves, lib, i - 1);
      assert StepOf(nets, moves, i - 1);
      MoveSane(nets[i - 1], lib, moves[i - 1]);
    }
  }

  // --- copies at one node ---

  function ForwardCount(log: seq<Fate>, nodes: set<string>, b: Body): nat {
    if log == [] then 0
    else
      var f := log[|log| - 1];
      ForwardCount(log[..|log| - 1], nodes, b) + if Forwarded(nodes, f) && f.pkt.body == b then 1 else 0
  }

  // What a node accounts for is at rest with it, or was forwarded.
  lemma {:induction false} RestAndForwards(lib: Library, log: seq<Fate>, nodes: set<string>, b: Body)
    ensures LogCount(lib, log, b) == RestLog(lib, log, b, nodes) + ForwardCount(log, nodes, b)
  {
    if log != [] {
      RestAndForwards(lib, log[..|log| - 1], nodes, b);
    }
  }

  /** The letters among them that carry b. */
  ghost function LettersOf(at: string, log: seq<Fate>, log1: seq<Fate>, nodes: set<string>, b: Body): set<Letter> {
    set i | |log| <= i < |log1| && Forwarded(nodes, log1[i]) && log1[i].pkt.body == b :: Letter(at, i)
  }

  lemma {:induction false} LettersCounted(at: string, log: seq<Fate>, log1: seq<Fate>, nodes: set<string>, b: Body)
    requires Grows(log, log1)
    ensures ForwardCount(log1, nodes, b) == ForwardCount(log, nodes, b) + |LettersOf(at, log, log1, nodes, b)|
    decreases |log1|
  {
    if |log1| == |log| {
      assert log1 == log && LettersOf(at, log, log1, nodes, b) == {};
    } else {
      var n := |log1| - 1;
      var before := log1[..n];
      assert before[..|log|] == log1[..|log|];
      LettersCounted(at, log, before, nodes, b);
      var last := if Forwarded(nodes, log1[n]) && log1[n].pkt.body == b then {Letter(at, n)} else {};
      assert LettersOf(at, log, log1, nodes, b) == LettersOf(at, log, before, nodes, b) + last;
    }
  }

  // One step of one node: a copy more at rest or under way exactly when the step gives it.
  lemma HostCount(h: Host, lib: Library, id: string, e: Event, nodes: set<string>, b: Body)
    requires lib.CodecLaw() && HonestHost(h, lib, id) && Enabled(h.c, h.s, e) && b.kind == MSG
    ensures var h1 := Host(h.c, Step(h.c, h.s, e));
            AtRest(h1, b, nodes) + |LettersOf(id, h.s.log, h1.s.log, nodes, b)|
            == AtRest(h, b, nodes) + if Given(h.c, e) == Some(b) then 1 else 0
  {
    var s1 := Step(h.c, h.s, e);
    StepAccount(h.c, h.s, e, b);
    StepGrows(h.c, h.s, e);
    LettersCounted(id, h.s.log, s1.log, nodes, b);
    RestAndForwards(lib, h.s.log, nodes, b);
    RestAndForwards(lib, s1.log, nodes, b);
  }

  // --- copies in the network ---

  /** The copies of b that are at rest at these nodes. */
  ghost function RestTotal(w: World, ids: seq<string>, b: Body): nat
    requires forall id :: id in ids ==> id in w
  {
    if ids == [] then 0 else AtRest(w[ids[0]], b, w.Keys) + RestTotal(w, ids[1..], b)
  }

  ghost function AirOf(n: Net, b: Body): set<Letter>
    requires forall l :: l in n.air ==> Aloft(n.w, l)
  {
    set l | l in n.air && Content(n.w, l).pkt.body == b
  }

  /** All copies: at rest or under way. */
  ghost function Copies(n: Net, ids: seq<string>, b: Body): nat
    requires forall id :: id in ids ==> id in n.w
    requires forall l :: l in n.air ==> Aloft(n.w, l)
  {
    RestTotal(n.w, ids, b) + |AirOf(n, b)|
  }

  lemma {:induction false} RestElsewhere(w: World, w1: World, ids: seq<string>, b: Body)
    requires w1.Keys == w.Keys && forall id :: id in ids ==> id in w && w1[id] == w[id]
    ensures RestTotal(w1, ids, b) == RestTotal(w, ids, b)
  {
    if ids != [] {
      RestElsewhere(w, w1, ids[1..], b);
    }
  }

  lemma {:induction false} RestUpdate(w: World, ids: seq<string>, at: string, h1: Host, b: Body)
    requires at in ids && at in w && forall id :: id in ids ==> id in w
    requires forall i, j :: 0 <= i < j < |ids| ==> ids[i] != ids[j]
    ensures RestTotal(w[at := h1], ids, b) + AtRest(w[at], b, w.Keys) == RestTotal(w, ids, b) + AtRest(h1, b, w.Keys)
  {
    var w1 := w[at := h1];
    assert w1.Keys == w.Keys;
    if ids[0] == at {
      RestElsewhere(w, w1, ids[1..], b);
    } else {
      RestUpdate(w, ids[1..], at, h1, b);
    }
  }

  /** Whether the letter carries b. */
  ghost function Carries(w: World, l: Letter, b: Body): nat
    requires Aloft(w, l)
  {
    if Content(w, l).pkt.body == b then 1 else 0
  }

  /** The net when one host has changed and its new letters are under way. */
  ghost function WithHost(n: Net, at: string, h1: Host): Net
    requires at in n.w
  {
    Net(n.w[at := h1], n.air + NewLetters(at, n.w[at].s.log, h1.s.log, n.w.Keys))
  }

  lemma AirAfter(n: Net, lib: Library, at: string, h1: Host, b: Body)
    requires Sane(n, lib) && at in n.w && HonestHost(h1, lib, at) && Grows(n.w[at].s.log, h1.s.log)
    ensures var n1, carrying := WithHost(n, at, h1), LettersOf(at, n.w[at].s.log, h1.s.log, n.w.Keys, b);
            && Sane(n1, lib) && AirOf(n1, b) == AirOf(n, b) + carrying && AirOf(n, b) !! carrying
            && |AirOf(n1, b)| == |AirOf(n, b)| + |carrying|
  {
    var log, log1 := n.w[at].s.log, h1.s.log;
    var n1 := WithHost(n, at, h1);
    assert n.air - {} == n.air;
    SaneAfter(n, lib, at, h1, {});
    forall l | l in n.air
      ensures Aloft(n1.w, l) && Content(n1.w, l) == Content(n.w, l)
    {
      GrownAloft(n.w, at, h1, l);
    }
    var letters := LettersOf(at, log, log1, n.w.Keys, b);
    assert AirOf(n1, b) == AirOf(n, b) + letters;
    assert AirOf(n, b) !! letters;
  }

  // Taking a letter out of the air, before anything else happens.
  lemma LetterTaken(n: Net, lib: Library, l: Letter, b: Body)
    requires Sane(n, lib) && l in n.air
    ensures var n1 := n.(air := n.air - {l});
            Sane(n1, lib) && |AirOf(n1, b)| + Carries(n.w, l, b) == |AirOf(n, b)|
  {
    var n1 := n.(air := n.air - {l});
    if Content(n.w, l).pkt.body == b {
      assert AirOf(n1, b) == AirOf(n, b) - {l};
    } else {
      assert AirOf(n1, b) == AirOf(n, b);
    }
  }

  lemma NodeStepCount(n: Net, lib: Library, ids: seq<string>, at: string, e: Event, b: Body)
    requires Sane(n, lib) && Lists(ids, n.w.Keys) && b.kind == MSG
    requires forall id :: id in ids ==> id in n.w
    requires at in n.w && Enabled(n.w[at].c, n.w[at].s, e)
    ensures var n1 := NodeStep(n, at, e, {});
            Sane(n1, lib) && n1.w.Keys == n.w.Keys
            && Copies(n1, ids, b) == Copies(n, ids, b) + if Given(n.w[at].c, e) == Some(b) then 1 else 0
  {
    var h := n.w[at];
    var h1 := Host(h.c, Step(h.c, h.s, e));
    HostStepKeeps(h, lib, at, e);
    HostCount(h, lib, at, e, n.w.Keys, b);
    HostAfterCount(n, lib, ids, at, h1, if Given(h.c, e) == Some(b) then 1 else 0, b);
    NodeStepIs(n, at, e, h1);
  }

  lemma NodeStepIs(n: Net, at: string, e: Event, h1: Host)
    requires at in n.w && Enabled(n.w[at].c, n.w[at].s, e)
    requires h1 == Host(n.w[at].c, Step(n.w[at].c, n.w[at].s, e))
    ensures NodeStep(n, at, e, {}) == WithHost(n, at, h1)
  {
    assert n.air - {} == n.air;
  }

  lemma HostAfterCount(n: Net, lib: Library, ids: seq<string>, at: string, h1: Host, given: nat, b: Body)
    requires Sane(n, lib) && Lists(ids, n.w.Keys)
    requires forall id :: id in ids ==> id in n.w
    requires at in n.w && HonestHost(h1, lib, at) && Grows(n.w[at].s.log, h1.s.log)
    requires AtRest(h1, b, n.w.Keys) + |LettersOf(at, n.w[at].s.log, h1.s.log, n.w.Keys, b)|
          == AtRest(n.w[at], b, n.w.Keys) + given
    ensures var n1 := WithHost(n, at, h1);
            Sane(n1, lib) && n1.w.Keys == n.w.Keys && Copies(n1, ids, b) == Copies(n, ids, b) + given
  {
    RestAfter(n.w, ids, at, h1, b);
    AirCount(n, lib, at, h1, b);
  }

  lemma RestAfter(w: World, ids: seq<string>, at: string, h1: Host, b: Body)
    requires Lists(ids, w.Keys) && at in w && forall id :: id in ids ==> id in w
    ensures forall id :: id in ids ==> id in w[at := h1]
    ensures RestTotal(w[at := h1], ids, b) + AtRest(w[at], b, w.Keys) == RestTotal(w, ids, b) + AtRest(h1, b, w.Keys)
  {
    assert at in w.Keys;
    RestUpdate(w, ids, at, h1, b);
  }

  lemma AirCount(n: Net, lib: Library, at: string, h1: Host, b: Body)
    requires Sane(n, lib) && at in n.w && HonestHost(h1, lib, at) && Grows(n.w[at].s.log, h1.s.log)
    ensures var n1 := WithHost(n, at, h1);
            && Sane(n1, lib) && n1.w.Keys == n.w.Keys
            && |AirOf(n1, b)| == |AirOf(n, b)| + |LettersOf(at, n.w[at].s.log, h1.s.log, n.w.Keys, b)|
  {
    AirAfter(n, lib, at, h1, b);
  }

  // --- conservation ---

  /** A copy of b is given to a router from outside the network. */
  ghost function EnteredBy(n: Net, m: Move, b: Body): nat {
    if m.Acts? && m.at in n.w && Given(n.w[m.at].c, m.e) == Some(b) then 1 else 0
  }

  ghost function LostBy(n: Net, m: Move, b: Body): nat {
    if m.IsLost? && Aloft(n.w, m.l) then Carries(n.w, m.l, b) else 0
  }

  // A letter that arrives is given to the receiver's router.
  lemma ArrivalGives(n: Net, lib: Library, l: Letter, now: int, order: seq<string>, b: Body)
    requires Sane(n, lib) && l in n.air && b.kind == MSG
    ensures Goal(n.w, l) in n.w
    ensures Given(n.w[Goal(n.w, l)].c, ArrivalOf(n, l, now, order)) == Some(b) <==> Carries(n.w, l, b) == 1
  {
    var sender, pkt := n.w[l.from].c, Content(n.w, l).pkt;
    assert HonestHost(n.w[l.from], lib, l.from) && HonestHost(n.w[Goal(n.w, l)], lib, Goal(n.w, l));
    HopAccepted(lib, pkt, sender.who.signKey);
    assert Genuine(n.w[Goal(n.w, l)].c, Pack(lib, pkt), ConnTo(sender)) == Some(pkt);
  }

  lemma TakenThenStep(n: Net, at: string, e: Event, l: Letter)
    requires at in n.w && Enabled(n.w[at].c, n.w[at].s, e)
    ensures NodeStep(n, at, e, {l}) == NodeStep(n.(air := n.air - {l}), at, e, {})
  {
    assert n.air - {l} - {} == n.air - {l};
  }

  /** The move keeps count of the copies of b. */
  ghost predicate Counted(n: Net, m: Move, n1: Net, ids: seq<string>, lib: Library, b: Body)
    requires Sane(n, lib) && forall id :: id in ids ==> id in n.w
  {
    && Sane(n1, lib) && n1.w.Keys == n.w.Keys
    && Copies(n1, ids, b) + LostBy(n, m, b) == Copies(n, ids, b) + EnteredBy(n, m, b)
  }

  lemma ArrivalCount(n: Net, lib: Library, ids: seq<string>, l: Letter, now: int, order: seq<string>, b: Body)
    requires Sane(n, lib) && Lists(ids, n.w.Keys) && b.kind == MSG
    requires forall id :: id in ids ==> id in n.w
    requires CanMove(n, Arrives(l, now, order))
    ensures Counted(n, Arrives(l, now, order), Apply(n, Arrives(l, now, order)), ids, lib, b)
  {
    var taken, to, e := n.(air := n.air - {l}), Goal(n.w, l), ArrivalOf(n, l, now, order);
    ArrivalGives(n, lib, l, now, order, b);
    LetterTaken(n, lib, l, b);
    ArrivalSteps(n, l, now, order);
    NodeStepCount(taken, lib, ids, to, e, b);
    TakenCounts(n, l, NodeStep(taken, to, e, {}), lib, ids, now, order, b);
  }

  lemma TakenCounts(n: Net, l: Letter, n1: Net, lib: Library, ids: seq<string>, now: int, order: seq<string>, b: Body)
    requires Sane(n, lib) && l in n.air && (forall id :: id in ids ==> id in n.w)
    requires |AirOf(n.(air := n.air - {l}), b)| + Carries(n.w, l, b) == |AirOf(n, b)|
    requires Sane(n1, lib) && n1.w.Keys == n.w.Keys
    requires Copies(n1, ids, b) == Copies(n.(air := n.air - {l}), ids, b) + Carries(n.w, l, b)
    ensures Counted(n, Arrives(l, now, order), n1, ids, lib, b)
  {
  }

  lemma ArrivalSteps(n: Net, l: Letter, now: int, order: seq<string>)
    requires CanMove(n, Arrives(l, now, order))
    ensures Goal(n.w, l) in n.w
    ensures Apply(n, Arrives(l, now, order))
         == NodeStep(n.(air := n.air - {l}), Goal(n.w, l), ArrivalOf(n, l, now, order), {})
  {
    TakenThenStep(n, Goal(n.w, l), ArrivalOf(n, l, now, order), l);
  }

  lemma MoveCount(n: Net, lib: Library, ids: seq<string>, m: Move, b: Body)
    requires Sane(n, lib) && Lists(ids, n.w.Keys) && b.kind == MSG
    requires forall id :: id in ids ==> id in n.w
    requires CanMove(n, m)
    ensures Counted(n, m, Apply(n, m), ids, lib, b)
  {
    match m
    case Acts(at, e) => NodeStepCount(n, lib, ids, at, e, b);
    case Arrives(l, now, order) => ArrivalCount(n, lib, ids, l, now, order, b);
    case IsLost(l) => LetterTaken(n, lib, l, b);
  }

  ghost function Entered(nets: seq<Net>, moves: seq<Move>, b: Body): nat
    requires |nets| == |moves| + 1
  {
    if moves == [] then 0
    else
      var n := |moves| - 1;
      Entered(nets[..n + 1], moves[..n], b) + EnteredBy(nets[n], moves[n], b)
  }

  ghost function Lost(nets: seq<Net>, moves: seq<Move>, b: Body): nat
    requires |nets| == |moves| + 1
  {
    if moves == [] then 0
    else
      var n := |moves| - 1;
      Lost(nets[..n + 1], moves[..n], b) + LostBy(nets[n], moves[n], b)
  }

  ghost predicate Roster(ids: seq<string>, w: World) {
    Lists(ids, w.Keys) && forall id :: id in ids ==> id in w
  }

  // Conservation in a network: in every interleaving of whatever the nodes do, the copies of a
  // message at rest, under way and lost on the way are as many as were ever given to a router
  // from outside, over those there were at the start.
  lemma {:induction false} NetConservation(nets: seq<Net>, moves: seq<Move>, lib: Library, ids: seq<string>, b: Body)
    requires IsNetRun(nets, moves) && Sane(nets[0], lib) && Roster(ids, nets[0].w) && b.kind == MSG
    ensures Sane(nets[|moves|], lib) && Roster(ids, nets[|moves|].w) && nets[|moves|].w.Keys == nets[0].w.Keys
    ensures Copies(nets[|moves|], ids, b) + Lost(nets, moves, b) == Copies(nets[0], ids, b) + Entered(nets, moves, b)
    decreases |moves|
  {
    if moves != [] {
      var n := |moves| - 1;
      RunPrefix(nets, moves, n);
      NetConservation(nets[..n + 1], moves[..n], lib, ids, b);
      assert StepOf(nets, moves, n);
      MoveCount(nets[n], lib, ids, moves[n], b);
    }
  }
}
