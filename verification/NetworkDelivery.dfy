// The good end of a message among whole nodes: wherever in the network it has to wait, its
// cell's registration there in time is what delivers it, once, and its client reads it.
module NetworkDelivery {
  import opened Text
  import opened Primitives
  import opened Protocol
  import opened Machine
  import opened Ledger
  import opened Retention
  import opened Pushes
  import opened Logs
  import opened Hops
  import opened Network
  import D = Delivery
  import E = EndToEnd
  import C = ClientToClient

  /** What happens at this node in this move. */
  ghost function EventAt(n: Net, m: Move, at: string): Option<Event>
    requires CanMove(n, m)
  {
    match m
    case Acts(where, e) => if where == at then Some(e) else None
    case Arrives(l, now, order) => if Goal(n.w, l) == at then Some(ArrivalOf(n, l, now, order)) else None
    case IsLost(_) => None
  }

  lemma HostAfterMove(n: Net, m: Move, at: string)
    requires CanMove(n, m) && at in n.w
    ensures at in Apply(n, m).w
    ensures match EventAt(n, m, at)
            case Some(e) => Enabled(n.w[at].c, n.w[at].s, e)
                            && Apply(n, m).w[at] == Host(n.w[at].c, Step(n.w[at].c, n.w[at].s, e))
            case None => Apply(n, m).w[at] == n.w[at]
  {
  }

  /** The row is in the node's buffer as before. */
  ghost predicate RowKept(n: Net, n1: Net, at: string, id: string) {
    && at in n.w && at in n1.w
    && id in n.w[at].s.buffer && id in n1.w[at].s.buffer
    && n1.w[at].s.buffer[id] == n.w[at].s.buffer[id]
  }

  ghost predicate LogKept(n: Net, n1: Net, at: string) {
    at in n.w && at in n1.w && n1.w[at].c == n.w[at].c && Grows(n.w[at].s.log, n1.w[at].s.log)
  }

  /** The cell does not register at this node in this move, and no cleanup there comes too late. */
  ghost predicate QuietMove(n: Net, m: Move, at: string, cell: string, until: int)
    requires at in n.w
  {
    CanMove(n, m) && EventAt(n, m, at).Some? ==> Quiet(n.w[at].c, EventAt(n, m, at).value, cell, until)
  }

  lemma QuietStep(c: Config, s: State, e: Event, id: string)
    requires BufferOk(c.lib, s.buffer) && Enabled(c, s, e) && id in s.buffer
    requires Quiet(c, e, s.buffer[id].toCell, s.buffer[id].expiresAt)
    ensures id in Step(c, s, e).buffer && Step(c, s, e).buffer[id] == s.buffer[id]
  {
    StepRow(c, s, e, id);
  }

  lemma MoveKeepsRow(n: Net, lib: Library, m: Move, at: string, id: string)
    requires Sane(n, lib) && CanMove(n, m) && at in n.w && id in n.w[at].s.buffer
    requires QuietMove(n, m, at, n.w[at].s.buffer[id].toCell, n.w[at].s.buffer[id].expiresAt)
    ensures RowKept(n, Apply(n, m), at, id)
  {
    HostAfterMove(n, m, at);
    assert HonestHost(n.w[at], lib, at);
    if EventAt(n, m, at).Some? {
      QuietStep(n.w[at].c, n.w[at].s, EventAt(n, m, at).value, id);
    }
  }

  lemma MoveKeepsLog(n: Net, lib: Library, m: Move, at: string)
    requires Sane(n, lib) && CanMove(n, m) && at in n.w
    ensures LogKept(n, Apply(n, m), at)
  {
    HostAfterMove(n, m, at);
    assert HonestHost(n.w[at], lib, at);
    if EventAt(n, m, at).Some? {
      StepGrows(n.w[at].c, n.w[at].s, EventAt(n, m, at).value);
    }
  }

  // --- between two moments of a run ---

  lemma StepKeepsRow(nets: seq<Net>, moves: seq<Move>, lib: Library, at: string, id: string, i: nat)
    requires IsNetRun(nets, moves) && Sane(nets[0], lib) && i < |moves|
    requires at in nets[i].w && id in nets[i].w[at].s.buffer
    requires QuietMove(nets[i], moves[i], at, nets[i].w[at].s.buffer[id].toCell, nets[i].w[at].s.buffer[id].expiresAt)
    ensures RowKept(nets[i], nets[i + 1], at, id)
  {
    SaneRun(nets, moves, lib, i);
    assert StepOf(nets, moves, i);
    MoveKeepsRow(nets[i], lib, moves[i], at, id);
  }

  lemma StepKeepsLog(nets: seq<Net>, moves: seq<Move>, lib: Library, at: string, i: nat)
    requires IsNetRun(nets, moves) && Sane(nets[0], lib) && i < |moves| && at in nets[i].w
    ensures LogKept(nets[i], nets[i + 1], at)
  {
    SaneRun(nets, moves, lib, i);
    assert StepOf(nets, moves, i);
    MoveKeepsLog(nets[i], lib, moves[i], at);
  }

  /** From moment k to moment j the cell does not register at the node, nor does the row expire. */
  ghost predicate QuietRun(nets: seq<Net>, moves: seq<Move>, k: nat, j: nat, at: string, cell: string, until: int)
    requires |nets| == |moves| + 1 && k <= j <= |moves|
  {
    forall i :: k <= i < j ==> at in nets[i].w && QuietMove(nets[i], moves[i], at, cell, until)
  }

  lemma {:induction false} RunKeepsRow(nets: seq<Net>, moves: seq<Move>, lib: Library, at: string, id: string, k: nat, j: nat)
    requires IsNetRun(nets, moves) && Sane(nets[0], lib) && k <= j <= |moves|
    requires at in nets[k].w && id in nets[k].w[at].s.buffer
    requires QuietRun(nets, moves, k, j, at, nets[k].w[at].s.buffer[id].toCell, nets[k].w[at].s.buffer[id].expiresAt)
    ensures RowKept(nets[k], nets[j], at, id)
    decreases j
  {
    if k < j {
      RunKeepsRow(nets, moves, lib, at, id, k, j - 1);
      StepKeepsRow(nets, moves, lib, at, id, j - 1);
    }
  }

  lemma {:induction false} RunKeepsLog(nets: seq<Net>, moves: seq<Move>, lib: Library, at: string, k: nat, j: nat)
    requires IsNetRun(nets, moves) && Sane(nets[0], lib) && k <= j <= |moves| && at in nets[k].w
    ensures LogKept(nets[k], nets[j], at)
    decreases j
  {
    if k < j {
      RunKeepsLog(nets, moves, lib, at, k, j - 1);
      StepKeepsLog(nets, moves, lib, at, j - 1);
      GrowsOn(nets[k].w[at].s.log, nets[j - 1].w[at].s.log, nets[j].w[at].s.log);
    }
  }

  // --- the only copy ---

  lemma {:induction false} RestCounts(lib: Library, log: seq<Fate>, b: Body, nodes: set<string>, i: nat)
    requires i < |log| && Weighs(lib, log[i], b) && !Forwarded(nodes, log[i])
    ensures RestLog(lib, log, b, nodes) >= 1
  {
    if i < |log| - 1 {
      RestCounts(lib, log[..|log| - 1], b, nodes, i);
    }
  }

  lemma {:induction false} RestMember(w: World, ids: seq<string>, at: string, b: Body)
    requires (forall id :: id in ids ==> id in w) && at in ids
    ensures RestTotal(w, ids, b) >= AtRest(w[at], b, w.Keys)
  {
    if ids[0] != at {
      RestMember(w, ids[1..], at, b);
    }
  }

  lemma {:induction false} RestTwo(w: World, ids: seq<string>, at: string, other: string, b: Body)
    requires (forall id :: id in ids ==> id in w) && at in ids && other in ids && at != other
    ensures RestTotal(w, ids, b) >= AtRest(w[at], b, w.Keys) + AtRest(w[other], b, w.Keys)
  {
    if ids[0] == at {
      RestMember(w, ids[1..], other, b);
    } else if ids[0] == other {
      RestMember(w, ids[1..], at, b);
    } else {
      RestTwo(w, ids[1..], at, other, b);
    }
  }

  /** The one copy of b rests at this node. */
  ghost predicate OnlyAt(n: Net, b: Body, at: string) {
    && (forall l :: l in n.air ==> Aloft(n.w, l)) && AirOf(n, b) == {}
    && at in n.w && AtRest(n.w[at], b, n.w.Keys) == 1
    && forall id :: id in n.w && id != at ==> AtRest(n.w[id], b, n.w.Keys) == 0
  }

  lemma OneCopy(n: Net, ids: seq<string>, b: Body, at: string, lost: nat)
    requires Roster(ids, n.w) && (forall l :: l in n.air ==> Aloft(n.w, l)) && at in n.w
    requires Copies(n, ids, b) + lost == 1 && AtRest(n.w[at], b, n.w.Keys) >= 1
    ensures OnlyAt(n, b, at) && lost == 0
  {
    assert at in n.w.Keys;
    RestMember(n.w, ids, at, b);
    forall id | id in n.w && id != at
      ensures AtRest(n.w[id], b, n.w.Keys) == 0
    {
      assert id in n.w.Keys;
      RestTwo(n.w, ids, at, id, b);
    }
  }

  // --- delivered out of a buffer ---

  /** The node's i-th entry: the message, sent over this connection. */
  ghost predicate HasSent(h: Host, i: nat, conn: Conn, b: Body) {
    && i < |h.s.log|
    && h.s.log[i].Sent? && h.s.log[i].conn == conn && h.s.log[i].pkt.body == b
  }

  ghost predicate SentAs(n: Net, at: string, i: nat, conn: Conn, b: Body) {
    at in n.w && HasSent(n.w[at], i, conn, b)
  }

  /** The message waits at this node for its cell, until then. */
  ghost predicate WaitsAt(h: Host, b: Body, cell: string, until: int) {
    b.id in h.s.buffer && D.HoldsFor(h.c, h.s.buffer[b.id], b, cell, until)
  }

  /** The cell registers before then, is connected, and the flush gets through. */
  ghost predicate FlushesTo(h: Host, e: Event, cell: string, until: int) {
    && D.Registers(h.c, e, cell) && e.now < until
    && cell != "" && cell in h.s.conns
    && forall t :: h.s.tick <= t < h.s.tick + |e.order| ==> h.c.luck(t).delivered
  }

  lemma FlushedHost(h: Host, e: Event, h1: Host, b: Body, cell: string, until: int) returns (i: nat)
    requires BufferOk(h.c.lib, h.s.buffer) && Enabled(h.c, h.s, e) && h1.s == Step(h.c, h.s, e)
    requires WaitsAt(h, b, cell, until) && FlushesTo(h, e, cell, until)
    ensures HasSent(h1, i, h.s.conns[cell], b)
  {
    i := D.FlushHandsOver(h.c, h.s, e, b.id, b, cell);
  }

  lemma ActedAt(n: Net, n1: Net, at: string, e: Event, h: Host, h1: Host)
    requires CanMove(n, Acts(at, e)) && n1 == Apply(n, Acts(at, e))
    requires h == n.w[at] && at in n1.w && h1 == n1.w[at]
    ensures Enabled(h.c, h.s, e) && h1.s == Step(h.c, h.s, e)
  {
  }

  lemma FlushSendsInRun(nets: seq<Net>, moves: seq<Move>, lib: Library, j: nat, at: string, e: Event, h: Host, h1: Host,
                        b: Body, cell: string, until: int)
    returns (i: nat)
    requires IsNetRun(nets, moves) && j < |moves| && moves[j] == Acts(at, e)
    requires at in nets[j].w && h == nets[j].w[at] && at in nets[j + 1].w && h1 == nets[j + 1].w[at]
    requires BufferOk(h.c.lib, h.s.buffer) && WaitsAt(h, b, cell, until) && FlushesTo(h, e, cell, until)
    ensures HasSent(h1, i, h.s.conns[cell], b)
  {
    assert StepOf(nets, moves, j);
    ActedAt(nets[j], nets[j + 1], at, e, h, h1);
    i := FlushedHost(h, e, h1, b, cell, until);
  }

  lemma HostBuffer(nets: seq<Net>, moves: seq<Move>, lib: Library, j: nat, at: string)
    requires IsNetRun(nets, moves) && Sane(nets[0], lib) && j < |nets| && at in nets[j].w
    ensures BufferOk(nets[j].w[at].c.lib, nets[j].w[at].s.buffer)
    ensures forall id :: id in nets[j].w[at].s.conns ==> nets[j].w[at].s.conns[id].peerNodeId == id
  {
    SaneRun(nets, moves, lib, j);
    assert HonestHost(nets[j].w[at], lib, at);
  }

  // A message given once to a network that has no copy of it, which has come to wait in the
  // buffer of some node: when its cell registers there in time and the flush gets through, that
  // node sends it to the cell, and from then on, whatever else the network does, that is the
  // only copy: nothing is under way, at rest elsewhere, or lost.
  lemma WaitsThenDelivered(nets: seq<Net>, moves: seq<Move>, lib: Library, ids: seq<string>, b: Body, cell: string,
                           at: string, until: int, k: nat, j: nat, e: Event) returns (i: nat)
    requires IsNetRun(nets, moves) && Sane(nets[0], lib) && Roster(ids, nets[0].w) && b.kind == MSG && cell !in nets[0].w
    requires Copies(nets[0], ids, b) == 0 && Entered(nets, moves, b) == 1
    requires k <= j < |moves| && at in nets[k].w && WaitsAt(nets[k].w[at], b, cell, until)
    requires QuietRun(nets, moves, k, j, at, cell, until)
    requires moves[j] == Acts(at, e) && at in nets[j].w && FlushesTo(nets[j].w[at], e, cell, until)
    ensures SentAs(nets[|moves|], at, i, nets[j].w[at].s.conns[cell], b)
    ensures OnlyAt(nets[|moves|], b, at) && Lost(nets, moves, b) == 0
  {
    StillWaits(nets, moves, lib, b, cell, at, until, k, j);
    i := FlushedForGood(nets, moves, lib, b, cell, at, until, j, e);
    SentIsOnly(nets, moves, lib, ids, b, cell, at, i, nets[j].w[at].s.conns[cell]);
  }

  lemma StillWaits(nets: seq<Net>, moves: seq<Move>, lib: Library, b: Body, cell: string, at: string, until: int, k: nat, j: nat)
    requires IsNetRun(nets, moves) && Sane(nets[0], lib) && k <= j <= |moves|
    requires at in nets[k].w && WaitsAt(nets[k].w[at], b, cell, until)
    requires QuietRun(nets, moves, k, j, at, cell, until)
    ensures at in nets[j].w && WaitsAt(nets[j].w[at], b, cell, until)
  {
    RunKeepsRow(nets, moves, lib, at, b.id, k, j);
    RunKeepsLog(nets, moves, lib, at, k, j);
  }

  lemma FlushedForGood(nets: seq<Net>, moves: seq<Move>, lib: Library, b: Body, cell: string, at: string, until: int,
                       j: nat, e: Event) returns (i: nat)
    requires IsNetRun(nets, moves) && Sane(nets[0], lib) && j < |moves| && moves[j] == Acts(at, e)
    requires at in nets[j].w && WaitsAt(nets[j].w[at], b, cell, until) && FlushesTo(nets[j].w[at], e, cell, until)
    ensures SentAs(nets[|moves|], at, i, nets[j].w[at].s.conns[cell], b)
    ensures nets[j].w[at].s.conns[cell].peerNodeId == cell
  {
    HostBuffer(nets, moves, lib, j, at);
    RunKeepsLog(nets, moves, lib, at, j, j + 1);
    var h := nets[j].w[at];
    i := FlushSendsInRun(nets, moves, lib, j, at, e, h, nets[j + 1].w[at], b, cell, until);
    RunKeepsLog(nets, moves, lib, at, j + 1, |moves|);
    StaysSent(nets[j + 1], nets[|moves|], at, i, h.s.conns[cell], b);
  }

  lemma SentIsOnly(nets: seq<Net>, moves: seq<Move>, lib: Library, ids: seq<string>, b: Body, cell: string,
                   at: string, i: nat, conn: Conn)
    requires IsNetRun(nets, moves) && Sane(nets[0], lib) && Roster(ids, nets[0].w) && b.kind == MSG && cell !in nets[0].w
    requires Copies(nets[0], ids, b) == 0 && Entered(nets, moves, b) == 1
    requires SentAs(nets[|moves|], at, i, conn, b) && conn.peerNodeId == cell
    ensures OnlyAt(nets[|moves|], b, at) && Lost(nets, moves, b) == 0
  {
    NetConservation(nets, moves, lib, ids, b);
    var n := nets[|moves|];
    assert HonestHost(n.w[at], lib, at);
    RestCounts(lib, n.w[at].s.log, b, n.w.Keys, i);
    OneCopy(n, ids, b, at, Lost(nets, moves, b));
  }

  lemma StaysSent(n: Net, n1: Net, at: string, i: nat, conn: Conn, b: Body)
    requires LogKept(n, n1, at) && SentAs(n, at, i, conn, b)
    ensures SentAs(n1, at, i, conn, b)
  {
    assert n1.w[at].s.log[..|n.w[at].s.log|][i] == n1.w[at].s.log[i];
  }

  // And the cell's client reads in it what the sender's client encrypted.
  lemma DeliveredIsRead(n: Net, lib: Library, at: string, i: nat, conn: Conn, b: Body, encKey: Bytes,
                        plaintext: Bytes, ephemeral: Bytes, nonce: Bytes)
    requires lib.ExchangeLaw() && lib.AeadLaw() && Sane(n, lib) && SentAs(n, at, i, conn, b) && b.kind == MSG
    requires b.payload == E.SealedPayload(lib, E.Encrypt(lib, plaintext, lib.dhPub(encKey), ephemeral, nonce))
    ensures E.ClientReads(lib, encKey, lib.signPub(n.w[at].c.who.signKey), Pack(lib, n.w[at].s.log[i].pkt))
         == Some(E.Delivery(b.fromAddr, plaintext))
  {
    C.NetworkCopiesRead(n, lib, b, encKey, plaintext, ephemeral, nonce);
    assert C.ReadsAs(lib, n.w[at], b, encKey, E.Delivery(b.fromAddr, plaintext));
  }
}
