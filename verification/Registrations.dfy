// What a registration writes, field by field, and what the cells table therefore holds in
// every run: the keys of the latest registration, the rest of the first.
module Registrations {
  import opened Text
  import opened Primitives
  import opened Protocol
  import opened Tables
  import opened Machine
  import opened Ledger
  import opened Invariants
  import opened FlushDelivery

  /** The fields a claim is made of; is_home is true unless it is there and false. */
  ghost predicate Claims(lib: Library, payload: Bytes, cl: Claim) {
    match lib.unpack(payload)
    case Some(Dict(d)) =>
      && "cell_id" in d && d["cell_id"] == Str(cl.cellId)
      && "signing_pubkey" in d && d["signing_pubkey"] == Bin(cl.signingPub)
      && "enc_pubkey" in d && d["enc_pubkey"] == Bin(cl.encPub)
      && cl.isHome == ("is_home" !in d || d["is_home"] !in {Nil, Bool(false), Int(0), Str(""), Bin([]), List([]), Dict(map[])})
    case _ => false
  }

  // A claim is proven exactly when the payload makes it, and the connection proved its key
  // and goes by its id.
  lemma ProvenExactly(c: Config, payload: Bytes, conn: Conn, cl: Claim)
    ensures ProvenClaim(c, payload, conn) == Some(cl)
       <==> Claims(c.lib, payload, cl) && cl.signingPub == conn.signingPub && cl.cellId == conn.peerNodeId
  {
  }

  /** The row after a registration: its keys; its time and is_home only if it is the first. */
  ghost predicate RegisteredAs(t: CellTable, u: CellTable, cl: Claim, now: int) {
    && cl.cellId in u && u.Keys == t.Keys + {cl.cellId}
    && u[cl.cellId].signingPub == cl.signingPub && u[cl.cellId].encPub == cl.encPub
    && u[cl.cellId].registeredAt == (if cl.cellId in t then t[cl.cellId].registeredAt else now)
    && u[cl.cellId].isHome == (if cl.cellId in t then t[cl.cellId].isHome else cl.isHome)
    && forall id :: id in t && id != cl.cellId ==> u[id] == t[id]
  }

  /** The cell is now at home here and visits nowhere; other cells are where they were. */
  ghost predicate PresentHere(c: Config, t: PresenceTable, u: PresenceTable, cell: string, now: int) {
    && u.Keys == t.Keys + {cell} && u[cell] == PresenceRow(Me(c), None, now)
    && forall id :: id in t && id != cell ==> u[id] == t[id]
  }

  /** What this event registers: a proven claim, or a cell of the node's own. */
  ghost function Registered(c: Config, e: Event): Option<Claim> {
    match e
    case Received(conn, raw, _, _) => ClaimIn(c, raw, conn)
    case RegisteredLocally(cell, signingPub, encPub, _) => Some(Claim(cell, signingPub, encPub, true))
    case _ => None
  }

  function WhenRegistered(e: Event): int {
    match e
    case Received(_, _, now, _) => now
    case RegisteredLocally(_, _, _, now) => now
    case _ => 0
  }

  lemma RegistrationPresence(c: Config, s: State, payload: Bytes, conn: Conn, now: int, order: seq<string>)
    requires BufferOk(c.lib, s.buffer) && FlushOrder(c, s, payload, conn, now, order)
    requires ProvenClaim(c, payload, conn).Some?
    ensures PresentHere(c, s.presence, HandleCellRegister(c, s, payload, conn, now, order).presence, conn.peerNodeId, now)
  {
    var cl := ProvenClaim(c, payload, conn).value;
    WaitingFlushable(c, s, cl, order, now);
    FlushAccount(c, RegisterClaim(c, s, cl, now), s.buffer, order, now, cl.cellId, Body("", "", "", "", [], 0));
  }

  // After a registration both keys of the row are those of the claim, the rest of the row is
  // that of the first registration, and the cell is present here; no other row changes, and no
  // other event writes the cells table.
  lemma StepRegisters(c: Config, s: State, e: Event)
    requires BufferOk(c.lib, s.buffer) && Enabled(c, s, e)
    ensures match Registered(c, e)
            case Some(cl) => && RegisteredAs(s.cells, Step(c, s, e).cells, cl, WhenRegistered(e))
                             && PresentHere(c, s.presence, Step(c, s, e).presence, cl.cellId, WhenRegistered(e))
            case None => Step(c, s, e).cells == s.cells
  {
    StepCells(c, s, e);
    CellsRegistered(c, s, e);
    if Registered(c, e).Some? {
      StepPresence(c, s, e);
    }
  }

  lemma RegisterMeaning(t: CellTable, cl: Claim, now: int)
    ensures RegisteredAs(t, RegisterCell(t, cl.cellId, cl.signingPub, cl.encPub, cl.isHome, now), cl, now)
  {
  }

  lemma CellsRegistered(c: Config, s: State, e: Event)
    ensures match Registered(c, e)
            case Some(cl) => RegisteredAs(s.cells, CellsAfter(c, s, e), cl, WhenRegistered(e))
            case None => CellsAfter(c, s, e) == s.cells
  {
    if Registered(c, e).Some? {
      RegisterMeaning(s.cells, Registered(c, e).value, WhenRegistered(e));
    }
  }

  lemma StepPresence(c: Config, s: State, e: Event)
    requires BufferOk(c.lib, s.buffer) && Enabled(c, s, e) && Registered(c, e).Some?
    ensures PresentHere(c, s.presence, Step(c, s, e).presence, Registered(c, e).value.cellId, WhenRegistered(e))
  {
    match e
    case Received(conn, raw, now, order) =>
      RegistrationPresence(c, s, Genuine(c, raw, conn).value.body.payload, conn, now, order);
    case RegisteredLocally(_, _, _, _) =>
  }

  // --- over runs ---

  /** The event registers this cell. */
  ghost predicate RegistersCell(c: Config, e: Event, id: string) {
    Registered(c, e).Some? && Registered(c, e).value.cellId == id
  }

  /** first and last are the first and the last registration of this cell. */
  ghost predicate FirstAndLast(c: Config, events: seq<Event>, id: string, first: nat, last: nat) {
    && first <= last < |events| && RegistersCell(c, events[first], id) && RegistersCell(c, events[last], id)
    && (forall k :: 0 <= k < first ==> !RegistersCell(c, events[k], id))
    && (forall k :: last < k < |events| ==> !RegistersCell(c, events[k], id))
  }

  /** The row has the keys of the one and the time and is_home of the other. */
  ghost predicate RowOf(c: Config, r: CellRow, first: Event, last: Event)
    requires Registered(c, first).Some? && Registered(c, last).Some?
  {
    && r.signingPub == Registered(c, last).value.signingPub && r.encPub == Registered(c, last).value.encPub
    && r.registeredAt == WhenRegistered(first) && r.isHome == Registered(c, first).value.isHome
  }

  /** From t to u the row goes through this registration, or none. */
  ghost predicate RowAfter(t: CellTable, u: CellTable, reg: Option<Claim>, when: int, id: string) {
    if reg.Some? && reg.value.cellId == id then
      && id in u && u[id].signingPub == reg.value.signingPub && u[id].encPub == reg.value.encPub
      && u[id].registeredAt == (if id in t then t[id].registeredAt else when)
      && u[id].isHome == (if id in t then t[id].isHome else reg.value.isHome)
    else (id in u <==> id in t) && (id in t ==> u[id] == t[id])
  }

  lemma RowGoesOn(c: Config, s: State, e: Event, id: string)
    requires BufferOk(c.lib, s.buffer) && Enabled(c, s, e)
    ensures RowAfter(s.cells, Step(c, s, e).cells, Registered(c, e), WhenRegistered(e), id)
  {
    StepRegisters(c, s, e);
    RowsRegistered(s.cells, Step(c, s, e).cells, Registered(c, e), WhenRegistered(e), id);
  }

  lemma RowsRegistered(t: CellTable, u: CellTable, reg: Option<Claim>, when: int, id: string)
    requires match reg
             case Some(cl) => RegisteredAs(t, u, cl, when)
             case None => u == t
    ensures RowAfter(t, u, reg, when, id)
  {
  }

  lemma RegisteredOnce(c: Config, events: seq<Event>, id: string)
    requires events != [] && RegistersCell(c, events[|events| - 1], id)
    requires forall k :: 0 <= k < |events| - 1 ==> !RegistersCell(c, events[k], id)
    ensures FirstAndLast(c, events, id, |events| - 1, |events| - 1)
  {
  }

  // The registrations of an event list are those of the list without its last event, and then
  // perhaps that one.
  lemma SameBefore(c: Config, events: seq<Event>, id: string, k: nat)
    requires k < |events| - 1
    ensures RegistersCell(c, events[..|events| - 1][k], id) == RegistersCell(c, events[k], id)
  {
  }

  lemma LastGoesOn(c: Config, events: seq<Event>, id: string, first: nat, last: nat) returns (last1: nat)
    requires events != [] && FirstAndLast(c, events[..|events| - 1], id, first, last)
    ensures FirstAndLast(c, events, id, first, last1)
    ensures last1 == if RegistersCell(c, events[|events| - 1], id) then |events| - 1 else last
  {
    var n := |events| - 1;
    last1 := if RegistersCell(c, events[n], id) then n else last;
    SameBefore(c, events, id, first);
    SameBefore(c, events, id, last);
    forall k: nat | k < first
      ensures !RegistersCell(c, events[k], id)
    {
      SameBefore(c, events, id, k);
    }
    forall k: nat | last1 < k < |events|
      ensures !RegistersCell(c, events[k], id)
    {
      if k < n {
        SameBefore(c, events, id, k);
      }
    }
  }

  ghost predicate NeverRegistered(c: Config, events: seq<Event>, id: string) {
    forall k :: 0 <= k < |events| ==> !RegistersCell(c, events[k], id)
  }

  /** The table's row for the cell is what these events registered, if they did. */
  ghost predicate TableTells(c: Config, t: CellTable, events: seq<Event>, id: string, first: nat, last: nat) {
    if id in t then FirstAndLast(c, events, id, first, last) && RowOf(c, t[id], events[first], events[last])
    else NeverRegistered(c, events, id)
  }

  lemma KnownGoesOn(c: Config, t: CellTable, u: CellTable, events: seq<Event>, id: string, first: nat, last: nat)
    returns (last1: nat)
    requires events != [] && id in t && TableTells(c, t, events[..|events| - 1], id, first, last)
    requires var e := events[|events| - 1]; RowAfter(t, u, Registered(c, e), WhenRegistered(e), id)
    ensures TableTells(c, u, events, id, first, last1)
  {
    last1 := LastGoesOn(c, events, id, first, last);
    assert events[..|events| - 1][first] == events[first] && events[..|events| - 1][last] == events[last];
  }

  lemma UnknownGoesOn(c: Config, t: CellTable, u: CellTable, events: seq<Event>, id: string)
    requires events != [] && id !in t && NeverRegistered(c, events[..|events| - 1], id)
    requires var e := events[|events| - 1]; RowAfter(t, u, Registered(c, e), WhenRegistered(e), id)
    ensures TableTells(c, u, events, id, |events| - 1, |events| - 1)
  {
    forall k: nat | k < |events| - 1
      ensures !RegistersCell(c, events[k], id)
    {
      SameBefore(c, events, id, k);
    }
    if RegistersCell(c, events[|events| - 1], id) {
      RegisteredOnce(c, events, id);
    }
  }

  // In every run from a node without cells: a cell is in the table exactly if it was ever
  // registered, and its row has the keys of the latest registration and the time and is_home of
  // the first.
  lemma {:induction false} RowsAreLatest(c: Config, states: seq<State>, events: seq<Event>, id: string)
    returns (first: nat, last: nat)
    requires c.lib.CodecLaw() && IsRun(c, states, events) && BufferOk(c.lib, states[0].buffer)
    requires states[0].cells == map[]
    ensures TableTells(c, states[|events|].cells, events, id, first, last)
    decreases |events|
  {
    first, last := 0, 0;
    var n := |events| - 1;
    if n >= 0 {
      first, last := RowsAreLatest(c, states[..n + 1], events[..n], id);
      Conservation(c, states[..n + 1], events[..n], Body("", MSG, "", "", [], 0));
      RowGoesOn(c, states[n], events[n], id);
      if id in states[n].cells {
        last := KnownGoesOn(c, states[n].cells, states[n + 1].cells, events, id, first, last);
      } else {
        UnknownGoesOn(c, states[n].cells, states[n + 1].cells, events, id);
        first, last := n, n;
      }
    }
  }
}
