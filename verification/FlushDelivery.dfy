// What a cell that registers gets out of the buffer: the whole log of a flush.
module FlushDelivery {
  import opened Text
  import opened Protocol
  import opened Tables
  import opened Machine
  import opened Ledger

  /** The stored packet. */
  function RowPacket(c: Config, row: BufferRow): Packet
    requires Unpack(c.lib, row.payload).Some?
  {
    Unpack(c.lib, row.payload).value
  }

  /** A packet that found no connection here: for the handler, or for nobody. */
  predicate EndedHere(c: Config, f: Fate, b: Body) {
    if c.hasHandler then f.Handled? && f.pkt.body == b else f == Dropped(NoHandler, b)
  }

  /** The attempts from tick t up to and including the i-th after it all succeed. */
  ghost predicate AllGo(c: Config, t: nat, i: nat) {
    forall k :: t <= k <= t + i ==> c.luck(k).delivered
  }

  /** The i-th row left over conn while that lasted, or ended here. */
  ghost predicate RowFate(c: Config, s: State, conn: Option<Conn>, row: BufferRow, i: nat, f: Fate)
    requires Unpack(c.lib, row.payload).Some?
  {
    var pkt := RowPacket(c, row);
    if conn.Some? && AllGo(c, s.tick, i) then f == Sent(conn.value, Signed(c.lib, pkt, c.who.signKey))
    else EndedHere(c, f, pkt.body)
  }

  function Connection(s: State, cell: string): Option<Conn> {
    if cell != "" && cell in s.conns then Some(s.conns[cell]) else None
  }

  ghost predicate FlushLog(c: Config, s: State, t: State, rows: Buffer, ids: seq<string>, cell: string)
    requires forall id :: id in ids ==> id in rows && Unpack(c.lib, rows[id].payload).Some?
  {
    && |t.log| == |s.log| + |ids|
    && t.log[..|s.log|] == s.log
    && forall i :: 0 <= i < |ids| ==> RowFate(c, s, Connection(s, cell), rows[ids[i]], i, t.log[|s.log| + i])
  }

  lemma FlushableReads(c: Config, s: State, rows: Buffer, ids: seq<string>, cell: string)
    requires Flushable(c, s, rows, ids, cell)
    ensures forall id :: id in ids ==> id in rows && Unpack(c.lib, rows[id].payload).Some?
  {
    forall id | id in ids
      ensures Unpack(c.lib, rows[id].payload).Some?
    {
      assert RowOk(c.lib, id, s.buffer[id]);
    }
  }

  /** One row gone, its fate appended; the connection still there if the send went through. */
  ghost predicate OneFlushed(c: Config, s: State, s1: State, row: BufferRow, cell: string)
    requires Unpack(c.lib, row.payload).Some?
  {
    && |s1.log| == |s.log| + 1 && s1.log[..|s.log|] == s.log
    && RowFate(c, s, Connection(s, cell), row, 0, s1.log[|s.log|])
    && match Connection(s, cell)
       case None => Connection(s1, cell) == None
       case Some(conn) =>
         && s1.tick == s.tick + 1
         && Connection(s1, cell) == if c.luck(s.tick).delivered then Some(conn) else None
  }

  lemma FlushOneLog(c: Config, s: State, id: string, row: BufferRow, now: int, cell: string)
    requires BufferOk(c.lib, s.buffer) && AtHome(c, s, cell)
    requires id in s.buffer && s.buffer[id] == row && row.toCell == cell
    ensures Unpack(c.lib, row.payload).Some?
    ensures OneFlushed(c, s, FlushOne(c, s, id, row, now), row, cell)
  {
    assert RowOk(c.lib, id, row);
    var pkt := RowPacket(c, row);
    RouteAtHome(c, s, pkt, now, cell);
    LocalFlushed(c, s, pkt, row, cell);
    DropRow(c, s, DeliverLocal(c, s, pkt).s, row, cell, id);
  }

  lemma LocalFlushed(c: Config, s: State, pkt: Packet, row: BufferRow, cell: string)
    requires Unpack(c.lib, row.payload) == Some(pkt) && ParseAddr(pkt.body.toAddr).0 == Some(cell)
    ensures OneFlushed(c, s, DeliverLocal(c, s, pkt).s, row, cell)
  {
    assert AllGo(c, s.tick, 0) <==> c.luck(s.tick).delivered;
    if cell != "" && cell in s.conns {
      if c.luck(s.tick).delivered {
        LeftNow(c, s, pkt, row, cell);
      } else {
        EndedNow(c, s, SendTo(c, s, cell, pkt), row, cell);
      }
    } else {
      EndedNow(c, s, Attempt(s, pkt, false), row, cell);
    }
  }

  lemma LeftNow(c: Config, s: State, pkt: Packet, row: BufferRow, cell: string)
    requires Unpack(c.lib, row.payload) == Some(pkt) && cell != "" && cell in s.conns && AllGo(c, s.tick, 0)
    ensures OneFlushed(c, s, SendTo(c, s, cell, pkt).s, row, cell)
  {
  }

  lemma EndedNow(c: Config, s: State, a: Attempt, row: BufferRow, cell: string)
    requires Unpack(c.lib, row.payload).Some? && a.pkt.body == RowPacket(c, row).body && a.s.log == s.log
    requires if Connection(s, cell).Some?
             then !AllGo(c, s.tick, 0) && !c.luck(s.tick).delivered
                  && a.s.tick == s.tick + 1 && a.s.conns == s.conns - {cell}
             else a.s == s
    ensures var f := if c.hasHandler then Handled(a.pkt) else Dropped(NoHandler, a.pkt.body);
            OneFlushed(c, s, a.s.(log := a.s.log + [f]), row, cell)
  {
  }

  lemma DropRow(c: Config, s: State, s1: State, row: BufferRow, cell: string, id: string)
    requires Unpack(c.lib, row.payload).Some? && OneFlushed(c, s, s1, row, cell)
    ensures OneFlushed(c, s, s1.(buffer := DeleteBuffered(s1.buffer, id)), row, cell)
  {
  }

  lemma FlushLogStep(c: Config, s: State, s1: State, t: State, rows: Buffer, ids: seq<string>, cell: string)
    requires ids != []
    requires forall id :: id in ids ==> id in rows && Unpack(c.lib, rows[id].payload).Some?
    requires OneFlushed(c, s, s1, rows[ids[0]], cell)
    requires FlushLog(c, s1, t, rows, ids[1..], cell)
    ensures FlushLog(c, s, t, rows, ids, cell)
  {
    assert t.log[..|s.log|] == t.log[..|s1.log|][..|s.log|] == s.log;
    forall i | 0 <= i < |ids|
      ensures RowFate(c, s, Connection(s, cell), rows[ids[i]], i, t.log[|s.log| + i])
    {
      if i == 0 {
        assert t.log[|s.log|] == t.log[..|s1.log|][|s.log|];
      } else {
        assert ids[1..][i - 1] == ids[i];
        assert RowFate(c, s1, Connection(s1, cell), rows[ids[i]], i - 1, t.log[|s1.log| + (i - 1)]);
        AllGoSplit(c, s.tick, i);
      }
    }
  }

  lemma AllGoSplit(c: Config, t: nat, i: nat)
    requires i > 0
    ensures AllGo(c, t, i) <==> c.luck(t).delivered && AllGo(c, t + 1, i - 1)
  {
  }

  // The log of a flush, row by row: each message leaves on the cell's connection, signed by
  // this node, as long as every send so far went through; after the first failure the rest
  // end here.
  lemma {:induction false} FlushWrites(c: Config, s: State, rows: Buffer, ids: seq<string>, now: int, cell: string)
    requires Flushable(c, s, rows, ids, cell)
    ensures forall id :: id in ids ==> id in rows && Unpack(c.lib, rows[id].payload).Some?
    ensures FlushLog(c, s, Flush(c, s, rows, ids, now), rows, ids, cell)
    decreases |ids|
  {
    FlushableReads(c, s, rows, ids, cell);
    if ids != [] {
      var s1 := FlushOne(c, s, ids[0], rows[ids[0]], now);
      FlushOneLog(c, s, ids[0], rows[ids[0]], now, cell);
      FlushableNext(c, s, rows, ids, now, cell);
      FlushWrites(c, s1, rows, ids[1..], now, cell);
      FlushLogStep(c, s, s1, Flush(c, s1, rows, ids[1..], now), rows, ids, cell);
    }
  }

  /** after is b without exactly the rows waiting for the cell. */
  ghost predicate Emptied(b: Buffer, after: Buffer, cell: string, now: int) {
    && (forall id :: id in after <==> id in b && !Waiting(b[id], cell, now))
    && (forall id :: id in after ==> after[id] == b[id])
    && Buffered(after, cell, now) == map[]
  }

  lemma ListedRowsGone(b: Buffer, order: seq<string>, cell: string, now: int)
    requires Lists(order, Buffered(b, cell, now).Keys)
    ensures Emptied(b, b - (set id | id in order), cell, now)
  {
    var after := b - (set id | id in order);
    forall id | id in b
      ensures id in order <==> Waiting(b[id], cell, now)
    {
      assert id in order <==> id in Buffered(b, cell, now).Keys;
    }
    assert Buffered(after, cell, now).Keys == {};
  }

  lemma WaitingFlushable(c: Config, s: State, cl: Claim, order: seq<string>, now: int)
    requires BufferOk(c.lib, s.buffer) && Lists(order, Buffered(s.buffer, cl.cellId, now).Keys)
    ensures Flushable(c, RegisterClaim(c, s, cl, now), s.buffer, order, cl.cellId)
  {
    forall id | id in order
      ensures id in s.buffer && s.buffer[id].toCell == cl.cellId
    {
      assert id in Buffered(s.buffer, cl.cellId, now).Keys;
    }
  }

  // When a cell registers over its own connection: exactly the unexpired rows for it leave
  // the buffer, each once; rows of other cells and expired rows stay.
  lemma RegistrationDrains(c: Config, s: State, payload: Bytes, conn: Conn, now: int, order: seq<string>)
    requires BufferOk(c.lib, s.buffer) && FlushOrder(c, s, payload, conn, now, order)
    requires ProvenClaim(c, payload, conn).Some?
    ensures Emptied(s.buffer, HandleCellRegister(c, s, payload, conn, now, order).buffer, conn.peerNodeId, now)
    ensures forall id :: id in order ==> id in s.buffer && Unpack(c.lib, s.buffer[id].payload).Some?
    ensures FlushLog(c, s, HandleCellRegister(c, s, payload, conn, now, order), s.buffer, order, conn.peerNodeId)
  {
    var cl := ProvenClaim(c, payload, conn).value;
    var s1 := RegisterClaim(c, s, cl, now);
    var t := Flush(c, s1, s.buffer, order, now);
    assert t == HandleCellRegister(c, s, payload, conn, now, order);
    WaitingFlushable(c, s, cl, order, now);
    FlushAccount(c, s1, s.buffer, order, now, cl.cellId, Body("", "", "", "", [], 0));
    ListedRowsGone(s.buffer, order, cl.cellId, now);
    FlushWrites(c, s1, s.buffer, order, now, cl.cellId);
    RegisteredLog(c, s, s1, t, s.buffer, order, cl.cellId);
  }

  lemma RegisteredLog(c: Config, s: State, s1: State, t: State, rows: Buffer, ids: seq<string>, cell: string)
    requires s1.log == s.log && s1.conns == s.conns && s1.tick == s.tick
    requires forall id :: id in ids ==> id in rows && Unpack(c.lib, rows[id].payload).Some?
    requires FlushLog(c, s1, t, rows, ids, cell)
    ensures FlushLog(c, s, t, rows, ids, cell)
  {
    forall i | 0 <= i < |ids|
      ensures RowFate(c, s, Connection(s, cell), rows[ids[i]], i, t.log[|s.log| + i])
    {
      assert RowFate(c, s1, Connection(s1, cell), rows[ids[i]], i, t.log[|s1.log| + i]);
    }
  }

  /** Every row of the flush left over the cell's connection. */
  ghost predicate AllSent(c: Config, s: State, t: State, order: seq<string>, conn: Conn)
    requires |t.log| == |s.log| + |order|
    requires forall id :: id in order ==> id in s.buffer && Unpack(c.lib, s.buffer[id].payload).Some?
  {
    forall i :: 0 <= i < |order| ==>
      t.log[|s.log| + i] == Sent(conn, Signed(c.lib, RowPacket(c, s.buffer[order[i]]), c.who.signKey))
  }

  lemma AllSentExactly(c: Config, s: State, t: State, order: seq<string>, cell: string)
    requires Connection(s, cell).Some?
    requires forall id :: id in order ==> id in s.buffer && Unpack(c.lib, s.buffer[id].payload).Some?
    requires FlushLog(c, s, t, s.buffer, order, cell)
    ensures AllSent(c, s, t, order, s.conns[cell])
            <==> forall k :: s.tick <= k < s.tick + |order| ==> c.luck(k).delivered
  {
    if forall k :: s.tick <= k < s.tick + |order| ==> c.luck(k).delivered {
      AllGoSent(c, s, t, order, cell);
    }
    if order != [] && AllSent(c, s, t, order, s.conns[cell]) {
      LastSentGoes(c, s, t, order, cell);
    }
  }

  lemma AllGoSent(c: Config, s: State, t: State, order: seq<string>, cell: string)
    requires Connection(s, cell).Some?
    requires forall id :: id in order ==> id in s.buffer && Unpack(c.lib, s.buffer[id].payload).Some?
    requires FlushLog(c, s, t, s.buffer, order, cell)
    requires forall k :: s.tick <= k < s.tick + |order| ==> c.luck(k).delivered
    ensures AllSent(c, s, t, order, s.conns[cell])
  {
    forall i | 0 <= i < |order|
      ensures t.log[|s.log| + i] == Sent(s.conns[cell], Signed(c.lib, RowPacket(c, s.buffer[order[i]]), c.who.signKey))
    {
      assert AllGo(c, s.tick, i);
      OneSentExactly(c, s, s.conns[cell], s.buffer[order[i]], i, t.log[|s.log| + i]);
    }
  }

  lemma LastSentGoes(c: Config, s: State, t: State, order: seq<string>, cell: string)
    requires Connection(s, cell).Some? && order != []
    requires forall id :: id in order ==> id in s.buffer && Unpack(c.lib, s.buffer[id].payload).Some?
    requires FlushLog(c, s, t, s.buffer, order, cell)
    requires AllSent(c, s, t, order, s.conns[cell])
    ensures AllGo(c, s.tick, |order| - 1)
  {
    var i := |order| - 1;
    OneSentExactly(c, s, s.conns[cell], s.buffer[order[i]], i, t.log[|s.log| + i]);
  }

  lemma OneSentExactly(c: Config, s: State, conn: Conn, row: BufferRow, i: nat, f: Fate)
    requires Unpack(c.lib, row.payload).Some? && RowFate(c, s, Some(conn), row, i, f)
    ensures f == Sent(conn, Signed(c.lib, RowPacket(c, row), c.who.signKey)) <==> AllGo(c, s.tick, i)
  {
  }

  // Every waiting message reaches the cell that registered exactly when all the sends of
  // the flush go through; what a broken connection leaves over is not kept for later.
  lemma AllDeliveredExactly(c: Config, s: State, payload: Bytes, conn: Conn, now: int, order: seq<string>)
    requires BufferOk(c.lib, s.buffer) && FlushOrder(c, s, payload, conn, now, order)
    requires ProvenClaim(c, payload, conn).Some? && conn.peerNodeId != "" && conn.peerNodeId in s.conns
    ensures forall id :: id in order ==> id in s.buffer && Unpack(c.lib, s.buffer[id].payload).Some?
    ensures |HandleCellRegister(c, s, payload, conn, now, order).log| == |s.log| + |order|
    ensures AllSent(c, s, HandleCellRegister(c, s, payload, conn, now, order), order, s.conns[conn.peerNodeId])
            <==> forall k :: s.tick <= k < s.tick + |order| ==> c.luck(k).delivered
  {
    RegistrationDrains(c, s, payload, conn, now, order);
    AllSentExactly(c, s, HandleCellRegister(c, s, payload, conn, now, order), order, conn.peerNodeId);
  }
}
