// The four tables of a node, as values: one map each, keyed by the primary key, and what
// each SQL statement does to them.
module Tables {
  import opened Text

  const TTL_NODE_OFFLINE_SECS := 72 * 3600
  const TTL_MESSAGE_SECS := 72 * 3600
  const MISSED_PINGS_OFFLINE := 3

  const ONLINE := "online"
  const OFFLINE := "offline"

  /** What a TEXT column holds: numbers are turned into text on the way in, bytes are not. */
  datatype Column = Words(text: string) | Blob(data: Bytes)

  datatype NodeRow = NodeRow(
    address: string, nodeType: Column, access: Column, cert: Bytes, parentNode: string,
    lastSeen: int, missedPings: int, status: string, addedAt: int)

  datatype CellRow = CellRow(signingPub: Bytes, encPub: Bytes, registeredAt: int, isHome: bool)

  datatype PresenceRow = PresenceRow(home: string, visiting: Option<string>, updatedAt: int)

  datatype BufferRow = BufferRow(
    toCell: string, toNode: string, payload: Bytes, createdAt: int, expiresAt: int)

  type NodeTable = map<string, NodeRow>
  type CellTable = map<string, CellRow>
  type PresenceTable = map<string, PresenceRow>
  type Buffer = map<string, BufferRow>

  // --- node_table ---

  /** Insert, or overwrite the address and the liveness fields of an existing row. */
  function UpsertNode(t: NodeTable, id: string, e: NodeRow, clock: int): NodeTable {
    if id in t then
      t[id := t[id].(address := e.address, lastSeen := e.lastSeen, missedPings := e.missedPings,
                     status := e.status, cert := e.cert)]
    else
      t[id := e.(addedAt := if e.addedAt != 0 then e.addedAt else clock)]
  }

  // A new row is the given one; of an old row type, access, parent and age stay.
  lemma Upserted(t: NodeTable, id: string, e: NodeRow, clock: int)
    ensures var u := UpsertNode(t, id, e, clock);
            && u.Keys == t.Keys + {id} && (forall x :: x in t && x != id ==> u[x] == t[x])
            && (id !in t ==> u[id] == e.(addedAt := u[id].addedAt)
                             && u[id].addedAt == if e.addedAt == 0 then clock else e.addedAt)
            && (id in t ==> var r := t[id];
                            u[id] == NodeRow(e.address, r.nodeType, r.access, e.cert, r.parentNode,
                                             e.lastSeen, e.missedPings, e.status, r.addedAt))
  {
  }

  function UpdateNodePing(t: NodeTable, id: string, success: bool, now: int): NodeTable {
    if id !in t then t
    else if success then
      t[id := t[id].(lastSeen := now, missedPings := 0, status := ONLINE)]
    else
      t[id := t[id].(missedPings := t[id].missedPings + 1,
                     status := if t[id].missedPings + 1 >= MISSED_PINGS_OFFLINE then OFFLINE
                               else t[id].status)]
  }

  function RemoveNode(t: NodeTable, id: string): NodeTable {
    t - {id}
  }

  predicate NodeExpired(r: NodeRow, now: int) {
    r.status == OFFLINE && r.lastSeen < now - TTL_NODE_OFFLINE_SECS
  }

  function CleanupNodes(t: NodeTable, now: int): NodeTable {
    map id | id in t && !NodeExpired(t[id], now) :: t[id]
  }

  // --- cells and presence ---

  function RegisterCell(t: CellTable, id: string, signingPub: Bytes, encPub: Bytes, isHome: bool, now: int)
    : CellTable
  {
    if id in t then t[id := t[id].(signingPub := signingPub, encPub := encPub)]
    else t[id := CellRow(signingPub, encPub, now, isHome)]
  }

  function UpdatePresence(t: PresenceTable, id: string, home: string, visiting: Option<string>, now: int)
    : PresenceTable
  {
    t[id := PresenceRow(home, visiting, now)]
  }

  // --- message_buffer ---

  /** Insert or ignore. */
  function BufferMessage(b: Buffer, id: string, toCell: string, toNode: string, payload: Bytes, now: int)
    : Buffer
  {
    if id in b then b
    else b[id := BufferRow(toCell, toNode, payload, now, now + TTL_MESSAGE_SECS)]
  }

  predicate Waiting(r: BufferRow, cell: string, now: int) {
    r.toCell == cell && r.expiresAt > now
  }

  /** The rows get_buffered reads. */
  function Buffered(b: Buffer, cell: string, now: int): Buffer {
    map id | id in b && Waiting(b[id], cell, now) :: b[id]
  }

  function DeleteBuffered(b: Buffer, id: string): Buffer {
    b - {id}
  }

  function ExpiredMessages(b: Buffer, now: int): Buffer {
    map id | id in b && b[id].expiresAt <= now :: b[id]
  }

  function CleanupMessages(b: Buffer, now: int): Buffer {
    map id | id in b && b[id].expiresAt > now :: b[id]
  }

  // --- reading a table out as a list ---

  /** ks lists s, each element once, in some order. */
  ghost predicate Lists<K(!new)>(ks: seq<K>, s: set<K>) {
    && (forall k :: k in s <==> k in ks)
    && (forall i, j :: 0 <= i < j < |ks| ==> ks[i] != ks[j])
  }

  // --- sizes of sets ---

  lemma {:induction false} DistinctSize(ids: seq<string>)
    requires forall i, j :: 0 <= i < j < |ids| ==> ids[i] != ids[j]
    ensures |set id | id in ids| == |ids|
  {
    if ids != [] {
      var n := |ids| - 1;
      DistinctSize(ids[..n]);
      assert ids == ids[..n] + [ids[n]];
      assert (set id | id in ids) == (set id | id in ids[..n]) + {ids[n]};
    }
  }

  lemma {:induction false} SameSize(a: set<string>, b: set<string>)
    requires a <= b && |a| == |b|
    ensures a == b
    decreases a
  {
    if x :| x in a {
      SameSize(a - {x}, b - {x});
    }
  }

  lemma {:induction false} Subset(a: set<string>, b: set<string>)
    requires a <= b
    ensures |a| <= |b|
    decreases a
  {
    if x :| x in a {
      Subset(a - {x}, b - {x});
    }
  }

  method ListKeys<K(==, !new), V>(m: map<K, V>) returns (ks: seq<K>)
    ensures Lists(ks, m.Keys)
  {
    ks := [];
    var todo := m.Keys;
    while todo != {}
      invariant todo <= m.Keys
      invariant Lists(ks, m.Keys - todo)
      decreases todo
    {
      var k :| k in todo;
      todo := todo - {k};
      ks := ks + [k];
    }
  }
}

// The Storage object: each method is one statement, then a commit.
module Store {
  import opened Text
  import opened Tables

  class Storage {
    var nodes: NodeTable
    var cells: CellTable
    var presence: PresenceTable
    var buffer: Buffer

    constructor ()
      ensures nodes == map[] && cells == map[] && presence == map[] && buffer == map[]
    {
      nodes, cells, presence, buffer := map[], map[], map[], map[];
    }

    method UpsertNode(id: string, e: NodeRow, clock: int)
      modifies this`nodes
      ensures nodes == Tables.UpsertNode(old(nodes), id, e, clock)
    {
      var now := if e.addedAt != 0 then e.addedAt else clock;
      if id in nodes {
        var r := nodes[id];
        nodes := nodes[id := NodeRow(e.address, r.nodeType, r.access, e.cert, r.parentNode,
                                     e.lastSeen, e.missedPings, e.status, r.addedAt)];
      } else {
        nodes := nodes[id := e.(addedAt := now)];
      }
    }

    method UpdateNodePing(id: string, success: bool, now: int)
      modifies this`nodes
      ensures nodes == Tables.UpdateNodePing(old(nodes), id, success, now)
    {
      if id in nodes {
        var r := nodes[id];
        if success {
          nodes := nodes[id := r.(lastSeen := now, missedPings := 0, status := ONLINE)];
        } else {
          var status := if r.missedPings + 1 >= MISSED_PINGS_OFFLINE then OFFLINE else r.status;
          nodes := nodes[id := r.(missedPings := r.missedPings + 1, status := status)];
        }
      }
    }

    method RemoveNode(id: string)
      modifies this`nodes
      ensures nodes == Tables.RemoveNode(old(nodes), id)
    {
      nodes := nodes - {id};
    }

    method CleanupExpiredNodes(now: int)
      modifies this`nodes
      ensures nodes == CleanupNodes(old(nodes), now)
    {
      var cutoff := now - TTL_NODE_OFFLINE_SECS;
      nodes := map id | id in nodes && !(nodes[id].status == OFFLINE && nodes[id].lastSeen < cutoff)
               :: nodes[id];
    }

    method RegisterCell(id: string, signingPub: Bytes, encPub: Bytes, isHome: bool, now: int)
      modifies this`cells
      ensures cells == Tables.RegisterCell(old(cells), id, signingPub, encPub, isHome, now)
    {
      if id in cells {
        cells := cells[id := cells[id].(signingPub := signingPub, encPub := encPub)];
      } else {
        cells := cells[id := CellRow(signingPub, encPub, now, isHome)];
      }
    }

    method UpdatePresence(id: string, home: string, visiting: Option<string>, now: int)
      modifies this`presence
      ensures presence == Tables.UpdatePresence(old(presence), id, home, visiting, now)
    {
      presence := presence[id := PresenceRow(home, visiting, now)];
    }

    method BufferMessage(id: string, toCell: string, toNode: string, payload: Bytes, now: int)
      modifies this`buffer
      ensures buffer == Tables.BufferMessage(old(buffer), id, toCell, toNode, payload, now)
    {
      if id !in buffer {
        buffer := buffer[id := BufferRow(toCell, toNode, payload, now, now + TTL_MESSAGE_SECS)];
      }
    }

    method GetBuffered(cell: string, now: int) returns (ids: seq<string>)
      ensures Lists(ids, Buffered(buffer, cell, now).Keys)
    {
      ids := ListKeys(Buffered(buffer, cell, now));
    }

    method DeleteBuffered(id: string)
      modifies this`buffer
      ensures buffer == Tables.DeleteBuffered(old(buffer), id)
    {
      buffer := buffer - {id};
    }

    method CleanupExpiredMessages(now: int)
      modifies this`buffer
      ensures buffer == CleanupMessages(old(buffer), now)
    {
      buffer := map id | id in buffer && !(buffer[id].expiresAt <= now) :: buffer[id];
    }
  }
}
