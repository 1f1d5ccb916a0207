// What the packets do that are neither messages nor registrations, and what a join does.
module Replies {
  import opened Text
  import opened Primitives
  import opened Protocol
  import opened Tables
  import opened Auth
  import opened Merge
  import opened Machine

  /** What this node answers: signed here, under a fresh id, to whom it concerns. */
  ghost predicate Answer(c: Config, s: State, q: Packet, kind: string, to: string, fields: map<string, Value>, now: int) {
    && q.v == 1 && q.body.kind == kind && q.body.fromAddr == Me(c) && q.body.toAddr == to
    && q.body.id == c.luck(s.tick).uuid && q.body.ts == now
    && c.lib.unpack(q.body.payload) == Some(Dict(fields))
    && q.sig == c.lib.sign(SignData(q.body), c.who.signKey)
  }

  /** t is s after one attempt to answer over the connection. */
  ghost predicate Answered(c: Config, s: State, t: State, conn: Conn, kind: string, to: string,
                           fields: map<string, Value>, now: int)
  {
    && t == s.(tick := s.tick + 1, log := t.log)
    && if c.luck(s.tick).delivered
       then |t.log| == |s.log| + 1 && t.log[..|s.log|] == s.log
            && t.log[|s.log|].Sent? && t.log[|s.log|].conn == conn
            && Answer(c, s, t.log[|s.log|].pkt, kind, to, fields, now)
       else t.log == s.log
  }

  lemma AnswerSent(c: Config, s: State, conn: Conn, reply: Packet, fields: map<string, Value>)
    requires reply.v == 1 && reply.body.fromAddr == Me(c) && reply.body.id == c.luck(s.tick).uuid
    requires c.lib.unpack(reply.body.payload) == Some(Dict(fields))
    ensures Answered(c, s, SendVia(c, s, conn, reply).s, conn, reply.body.kind, reply.body.toAddr, fields, reply.body.ts)
  {
  }

  // A ping is answered with a pong that names it, over the connection it came by.
  lemma PingIsAnswered(c: Config, s: State, ping: Packet, conn: Conn, now: int)
    requires c.lib.CodecLaw() && ping.body.kind == "ping"
    ensures Answered(c, s, DispatchControl(c, s, ping, conn, now), conn, "pong", ping.body.fromAddr,
                     map["ping_id" := Str(ping.body.id)], now)
  {
    var d := map["ping_id" := Str(ping.body.id)];
    assert c.lib.unpack(c.lib.pack(Dict(d))) == Some(Dict(d));
    AnswerSent(c, s, conn, MakePong(c, Uuid(c, s), ping, now), d);
  }

  /** Where the cell is, as the presence table has it; nowhere known, if it has no row. */
  function Whereabouts(t: PresenceTable, cell: string): map<string, Value> {
    map["cell_id" := Str(cell),
        "home_node_id" := if cell in t then Str(t[cell].home) else Nil,
        "visiting_node_id" := if cell in t && t[cell].visiting.Some? then Str(t[cell].visiting.value) else Nil]
  }

  lemma WhereaboutsSaid(c: Config, uuid: string, t: PresenceTable, query: Packet, cell: string, now: int)
    requires c.lib.CodecLaw()
    ensures c.lib.unpack(MakePresenceResponse(c, uuid, t, query, cell, now).body.payload) == Some(Dict(Whereabouts(t, cell)))
  {
    var d := Whereabouts(t, cell);
    assert c.lib.unpack(c.lib.pack(Dict(d))) == Some(Dict(d));
  }

  lemma PresenceAnswer(c: Config, s: State, pkt: Packet, conn: Conn, now: int)
    requires pkt.body.kind == PRESENCE_QUERY
    ensures DispatchControl(c, s, pkt, conn, now)
         == match StrField(c.lib.unpack(pkt.body.payload), "cell_id")
            case Some(cell) => SendVia(c, s, conn, MakePresenceResponse(c, Uuid(c, s), s.presence, pkt, cell, now)).s
            case None => s
  {
  }

  // A presence query is answered from the presence table; one without a cell id is ignored.
  lemma QueryIsAnswered(c: Config, s: State, query: Packet, conn: Conn, now: int, cell: Option<string>)
    requires c.lib.CodecLaw() && query.body.kind == "presence_query"
    requires cell == StrField(c.lib.unpack(query.body.payload), "cell_id")
    ensures var t := DispatchControl(c, s, query, conn, now);
            if cell.Some? then Answered(c, s, t, conn, "presence_response", query.body.fromAddr,
                                        Whereabouts(s.presence, cell.value), now)
            else t == s
  {
    PresenceAnswer(c, s, query, conn, now);
    if cell.Some? {
      WhereaboutsSaid(c, Uuid(c, s), s.presence, query, cell.value, now);
      AnswerSent(c, s, conn, MakePresenceResponse(c, Uuid(c, s), s.presence, query, cell.value, now),
                 Whereabouts(s.presence, cell.value));
    }
  }

  // A node that leaves is forgotten, in the table and in the registry; one that is removed on
  // someone's word, in the table.
  lemma LeavingForgets(c: Config, s: State, pkt: Packet, conn: Conn, now: int)
    requires pkt.body.kind == "node_leaving"
    ensures DispatchControl(c, s, pkt, conn, now)
         == s.(nodes := s.nodes - {pkt.body.fromAddr}, conns := s.conns - {pkt.body.fromAddr})
  {
  }

  lemma RemovalForgets(c: Config, s: State, pkt: Packet, conn: Conn, now: int, id: Option<string>)
    requires pkt.body.kind == "node_remove" && id == StrField(c.lib.unpack(pkt.body.payload), "node_id")
    ensures DispatchControl(c, s, pkt, conn, now) == if id.Some? then s.(nodes := s.nodes - {id.value}) else s
  {
  }

  // A pong is news of its sender, if that is known; nothing is sent.
  lemma PongIsNews(c: Config, s: State, pkt: Packet, conn: Conn, now: int)
    requires pkt.body.kind == "pong"
    ensures var t, x := DispatchControl(c, s, pkt, conn, now), pkt.body.fromAddr;
            && t == s.(nodes := t.nodes) && t.nodes.Keys == s.nodes.Keys
            && (forall id :: id in s.nodes && id != x ==> t.nodes[id] == s.nodes[id])
            && (x in s.nodes ==>
                  t.nodes[x] == s.nodes[x].(lastSeen := now, missedPings := 0, status := "online"))
  {
  }

  // Gossip is merged, and nothing is sent; what is of no other known type does nothing.
  lemma GossipIsMerged(c: Config, s: State, pkt: Packet, conn: Conn, now: int)
    requires pkt.body.kind == "gossip"
    ensures DispatchControl(c, s, pkt, conn, now)
         == s.(nodes := MergeOf(s.nodes, DecodeGossip(c.lib, pkt.body.payload), now))
  {
  }

  lemma OthersAreIgnored(c: Config, s: State, pkt: Packet, conn: Conn, now: int)
    requires pkt.body.kind !in {"ping", "pong", "gossip", "node_remove", "node_leaving", "presence_query"}
    ensures DispatchControl(c, s, pkt, conn, now) == s
  {
  }

  // --- join, genesis, and the connections of others ---

  /** The row of a node that has just been met: online, alive as of now. */
  ghost predicate Met(r: NodeRow, before: Option<NodeRow>, address: string, access: string, now: int) {
    && r.address == address && r.lastSeen == now && r.missedPings == 0 && r.status == "online" && r.cert == []
    && match before
       case None => r.nodeType == Words("permanent") && r.access == Words(access) && r.parentNode == ""
                    && (now != 0 ==> r.addedAt == now)
       case Some(o) => r.nodeType == o.nodeType && r.access == o.access && r.parentNode == o.parentNode
                       && r.addedAt == o.addedAt
  }

  function RowOf(t: NodeTable, id: string): Option<NodeRow> {
    if id in t then Some(t[id]) else None
  }

  ghost predicate MeetsPeer(t: NodeTable, u: NodeTable, id: string, address: string, access: string, now: int) {
    && u.Keys == t.Keys + {id} && Met(u[id], RowOf(t, id), address, access, now)
    && forall x :: x in t && x != id ==> u[x] == t[x]
  }

  // A join registers the peer that answered, and enters it under the address that was dialled;
  // an address without a port, or an answer that does not authenticate, does nothing.
  lemma JoinMeetsPeer(c: Config, s: State, address: string, reply: Reply, now: int)
    ensures var t := Join(c, s, address, reply, now);
            match (if ':' in address then VerifyResponse(c.lib, reply.response, reply.nonce, None) else None)
            case Some(r) =>
              && t.conns == s.conns[r.nodeId := Conn(r.nodeId, r.signingPub, r.encPub)]
              && MeetsPeer(s.nodes, t.nodes, r.nodeId, address, "open", now)
              && t.log == s.log && t.cells == s.cells && t.presence == s.presence && t.buffer == s.buffer
            case None => t == s
  {
  }

  lemma GenesisMeetsItself(c: Config, s: State, address: string, access: string, now: int)
    ensures MeetsPeer(s.nodes, Genesis(c, s, address, access, now).nodes, Me(c), address, access, now)
    ensures Genesis(c, s, address, access, now) == s.(nodes := Genesis(c, s, address, access, now).nodes)
  {
  }

  // A peer that connects is registered exactly if it authenticates, whoever it is.
  lemma AcceptedExactly(c: Config, s: State, reply: Reply)
    ensures var t := Step(c, s, Accepted(reply));
            match VerifyResponse(c.lib, reply.response, reply.nonce, None)
            case Some(r) => t.conns == s.conns[r.nodeId := Conn(r.nodeId, r.signingPub, r.encPub)]
                            && t == s.(conns := t.conns, accepted := t.accepted)
            case None => t == s
  {
  }

  lemma ClosedForgets(c: Config, s: State, peer: string)
    ensures Step(c, s, Closed(peer)) == s.(conns := s.conns - {peer})
  {
  }

  // --- what stays in the buffer ---

  // A row that holds no packet is neither routed nor deleted by a flush.
  lemma UnreadableStays(c: Config, s: State, id: string, row: BufferRow, now: int)
    requires Unpack(c.lib, row.payload) == None
    ensures FlushOne(c, s, id, row, now) == s
  {
  }

  // Any other row is routed and gone, whatever became of the packet.
  lemma ReadableGoes(c: Config, s: State, id: string, row: BufferRow, now: int, pkt: Packet)
    requires Unpack(c.lib, row.payload) == Some(pkt)
    ensures var t := Route(c, s, pkt, now).s;
            FlushOne(c, s, id, row, now) == t.(buffer := map x | x in t.buffer && x != id :: t.buffer[x])
  {
  }
}
