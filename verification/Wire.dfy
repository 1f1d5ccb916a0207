// The forms that others have to be able to read: the keys of a packet on the wire and in the
// buffer, of the two handshake payloads, and of a pushed node row; and what a reader assumes
// where a key is missing.
module Wire {
  import opened Text
  import opened Primitives
  import opened Protocol
  import opened Tables
  import opened Auth
  import opened Merge

  const STORED := {"id", "type", "from", "to", "payload", "sig", "ts"}

  /** The seven fields that every stored packet has. */
  ghost predicate HasFields(d: map<string, Value>, p: Packet) {
    && STORED <= d.Keys
    && d["id"] == Str(p.body.id) && d["type"] == Str(p.body.kind)
    && d["from"] == Str(p.body.fromAddr) && d["to"] == Str(p.body.toAddr)
    && d["payload"] == Bin(p.body.payload) && d["sig"] == Bin(p.sig) && d["ts"] == Int(p.body.ts)
  }

  lemma StoredHas(p: Packet)
    ensures StoredFields(p).Keys == STORED && HasFields(StoredFields(p), p)
  {
  }

  // On the wire a packet has these and its version; in the buffer it has only these.
  lemma WireKeys(lib: Library, p: Packet) returns (d: map<string, Value>)
    requires lib.CodecLaw()
    ensures lib.unpack(Pack(lib, p)) == Some(Dict(d))
    ensures d.Keys == {"v"} + STORED && HasFields(d, p) && d["v"] == Int(p.v)
  {
    d := PacketFields(p);
    StoredHas(p);
    OtherFields(StoredFields(p), d, p);
  }

  lemma OtherFields(stored: map<string, Value>, d: map<string, Value>, p: Packet)
    requires stored.Keys == STORED && HasFields(stored, p) && d == map["v" := Int(p.v)] + stored
    ensures d.Keys == {"v"} + STORED && HasFields(d, p) && d["v"] == Int(p.v)
  {
    assert "v" !in STORED;
    assert forall k :: k in STORED ==> d[k] == stored[k];
  }

  lemma BufferKeys(lib: Library, p: Packet) returns (d: map<string, Value>)
    requires lib.CodecLaw()
    ensures lib.unpack(SerializePacket(lib, p)) == Some(Dict(d))
    ensures d.Keys == STORED && HasFields(d, p)
  {
    d := StoredFields(p);
    StoredHas(p);
  }

  // A packet of which nothing is said is still one: of the current version, and empty.
  lemma EmptyPacket(lib: Library, raw: Bytes)
    requires lib.unpack(raw) == Some(Dict(map[]))
    ensures Unpack(lib, raw) == Some(Packet(1, Body("", "", "", "", [], 0), []))
  {
  }

  // No bytes, for payload and signature, can be said with null as well.
  lemma NullIsNoBytes(lib: Library, raw: Bytes, d: map<string, Value>)
    requires lib.unpack(raw) == Some(Dict(d)) && Unpack(lib, raw).Some?
    ensures "payload" in d && d["payload"] == Nil ==> Unpack(lib, raw).value.body.payload == []
    ensures "sig" in d && d["sig"] == Nil ==> Unpack(lib, raw).value.sig == []
  {
  }

  lemma ChallengeKeys(lib: Library, from: string, to: string, nonce: Bytes, id: string, ts: int)
    requires lib.CodecLaw()
    ensures var p := MakeChallenge(lib, from, to, nonce, id, ts);
            && p.v == 1 && p.sig == []
            && p.body == Body(id, "auth_challenge", from, to, p.body.payload, ts)
            && lib.unpack(p.body.payload) == Some(Dict(map["nonce" := Bin(nonce)]))
  {
    var d := map["nonce" := Bin(nonce)];
    assert lib.unpack(lib.pack(Dict(d))) == Some(Dict(d));
  }

  lemma ResponseKeys(lib: Library, from: string, to: string, nonce: Bytes, who: Identity, id: string, ts: int)
    returns (d: map<string, Value>)
    requires lib.CodecLaw()
    ensures var p := MakeResponse(lib, from, to, nonce, who, id, ts);
            && p.v == 1 && p.sig == []
            && p.body == Body(id, "auth_response", from, to, p.body.payload, ts)
            && lib.unpack(p.body.payload) == Some(Dict(d))
    ensures d.Keys == {"nonce", "sig", "signing_pubkey", "enc_pubkey"}
    ensures d["nonce"] == Bin(nonce) && d["sig"] == Bin(lib.sign(nonce, who.signKey))
    ensures d["signing_pubkey"] == Bin(lib.signPub(who.signKey)) && d["enc_pubkey"] == Bin(lib.dhPub(who.encKey))
  {
    d := map["nonce" := Bin(nonce), "sig" := Bin(lib.sign(nonce, who.signKey)),
             "signing_pubkey" := Bin(lib.signPub(who.signKey)), "enc_pubkey" := Bin(lib.dhPub(who.encKey))];
    assert lib.unpack(lib.pack(Dict(d))) == Some(Dict(d));
  }

  /** A row as others read it: with its liveness, but without its counter and its age. */
  ghost predicate RowSaid(v: Value, id: string, r: NodeRow) {
    && v.Dict?
    && v.fields.Keys == {"node_id", "address", "type", "access", "cert", "parent_node", "last_seen", "status"}
    && v.fields["node_id"] == Str(id) && v.fields["address"] == Str(r.address)
    && v.fields["type"] == FromColumn(r.nodeType) && v.fields["access"] == FromColumn(r.access)
    && v.fields["cert"] == Str(Hex(r.cert)) && v.fields["parent_node"] == Str(r.parentNode)
    && v.fields["last_seen"] == Int(r.lastSeen) && v.fields["status"] == Str(r.status)
  }

  lemma {:induction false} RowsSaid(t: NodeTable, ids: seq<string>, k: nat)
    requires (forall id :: id in ids ==> id in t) && k < |ids|
    ensures |NodeDicts(t, ids)| == |ids| && RowSaid(NodeDicts(t, ids)[k], ids[k], t[ids[k]])
  {
    if k > 0 {
      RowsSaid(t, ids[1..], k - 1);
    } else if |ids| > 1 {
      RowsSaid(t, ids[1..], 0);
    }
  }

  // A gossip payload is one list, of the listed rows in order.
  lemma GossipKeys(lib: Library, t: NodeTable, ids: seq<string>) returns (items: seq<Value>)
    requires lib.CodecLaw() && forall id :: id in ids ==> id in t
    ensures lib.unpack(GossipPayload(lib, t, ids)) == Some(Dict(map["nodes" := List(items)]))
    ensures |items| == |ids| && forall k :: 0 <= k < |ids| ==> RowSaid(items[k], ids[k], t[ids[k]])
  {
    items := NodeDicts(t, ids);
    var d := map["nodes" := List(items)];
    assert lib.unpack(lib.pack(Dict(d))) == Some(Dict(d));
    if ids != [] {
      RowsSaid(t, ids, 0);
    }
    forall k | 0 <= k < |ids|
      ensures RowSaid(items[k], ids[k], t[ids[k]])
    {
      RowsSaid(t, ids, k);
    }
  }

  // What a column takes in: text as it is, numbers and truth values as text, bytes as bytes,
  // nothing else; where nothing is said, the default.
  ghost predicate ColumnSaid(d: map<string, Value>, key: string, default: string, col: Column) {
    if key !in d then col == Words(default)
    else
      || (d[key].Str? && col == Words(d[key].s))
      || (d[key].Int? && -0x8000_0000_0000_0000 <= d[key].n <= 0x7FFF_FFFF_FFFF_FFFF && col == Words(Decimal(d[key].n)))
      || (d[key] == Bool(true) && col == Words("1")) || (d[key] == Bool(false) && col == Words("0"))
      || (d[key].Bin? && col == Blob(d[key].data))
  }

  lemma ColumnExactly(d: map<string, Value>, key: string, default: string, col: Column)
    ensures ToColumn(d, key, default) == Some(col) <==> ColumnSaid(d, key, default, col)
  {
  }

  /** Nothing at all, or nothing much, says the empty text. */
  ghost predicate TextSaid(d: map<string, Value>, key: string, text: string) {
    if key !in d || d[key] in {Nil, Bool(false), Int(0), Bin([]), List([]), Dict(map[])} then text == ""
    else d[key] == Str(text)
  }

  // What a gossip entry says, if it says it so that it can be stored.
  lemma EntryExactly(v: Value, h: Heard)
    ensures EntryFrom(v) == Some(Entry(h, true))
       <==> && v.Dict?
            && TextSaid(v.fields, "node_id", h.nodeId) && TextSaid(v.fields, "address", h.address)
            && ColumnSaid(v.fields, "type", "permanent", h.nodeType)
            && ColumnSaid(v.fields, "access", "closed", h.access)
  {
    if v.Dict? {
      TextExactly(v.fields, "node_id", h.nodeId);
      TextExactly(v.fields, "address", h.address);
      ColumnExactly(v.fields, "type", "permanent", h.nodeType);
      ColumnExactly(v.fields, "access", "closed", h.access);
    }
  }

  lemma TextExactly(d: map<string, Value>, key: string, text: string)
    ensures GetText(d, key) == Some(text) <==> TextSaid(d, key, text)
  {
  }

  // The entries read are the items up to the first that is none.
  lemma {:induction false} ListExactly(items: seq<Value>)
    ensures var entries := EntryList(items);
            && |entries| <= |items| && (forall k :: 0 <= k < |entries| ==> EntryFrom(items[k]) == Some(entries[k]))
            && (|entries| < |items| ==> EntryFrom(items[|entries|]) == None)
  {
    if items != [] && EntryFrom(items[0]).Some? {
      ListExactly(items[1..]);
    }
  }
}
