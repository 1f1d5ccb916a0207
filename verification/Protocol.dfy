// Packets, their wire form, their canonical signed bytes, and addresses.
module Protocol {
  import opened Text
  import opened Primitives

  const PROTO_VERSION := 1

  const MSG := "msg"
  const ACK := "ack"
  const PING := "ping"
  const PONG := "pong"
  const GOSSIP := "gossip"
  const NODE_REGISTER := "node_register"
  const NODE_VOTE := "node_vote"
  const NODE_CERT := "node_cert"
  const NODE_REMOVE := "node_remove"
  const NODE_LEAVING := "node_leaving"
  const PRESENCE_QUERY := "presence_query"
  const PRESENCE_RESPONSE := "presence_response"
  const CELL_REGISTER := "cell_register"
  const CELL_INVITE := "cell_invite"
  const AUTH_CHALLENGE := "auth_challenge"
  const AUTH_RESPONSE := "auth_response"

  /** The fields a signature covers. */
  datatype Body = Body(
    id: string, kind: string, fromAddr: string, toAddr: string, payload: Bytes, ts: int)

  datatype Packet = Packet(v: int, body: Body, sig: Bytes)

  /** The canonical bytes: the fields one after the other, nothing between them. */
  function SignData(b: Body): Bytes {
    Utf8(b.id) + Utf8(b.kind) + Utf8(b.fromAddr) + Utf8(b.toAddr) + b.payload + Utf8(Decimal(b.ts))
  }

  function Signed(lib: Library, p: Packet, key: Bytes): Packet {
    p.(sig := lib.sign(SignData(p.body), key))
  }

  predicate VerifyPacket(lib: Library, p: Packet, pub: Bytes) {
    p.sig != [] && lib.verify(SignData(p.body), p.sig, pub)
  }

  /** A packet object: signing happens in place, so whoever holds it sees the new signature. */
  class PacketObject {
    var value: Packet

    constructor (value: Packet)
      ensures this.value == value
    {
      this.value := value;
    }

    method SignPacket(lib: Library, key: Bytes)
      modifies this
      ensures value == Signed(lib, old(value), key)
    {
      var sig := lib.sign(SignData(value.body), key);
      value := value.(sig := sig);
    }
  }

  // --- wire form ---

  function PacketFields(p: Packet): map<string, Value> {
    map["v" := Int(p.v)] + StoredFields(p)
  }

  function StoredFields(p: Packet): map<string, Value> {
    map["id" := Str(p.body.id), "type" := Str(p.body.kind),
        "from" := Str(p.body.fromAddr), "to" := Str(p.body.toAddr),
        "payload" := Bin(p.body.payload), "sig" := Bin(p.sig), "ts" := Int(p.body.ts)]
  }

  function Pack(lib: Library, p: Packet): Bytes {
    lib.pack(Dict(PacketFields(p)))
  }

  /** The form kept in the message buffer: the protocol version is left out. */
  function SerializePacket(lib: Library, p: Packet): Bytes {
    lib.pack(Dict(StoredFields(p)))
  }

  predicate Falsy(v: Value) {
    v == Nil || v == Bool(false) || v == Int(0) || v == Str("") || v == Bin([]) || v == List([])
    || v == Dict(map[])
  }

  // d.get(key, default) for a field of each type; None is a value of another type.

  function GetInt(d: map<string, Value>, key: string, default: int): Option<int> {
    if key !in d then Some(default) else if d[key].Int? then Some(d[key].n) else None
  }

  function GetStr(d: map<string, Value>, key: string, default: string): Option<string> {
    if key !in d then Some(default) else if d[key].Str? then Some(d[key].s) else None
  }

  /** d.get(key, b"") or b"" */
  function GetBytes(d: map<string, Value>, key: string): Option<Bytes> {
    if key !in d || Falsy(d[key]) then Some([])
    else if d[key].Bin? then Some(d[key].data) else None
  }

  function PacketFrom(d: map<string, Value>): Option<Packet> {
    match (GetInt(d, "v", PROTO_VERSION), GetStr(d, "id", ""), GetStr(d, "type", ""),
           GetStr(d, "from", ""), GetStr(d, "to", ""), GetBytes(d, "payload"),
           GetBytes(d, "sig"), GetInt(d, "ts", 0))
    case (Some(v), Some(id), Some(kind), Some(from), Some(to), Some(payload), Some(sig), Some(ts)) =>
      Some(Packet(v, Body(id, kind, from, to, payload, ts), sig))
    case _ => None
  }

  /** None: the bytes are not a packet. */
  function Unpack(lib: Library, data: Bytes): Option<Packet> {
    match lib.unpack(data)
    case Some(Dict(d)) => PacketFrom(d)
    case _ => None
  }

  // A packet survives the wire whole.
  lemma WireRoundTrip(lib: Library, p: Packet)
    requires lib.CodecLaw()
    ensures Unpack(lib, Pack(lib, p)) == Some(p)
  {
    var d := PacketFields(p);
    assert lib.unpack(lib.pack(Dict(d))) == Some(Dict(d));
    assert d["payload"] == Bin(p.body.payload) && d["sig"] == Bin(p.sig);
  }

  // A packet survives the message buffer except for its version, which becomes the
  // node's own; so what its signature covers is unchanged.
  lemma BufferRoundTrip(lib: Library, p: Packet)
    requires lib.CodecLaw()
    ensures Unpack(lib, SerializePacket(lib, p)) == Some(p.(v := PROTO_VERSION))
    ensures forall pub :: VerifyPacket(lib, p.(v := PROTO_VERSION), pub) == VerifyPacket(lib, p, pub)
  {
    var d := StoredFields(p);
    assert lib.unpack(lib.pack(Dict(d))) == Some(Dict(d));
  }

  // Whatever one hop signs and sends, the next hop accepts under the signer's key, with
  // every field but the signature as it was.
  lemma HopAccepted(lib: Library, p: Packet, key: Bytes)
    requires lib.CodecLaw() && lib.SigningLaw()
    ensures Unpack(lib, Pack(lib, Signed(lib, p, key))) == Some(Signed(lib, p, key))
    ensures VerifyPacket(lib, Signed(lib, p, key), lib.signPub(key))
    ensures Signed(lib, p, key).v == p.v && Signed(lib, p, key).body == p.body
  {
    WireRoundTrip(lib, Signed(lib, p, key));
    assert lib.verify(SignData(p.body), lib.sign(SignData(p.body), key), lib.signPub(key));
  }

  // --- addresses ---

  function IndexOf(s: string, c: char): (i: nat)
    ensures i <= |s| && c !in s[..i]
    ensures i < |s| ==> s[i] == c
  {
    if s == [] || s[0] == c then 0 else
      var i := 1 + IndexOf(s[1..], c);
      assert s[..i] == [s[0]] + s[1..][..i - 1];
      i
  }

  /** "cell@node" is (cell, node); without '@' the whole text names a node. */
  function ParseAddr(addr: string): (Option<string>, string) {
    var i := IndexOf(addr, '@');
    if i < |addr| then (Some(addr[..i]), addr[i + 1..]) else (None, addr)
  }

  lemma {:induction false} IndexOfFirst(s: string, c: char, k: nat)
    requires k < |s| && s[k] == c && c !in s[..k]
    ensures IndexOf(s, c) == k
  {
    if k > 0 {
      assert s[..k][0] == s[0];
      assert s[1..][..k - 1] == s[..k][1..];
      IndexOfFirst(s[1..], c, k - 1);
    }
  }

  lemma ParseAddrMeaning(addr: string, cell: string, node: string)
    ensures ParseAddr(addr) == (Some(cell), node) <==> '@' !in cell && addr == cell + "@" + node
    ensures ParseAddr(addr) == (None, node) <==> '@' !in addr && addr == node
  {
    var i := IndexOf(addr, '@');
    if '@' !in cell && addr == cell + "@" + node {
      assert addr[..|cell|] == cell && addr[|cell| + 1..] == node;
      IndexOfFirst(addr, '@', |cell|);
    }
    if i < |addr| {
      assert addr == addr[..i] + "@" + addr[i + 1..];
      assert addr[i] in addr;
    } else {
      assert addr[..i] == addr;
    }
  }

  // For all public keys: the address of a cell at a node parses to exactly that pair, and
  // the pair determines both keys.
  lemma AddressRoundTrip(cellPub: Bytes, nodePub: Bytes)
    ensures ParseAddr(Hex(cellPub) + "@" + Hex(nodePub)) == (Some(Hex(cellPub)), Hex(nodePub))
    ensures forall c, n :: Hex(c) + "@" + Hex(n) == Hex(cellPub) + "@" + Hex(nodePub)
                           ==> c == cellPub && n == nodePub
  {
    HexShape(cellPub);
    ParseAddrMeaning(Hex(cellPub) + "@" + Hex(nodePub), Hex(cellPub), Hex(nodePub));
    forall c, n | Hex(c) + "@" + Hex(n) == Hex(cellPub) + "@" + Hex(nodePub)
      ensures c == cellPub && n == nodePub
    {
      HexShape(c);
      ParseAddrMeaning(Hex(c) + "@" + Hex(n), Hex(c), Hex(n));
      HexInjective(c, cellPub);
      HexInjective(n, nodePub);
    }
  }
}
