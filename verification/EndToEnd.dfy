// The payload's way from one cell client to another: encrypted once, carried by any number
// of nodes that each sign anew and may keep it in their buffer, decrypted at the end.
module EndToEnd {
  import opened Text
  import opened Primitives
  import opened Protocol
  import opened Auth
  import opened Machine
  import opened Ledger
  import opened Invariants

  const KDF_INFO := "nevod-e2e-v1"

  datatype Sealed = Sealed(ephemeralPub: Bytes, nonce: Bytes, ciphertext: Bytes)

  function Kdf(lib: Library, secret: Bytes, ephemeralPub: Bytes): Bytes {
    lib.hkdf(secret, ephemeralPub, Utf8(KDF_INFO))
  }

  /** The ephemeral private key and the nonce are drawn by the caller. */
  function Encrypt(lib: Library, plaintext: Bytes, recipientPub: Bytes, ephemeral: Bytes, nonce: Bytes): Sealed {
    var key := Kdf(lib, lib.exchange(ephemeral, recipientPub), lib.dhPub(ephemeral));
    Sealed(lib.dhPub(ephemeral), nonce, lib.seal(key, nonce, plaintext))
  }

  /** None: the ciphertext does not authenticate. */
  function Decrypt(lib: Library, ciphertext: Bytes, nonce: Bytes, ephemeralPub: Bytes, encKey: Bytes): Option<Bytes> {
    lib.unseal(Kdf(lib, lib.exchange(encKey, ephemeralPub), ephemeralPub), nonce, ciphertext)
  }

  // Whoever holds the private half of the key a text was encrypted for reads it.
  lemma DecryptInvertsEncrypt(lib: Library, plaintext: Bytes, encKey: Bytes, ephemeral: Bytes, nonce: Bytes)
    requires lib.ExchangeLaw() && lib.AeadLaw()
    ensures var e := Encrypt(lib, plaintext, lib.dhPub(encKey), ephemeral, nonce);
            && Decrypt(lib, e.ciphertext, e.nonce, e.ephemeralPub, encKey) == Some(plaintext)
            && e.nonce == nonce && e.ephemeralPub == lib.dhPub(ephemeral)
  {
    assert lib.exchange(ephemeral, lib.dhPub(encKey)) == lib.exchange(encKey, lib.dhPub(ephemeral));
    var key := Kdf(lib, lib.exchange(ephemeral, lib.dhPub(encKey)), lib.dhPub(ephemeral));
    assert lib.unseal(key, nonce, lib.seal(key, nonce, plaintext)) == Some(plaintext);
  }

  function SealedPayload(lib: Library, e: Sealed): Bytes {
    lib.pack(Dict(map["ephemeral_pubkey" := Bin(e.ephemeralPub), "nonce" := Bin(e.nonce),
                      "ciphertext" := Bin(e.ciphertext)]))
  }

  /** The message a client connected to `node` sends, before it is signed. */
  function Compose(lib: Library, cell: string, node: string, toCell: string, toNode: string, e: Sealed,
                   uuid: string, ts: int): Packet
  {
    Packet(PROTO_VERSION,
           Body(uuid, MSG, cell + "@" + node, toCell + "@" + toNode, SealedPayload(lib, e), ts), [])
  }

  datatype Delivery = Delivery(fromAddr: string, plaintext: Bytes)

  /** What CellClient._handle_msg passes to on_message, if anything. */
  function HandleMsg(lib: Library, encKey: Bytes, pkt: Packet): Option<Delivery> {
    var data := lib.unpack(pkt.body.payload);
    match (BinField(data, "ciphertext"), BinField(data, "nonce"), BinField(data, "ephemeral_pubkey"))
    case (Some(ciphertext), Some(nonce), Some(ephemeralPub)) =>
      (match Decrypt(lib, ciphertext, nonce, ephemeralPub, encKey)
       case Some(plaintext) => Some(Delivery(pkt.body.fromAddr, plaintext))
       case None => None)
    case _ => None
  }

  /** The packet in raw, if it is one and verifies under the key. */
  function ReadFrom(lib: Library, raw: Bytes, pub: Bytes): Option<Packet> {
    match Unpack(lib, raw)
    case Some(p) => if VerifyPacket(lib, p, pub) then Some(p) else None
    case None => None
  }

  /** One message from the node, as the client's receive loop treats it. */
  function ClientReads(lib: Library, encKey: Bytes, nodePub: Bytes, raw: Bytes): Option<Delivery> {
    match ReadFrom(lib, raw, nodePub)
    case Some(p) => if p.body.kind == MSG then HandleMsg(lib, encKey, p) else None
    case None => None
  }

  /** The registration a client sends once connected, before it is signed. */
  function Registration(lib: Library, who: Identity, node: string, uuid: string, ts: int): Packet {
    var claim := Dict(map["cell_id" := Str(IdOf(lib, who)), "signing_pubkey" := Bin(lib.signPub(who.signKey)),
                          "enc_pubkey" := Bin(lib.dhPub(who.encKey)), "is_home" := Bool(true)]);
    Packet(PROTO_VERSION, Body(uuid, CELL_REGISTER, IdOf(lib, who), node, lib.pack(claim), ts), [])
  }

  // A node that has proven this client's key in the handshake accepts its registration.
  lemma RegistrationIsProven(c: Config, who: Identity, node: string, uuid: string, ts: int, conn: Conn)
    requires c.lib.CodecLaw()
    requires conn.signingPub == c.lib.signPub(who.signKey) && conn.peerNodeId == IdOf(c.lib, who)
    ensures ProvenClaim(c, Registration(c.lib, who, node, uuid, ts).body.payload, conn)
         == Some(Claim(IdOf(c.lib, who), c.lib.signPub(who.signKey), c.lib.dhPub(who.encKey), true))
    ensures var b := Registration(c.lib, who, node, uuid, ts).body;
            b.id == uuid && b.kind == "cell_register" && b.fromAddr == IdOf(c.lib, who) && b.toAddr == node && b.ts == ts
  {
    var d := map["cell_id" := Str(IdOf(c.lib, who)), "signing_pubkey" := Bin(c.lib.signPub(who.signKey)),
                 "enc_pubkey" := Bin(c.lib.dhPub(who.encKey)), "is_home" := Bool(true)];
    assert c.lib.unpack(c.lib.pack(Dict(d))) == Some(Dict(d));
    assert d["cell_id"] == Str(IdOf(c.lib, who)) && d["signing_pubkey"] == Bin(c.lib.signPub(who.signKey));
    assert d["is_home"] == Bool(true);
  }

  class CellClient {
    const lib: Library
    const who: Identity
    const hasHandler: bool
    // the node at the other end, once connected
    var connected: bool
    var nodeId: string
    var nodePub: Bytes
    // the bytes sent on the socket, and the calls of on_message
    var outbox: seq<Bytes>
    var delivered: seq<Delivery>

    constructor (lib: Library, who: Identity, hasHandler: bool)
      ensures this.lib == lib && this.who == who && this.hasHandler == hasHandler
      ensures !connected && nodeId == "" && nodePub == [] && outbox == [] && delivered == []
    {
      this.lib, this.who, this.hasHandler := lib, who, hasHandler;
      connected, nodeId, nodePub, outbox, delivered := false, "", [], [], [];
    }

    /** After the handshake: the node is known by the key it proved. */
    method Connected(node: AuthResult)
      modifies this`connected, this`nodeId, this`nodePub
      ensures connected && nodePub == node.signingPub && nodeId == Hex(node.signingPub)
    {
      nodeId, nodePub, connected := Hex(node.signingPub), node.signingPub, true;
    }

    /** The first packet on the connection registers the cell. */
    method Register(uuid: string, ts: int)
      modifies this`outbox
      ensures outbox == old(outbox) + [Pack(lib, Signed(lib, Registration(lib, who, nodeId, uuid, ts), who.signKey))]
    {
      SignAndSend(Registration(lib, who, nodeId, uuid, ts));
    }

    method SignAndSend(p: Packet)
      modifies this`outbox
      ensures outbox == old(outbox) + [Pack(lib, Signed(lib, p, who.signKey))]
    {
      var pkt := new PacketObject(p);
      pkt.SignPacket(lib, who.signKey);
      outbox := outbox + [Pack(lib, pkt.value)];
    }

    /** False where the program raises: there is no connection. */
    method Send(toCell: string, toNode: string, recipientPub: Bytes, plaintext: Bytes,
                ephemeral: Bytes, nonce: Bytes, uuid: string, ts: int) returns (ok: bool)
      modifies this`outbox
      ensures ok == connected
      ensures outbox == old(outbox) +
                (if ok then
                   var e := Encrypt(lib, plaintext, recipientPub, ephemeral, nonce);
                   [Pack(lib, Signed(lib, Compose(lib, IdOf(lib, who), nodeId, toCell, toNode, e, uuid, ts), who.signKey))]
                 else [])
    {
      ok := connected;
      if !ok {
        return;
      }
      var e := Encrypt(lib, plaintext, recipientPub, ephemeral, nonce);
      SignAndSend(Compose(lib, IdOf(lib, who), nodeId, toCell, toNode, e, uuid, ts));
    }

    /** on_message, if there is one. */
    method Deliver(message: Option<Delivery>)
      modifies this`delivered
      ensures delivered == if message.Some? && hasHandler then old(delivered) + [message.value] else old(delivered)
    {
      if message.Some? && hasHandler {
        delivered := delivered + [message.value];
      }
    }

    /** One turn of the receive loop; bytes that are no packet end it. */
    method Receive(raw: Bytes)
      modifies this`connected, this`delivered
      ensures connected == (old(connected) && Unpack(lib, raw).Some?)
      ensures var read := ClientReads(lib, who.encKey, nodePub, raw);
              delivered == if read.Some? && hasHandler then old(delivered) + [read.value] else old(delivered)
    {
      if Unpack(lib, raw) == None {
        connected := false;
      }
      Deliver(ClientReads(lib, who.encKey, nodePub, raw));
    }

    method Disconnect()
      modifies this`connected
      ensures !connected
    {
      connected := false;
    }
  }

  // --- the way ---

  /** A node on the way, by its signing key: it passes the packet on at once, or keeps it in
      its buffer first. */
  datatype Relay = Relay(key: Bytes, viaBuffer: bool)

  /** The packet as it is when the node comes to send it on. */
  function Kept(lib: Library, pkt: Packet, viaBuffer: bool): Option<Packet> {
    if viaBuffer then Unpack(lib, SerializePacket(lib, pkt)) else Some(pkt)
  }

  /** The bytes the node puts on the next connection. */
  function PassedOn(lib: Library, pkt: Packet, r: Relay): Option<Bytes> {
    match Kept(lib, pkt, r.viaBuffer)
    case Some(p) => Some(Pack(lib, Signed(lib, p, r.key)))
    case None => None
  }

  /** The bytes that leave the last node, from those the sender, with senderKey, put in. */
  function Way(lib: Library, raw: Bytes, senderKey: Bytes, relays: seq<Relay>): Option<Bytes>
    decreases |relays|
  {
    if relays == [] then Some(raw)
    else
      match ReadFrom(lib, raw, lib.signPub(senderKey))
      case None => None
      case Some(p) =>
        match PassedOn(lib, p, relays[0])
        case None => None
        case Some(next) => Way(lib, next, relays[0].key, relays[1..])
  }

  function LastKey(senderKey: Bytes, relays: seq<Relay>): Bytes {
    if relays == [] then senderKey else relays[|relays| - 1].key
  }

  lemma OneRelay(lib: Library, p: Packet, senderKey: Bytes, r: Relay) returns (kept: Packet)
    requires lib.CodecLaw() && lib.SigningLaw()
    ensures ReadFrom(lib, Pack(lib, Signed(lib, p, senderKey)), lib.signPub(senderKey)) == Some(Signed(lib, p, senderKey))
    ensures PassedOn(lib, Signed(lib, p, senderKey), r) == Some(Pack(lib, Signed(lib, kept, r.key)))
    ensures kept.body == p.body
  {
    HopAccepted(lib, p, senderKey);
    var signed := Signed(lib, p, senderKey);
    BufferRoundTrip(lib, signed);
    kept := if r.viaBuffer then signed.(v := PROTO_VERSION) else signed;
  }

  lemma WayOn(lib: Library, raw: Bytes, senderKey: Bytes, relays: seq<Relay>, p: Packet, next: Bytes)
    requires relays != [] && ReadFrom(lib, raw, lib.signPub(senderKey)) == Some(p)
    requires PassedOn(lib, p, relays[0]) == Some(next)
    ensures Way(lib, raw, senderKey, relays) == Way(lib, next, relays[0].key, relays[1..])
  {
  }

  // No hop refuses the packet, and none changes its body.
  lemma {:induction false} WayKeepsBody(lib: Library, p: Packet, senderKey: Bytes, relays: seq<Relay>)
    returns (q: Packet)
    requires lib.CodecLaw() && lib.SigningLaw()
    ensures Way(lib, Pack(lib, Signed(lib, p, senderKey)), senderKey, relays)
         == Some(Pack(lib, Signed(lib, q, LastKey(senderKey, relays))))
    ensures q.body == p.body
    decreases |relays|
  {
    if relays == [] {
      q := p;
    } else {
      var kept := FirstRelay(lib, p, senderKey, relays);
      q := WayKeepsBody(lib, kept, relays[0].key, relays[1..]);
      SameLastKey(senderKey, relays);
    }
  }

  lemma SameLastKey(senderKey: Bytes, relays: seq<Relay>)
    requires relays != []
    ensures LastKey(senderKey, relays) == LastKey(relays[0].key, relays[1..])
  {
  }

  lemma FirstRelay(lib: Library, p: Packet, senderKey: Bytes, relays: seq<Relay>) returns (kept: Packet)
    requires lib.CodecLaw() && lib.SigningLaw() && relays != []
    ensures Way(lib, Pack(lib, Signed(lib, p, senderKey)), senderKey, relays)
         == Way(lib, Pack(lib, Signed(lib, kept, relays[0].key)), relays[0].key, relays[1..])
    ensures kept.body == p.body
  {
    kept := OneRelay(lib, p, senderKey, relays[0]);
    WayOn(lib, Pack(lib, Signed(lib, p, senderKey)), senderKey, relays, Signed(lib, p, senderKey),
          Pack(lib, Signed(lib, kept, relays[0].key)));
  }

  lemma PayloadRead(lib: Library, e: Sealed)
    requires lib.CodecLaw()
    ensures var data := lib.unpack(SealedPayload(lib, e));
            && BinField(data, "ciphertext") == Some(e.ciphertext)
            && BinField(data, "nonce") == Some(e.nonce)
            && BinField(data, "ephemeral_pubkey") == Some(e.ephemeralPub)
  {
    var d := map["ephemeral_pubkey" := Bin(e.ephemeralPub), "nonce" := Bin(e.nonce), "ciphertext" := Bin(e.ciphertext)];
    assert lib.unpack(lib.pack(Dict(d))) == Some(Dict(d));
  }

  lemma SealedRead(lib: Library, pkt: Packet, e: Sealed, encKey: Bytes, plaintext: Bytes)
    requires lib.CodecLaw() && pkt.body.payload == SealedPayload(lib, e)
    requires Decrypt(lib, e.ciphertext, e.nonce, e.ephemeralPub, encKey) == Some(plaintext)
    ensures HandleMsg(lib, encKey, pkt) == Some(Delivery(pkt.body.fromAddr, plaintext))
  {
    PayloadRead(lib, e);
  }

  // The last node's bytes give the recipient the text and the sender's address.
  lemma LastHopDelivers(lib: Library, pkt: Packet, key: Bytes, encKey: Bytes, plaintext: Bytes,
                        ephemeral: Bytes, nonce: Bytes)
    requires lib.CodecLaw() && lib.SigningLaw() && lib.ExchangeLaw() && lib.AeadLaw()
    requires pkt.body.kind == MSG
    requires pkt.body.payload == SealedPayload(lib, Encrypt(lib, plaintext, lib.dhPub(encKey), ephemeral, nonce))
    ensures ClientReads(lib, encKey, lib.signPub(key), Pack(lib, Signed(lib, pkt, key)))
         == Some(Delivery(pkt.body.fromAddr, plaintext))
  {
    SignedIsRead(lib, pkt, key);
    TextRead(lib, Signed(lib, pkt, key), encKey, plaintext, ephemeral, nonce);
    MessageHandled(lib, Pack(lib, Signed(lib, pkt, key)), lib.signPub(key), Signed(lib, pkt, key), encKey);
  }

  lemma SignedIsRead(lib: Library, pkt: Packet, key: Bytes)
    requires lib.CodecLaw() && lib.SigningLaw()
    ensures ReadFrom(lib, Pack(lib, Signed(lib, pkt, key)), lib.signPub(key)) == Some(Signed(lib, pkt, key))
  {
    HopAccepted(lib, pkt, key);
  }

  lemma MessageHandled(lib: Library, raw: Bytes, pub: Bytes, pkt: Packet, encKey: Bytes)
    requires ReadFrom(lib, raw, pub) == Some(pkt) && pkt.body.kind == MSG
    ensures ClientReads(lib, encKey, pub, raw) == HandleMsg(lib, encKey, pkt)
  {
  }

  lemma TextRead(lib: Library, pkt: Packet, encKey: Bytes, plaintext: Bytes, ephemeral: Bytes, nonce: Bytes)
    requires lib.CodecLaw() && lib.ExchangeLaw() && lib.AeadLaw()
    requires pkt.body.payload == SealedPayload(lib, Encrypt(lib, plaintext, lib.dhPub(encKey), ephemeral, nonce))
    ensures HandleMsg(lib, encKey, pkt) == Some(Delivery(pkt.body.fromAddr, plaintext))
  {
    DecryptInvertsEncrypt(lib, plaintext, encKey, ephemeral, nonce);
    SealedRead(lib, pkt, Encrypt(lib, plaintext, lib.dhPub(encKey), ephemeral, nonce), encKey, plaintext);
  }

  // What a client sends to a cell reaches that cell's on_message unchanged, with the
  // sender's address, over any number of honest nodes, each of which may have buffered it.
  lemma PlaintextArrives(lib: Library, sender: Identity, node: string, recipient: Identity, toNode: string,
                         plaintext: Bytes, ephemeral: Bytes, nonce: Bytes, uuid: string, ts: int, relays: seq<Relay>)
    requires lib.CodecLaw() && lib.SigningLaw() && lib.ExchangeLaw() && lib.AeadLaw()
    ensures var e := Encrypt(lib, plaintext, lib.dhPub(recipient.encKey), ephemeral, nonce);
            var pkt := Compose(lib, IdOf(lib, sender), node, IdOf(lib, recipient), toNode, e, uuid, ts);
            var raw := Way(lib, Pack(lib, Signed(lib, pkt, sender.signKey)), sender.signKey, relays);
            && raw.Some?
            && ClientReads(lib, recipient.encKey, lib.signPub(LastKey(sender.signKey, relays)), raw.value)
               == Some(Delivery(IdOf(lib, sender) + "@" + node, plaintext))
  {
    var e := Encrypt(lib, plaintext, lib.dhPub(recipient.encKey), ephemeral, nonce);
    var pkt := Compose(lib, IdOf(lib, sender), node, IdOf(lib, recipient), toNode, e, uuid, ts);
    var q := WayKeepsBody(lib, pkt, sender.signKey, relays);
    LastHopDelivers(lib, q, LastKey(sender.signKey, relays), recipient.encKey, plaintext, ephemeral, nonce);
  }

  // --- the same, of the nodes' own runs ---

  // Between two nodes: what the one has sent, when its bytes reach the other, is given to
  // the other's router with the same body.
  lemma SentIsGiven(c: Config, states: seq<State>, events: seq<Event>, i: nat, next: Config, conn: Conn, now: int)
    requires c.lib.CodecLaw() && c.lib.SigningLaw() && IsRun(c, states, events)
    requires BufferOk(c.lib, states[0].buffer) && Bound(states[0]) && AllSigned(c, states[0].log)
    requires i < |states[|events|].log| && states[|events|].log[i].Sent?
    requires states[|events|].log[i].pkt.body.kind == MSG
    requires next.lib == c.lib && ProvenBy(conn, c)
    ensures var pkt := states[|events|].log[i].pkt;
            Given(next, Received(conn, Pack(c.lib, pkt), now, [])) == Some(pkt.body)
  {
    SentIsAccepted(c, states, events, i, next, conn);
  }

  // At the end: whatever run the recipient's node went through - forwarding at once, or
  // buffering and flushing - a sent copy of the message gives its client the text.
  lemma NodeRunDelivers(c: Config, states: seq<State>, events: seq<Event>, i: nat, encKey: Bytes,
                        plaintext: Bytes, ephemeral: Bytes, nonce: Bytes)
    requires c.lib.CodecLaw() && c.lib.SigningLaw() && c.lib.ExchangeLaw() && c.lib.AeadLaw()
    requires IsRun(c, states, events)
    requires BufferOk(c.lib, states[0].buffer) && Bound(states[0]) && AllSigned(c, states[0].log)
    requires i < |states[|events|].log| && states[|events|].log[i].Sent?
    requires var b := states[|events|].log[i].pkt.body;
             b.kind == MSG
             && b.payload == SealedPayload(c.lib, Encrypt(c.lib, plaintext, c.lib.dhPub(encKey), ephemeral, nonce))
    ensures var pkt := states[|events|].log[i].pkt;
            ClientReads(c.lib, encKey, c.lib.signPub(c.who.signKey), Pack(c.lib, pkt))
            == Some(Delivery(pkt.body.fromAddr, plaintext))
  {
    RegistryBound(c, states, events);
    LastHopDelivers(c.lib, states[|events|].log[i].pkt, c.who.signKey, encKey, plaintext, ephemeral, nonce);
  }
}
