// The gate that every packet passes on arrival: what is not signed by the key that the peer
// proved goes no further, at a node and at a client.
module Gate {
  import opened Text
  import opened Primitives
  import opened Protocol
  import opened Auth
  import opened Machine
  import opened Ledger
  import opened Invariants
  import E = EndToEnd

  /** The packet carries a signature, and it verifies under the key. */
  ghost predicate SignedUnder(lib: Library, p: Packet, pub: Bytes) {
    p.sig != [] && lib.verify(SignData(p.body), p.sig, pub)
  }

  // A packet without a signature, or with one that does not verify under the key the peer
  // proved, changes nothing at all.
  lemma ForgedIsDropped(c: Config, s: State, raw: Bytes, conn: Conn, now: int, order: seq<string>, p: Packet)
    requires Unpack(c.lib, raw) == Some(p) && !SignedUnder(c.lib, p, conn.signingPub)
    ensures ReceiveOrder(c, s, raw, conn, now, order)
    ensures Receive(c, s, raw, conn, now, order) == s
  {
  }

  // Bytes that are no packet end the connection: whatever is registered under the peer's id
  // is removed, and nothing else changes.
  lemma GarbageEndsConnection(c: Config, s: State, raw: Bytes, conn: Conn, now: int, order: seq<string>)
    requires Unpack(c.lib, raw) == None
    ensures ReceiveOrder(c, s, raw, conn, now, order)
    ensures Receive(c, s, raw, conn, now, order) == s.(conns := s.conns - {conn.peerNodeId})
  {
  }

  // A packet signed under the peer's key is dispatched by its type.
  lemma GenuineIsDispatched(c: Config, s: State, raw: Bytes, conn: Conn, now: int, order: seq<string>, p: Packet)
    requires Unpack(c.lib, raw) == Some(p) && SignedUnder(c.lib, p, conn.signingPub)
    requires ReceiveOrder(c, s, raw, conn, now, order)
    ensures p.body.kind == "msg" ==> Receive(c, s, raw, conn, now, order) == Route(c, s, p, now).s
    ensures p.body.kind == "cell_register" ==>
              FlushOrder(c, s, p.body.payload, conn, now, order)
              && Receive(c, s, raw, conn, now, order) == HandleCellRegister(c, s, p.body.payload, conn, now, order)
    ensures p.body.kind != "msg" && p.body.kind != "cell_register" ==>
              Receive(c, s, raw, conn, now, order) == DispatchControl(c, s, p, conn, now)
  {
  }

  // --- over runs ---

  /** The bytes hold a message with this body, signed under the key that names the peer. */
  ghost predicate BringsSigned(c: Config, s: State, e: Event, b: Body) {
    && e.Received? && e.conn in s.accepted && e.conn.peerNodeId == Hex(e.conn.signingPub)
    && exists p: Packet :: Unpack(c.lib, e.raw) == Some(p) && p.body == b && SignedUnder(c.lib, p, e.conn.signingPub)
  }

  // In every run, each message that an event gives to the router was handed in at this very
  // node, or came over an accepted connection with a signature that verifies under the key
  // behind the peer's id.
  lemma GivenIsSigned(c: Config, states: seq<State>, events: seq<Event>, i: nat, b: Body)
    requires c.lib.CodecLaw() && IsRun(c, states, events)
    requires BufferOk(c.lib, states[0].buffer) && Bound(states[0]) && AllSigned(c, states[0].log)
    requires i < |events| && Given(c, events[i]) == Some(b)
    ensures b.kind == "msg"
    ensures (events[i].Submitted? && events[i].pkt.body == b) || BringsSigned(c, states[i], events[i], b)
  {
    RegistryBound(c, states[..i + 1], events[..i]);
    if events[i].Received? {
      assert BoundConn(events[i].conn);
      assert Genuine(c, events[i].raw, events[i].conn).value.body == b;
    }
  }

  // So nothing is ever accounted for - sent, handed over, dropped, expired or waiting - that no
  // one handed in or signed.
  lemma NothingFromNowhere(c: Config, states: seq<State>, events: seq<Event>, b: Body)
    requires c.lib.CodecLaw() && IsRun(c, states, events) && Pristine(states[0]) && Bound(states[0])
    requires b.kind == MSG && Account(c.lib, states[|events|], b) > 0
    ensures exists i :: 0 <= i < |events|
                        && ((events[i].Submitted? && events[i].pkt.body == b) || BringsSigned(c, states[i], events[i], b))
  {
    Conservation(c, states, events, b);
    var i := SomeGives(c, events, b);
    GivenIsSigned(c, states, events, i, b);
  }

  lemma {:induction false} SomeGives(c: Config, events: seq<Event>, b: Body) returns (i: nat)
    requires GivenCount(c, events, b) > 0
    ensures i < |events| && Given(c, events[i]) == Some(b)
  {
    var n := |events| - 1;
    if Given(c, events[n]) == Some(b) {
      i := n;
    } else {
      i := SomeGives(c, events[..n], b);
    }
  }

  // --- at a client ---

  /** The three parts of a sealed text, as the payload holds them. */
  ghost predicate HoldsSealed(lib: Library, payload: Bytes, e: E.Sealed) {
    match lib.unpack(payload)
    case Some(Dict(d)) =>
      && "ciphertext" in d && d["ciphertext"] == Bin(e.ciphertext)
      && "nonce" in d && d["nonce"] == Bin(e.nonce)
      && "ephemeral_pubkey" in d && d["ephemeral_pubkey"] == Bin(e.ephemeralPub)
    case _ => false
  }

  /** The payload holds a sealed text that opens to this one. */
  ghost predicate OpensTo(lib: Library, encKey: Bytes, payload: Bytes, text: Bytes) {
    exists e: E.Sealed ::
      && HoldsSealed(lib, payload, e)
      && lib.unseal(lib.hkdf(lib.exchange(encKey, e.ephemeralPub), e.ephemeralPub, Utf8("nevod-e2e-v1")), e.nonce,
                    e.ciphertext) == Some(text)
  }

  // Exactly what a client passes on: the text of a message that is signed under the key its
  // node proved, holds a sealed text, and unseals; from whom the message says it is.
  lemma ClientReadsExactly(lib: Library, encKey: Bytes, nodePub: Bytes, raw: Bytes, d: E.Delivery)
    ensures E.ClientReads(lib, encKey, nodePub, raw) == Some(d)
       <==> match Unpack(lib, raw)
            case Some(p) => SignedUnder(lib, p, nodePub) && p.body.kind == "msg" && p.body.fromAddr == d.fromAddr
                            && OpensTo(lib, encKey, p.body.payload, d.plaintext)
            case None => false
  {
    ClientGate(lib, encKey, nodePub, raw);
    var p := Unpack(lib, raw);
    if p.Some? {
      HandledExactly(lib, encKey, p.value, d);
    }
  }

  lemma ClientGate(lib: Library, encKey: Bytes, nodePub: Bytes, raw: Bytes)
    ensures E.ClientReads(lib, encKey, nodePub, raw)
         == match Unpack(lib, raw)
            case Some(p) =>
              if SignedUnder(lib, p, nodePub) && p.body.kind == "msg" then E.HandleMsg(lib, encKey, p) else None
            case None => None
  {
  }

  lemma HandledExactly(lib: Library, encKey: Bytes, p: Packet, d: E.Delivery)
    ensures E.HandleMsg(lib, encKey, p) == Some(d)
       <==> p.body.fromAddr == d.fromAddr && OpensTo(lib, encKey, p.body.payload, d.plaintext)
  {
    var data := lib.unpack(p.body.payload);
    if E.HandleMsg(lib, encKey, p) == Some(d) {
      var e := E.Sealed(BinField(data, "ephemeral_pubkey").value, BinField(data, "nonce").value,
                        BinField(data, "ciphertext").value);
      assert HoldsSealed(lib, p.body.payload, e);
    }
  }

  // In particular nothing forged reaches it, and nothing that is no message.
  lemma ClientRefusesForged(lib: Library, encKey: Bytes, nodePub: Bytes, raw: Bytes)
    requires match Unpack(lib, raw)
             case Some(p) => !SignedUnder(lib, p, nodePub) || p.body.kind != "msg"
             case None => true
    ensures E.ClientReads(lib, encKey, nodePub, raw) == None
  {
  }
}
