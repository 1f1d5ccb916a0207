// Challenge and response: what a peer proves, and what the prover learns.
module Auth {
  import opened Text
  import opened Primitives
  import opened Protocol

  datatype AuthResult = AuthResult(nodeId: string, signingPub: Bytes, encPub: Bytes)

  /** A signing key and an encryption key, each by its private half. */
  datatype Identity = Identity(signKey: Bytes, encKey: Bytes)

  function IdOf(lib: Library, who: Identity): string {
    Hex(lib.signPub(who.signKey))
  }

  /** The nonce, the packet id and the time are drawn by the caller. */
  function MakeChallenge(lib: Library, from: string, to: string, nonce: Bytes, id: string, ts: int): Packet {
    Packet(PROTO_VERSION,
           Body(id, AUTH_CHALLENGE, from, to, lib.pack(Dict(map["nonce" := Bin(nonce)])), ts), [])
  }

  function MakeResponse(lib: Library, from: string, to: string, nonce: Bytes, who: Identity,
                        id: string, ts: int): Packet
  {
    var payload := Dict(map[
      "nonce" := Bin(nonce), "sig" := Bin(lib.sign(nonce, who.signKey)),
      "signing_pubkey" := Bin(lib.signPub(who.signKey)), "enc_pubkey" := Bin(lib.dhPub(who.encKey))]);
    Packet(PROTO_VERSION, Body(id, AUTH_RESPONSE, from, to, lib.pack(payload), ts), [])
  }

  /** data[key], when it is there and holds bytes. */
  function BinField(v: Option<Value>, key: string): Option<Bytes> {
    match v
    case Some(Dict(d)) => if key in d && d[key].Bin? then Some(d[key].data) else None
    case _ => None
  }

  function StrField(v: Option<Value>, key: string): Option<string> {
    match v
    case Some(Dict(d)) => if key in d && d[key].Str? then Some(d[key].s) else None
    case _ => None
  }

  /** No expectation, given as None or as the empty text, accepts everyone. */
  predicate Meets(nodeId: string, expected: Option<string>) {
    expected.None? || expected.value == "" || nodeId == expected.value
  }

  function VerifyResponse(lib: Library, response: Packet, expectedNonce: Bytes, expected: Option<string>)
    : (r: Option<AuthResult>)
    // whoever is let in is named by a key that signed our nonce, and is whom we expected
    ensures r.Some? ==> r.value.nodeId == Hex(r.value.signingPub)
                        && (exists sig :: lib.verify(expectedNonce, sig, r.value.signingPub))
                        && Meets(r.value.nodeId, expected)
  {
    var data := lib.unpack(response.body.payload);
    match (BinField(data, "nonce"), BinField(data, "sig"),
           BinField(data, "signing_pubkey"), BinField(data, "enc_pubkey"))
    case (Some(nonce), Some(sig), Some(signingPub), Some(encPub)) =>
      if nonce != expectedNonce then None
      else if expected.Some? && expected.value != "" && Hex(signingPub) != expected.value then None
      else if !lib.verify(nonce, sig, signingPub) then None
      else Some(AuthResult(Hex(signingPub), signingPub, encPub))
    case _ => None
  }

  // An honest answer to our challenge is accepted exactly when it comes from whom we
  // expect, and then yields the responder's own keys.
  lemma HonestResponse(lib: Library, from: string, to: string, nonce: Bytes, who: Identity,
                       id: string, ts: int, expected: Option<string>)
    requires lib.CodecLaw() && lib.SigningLaw()
    ensures var r := VerifyResponse(lib, MakeResponse(lib, from, to, nonce, who, id, ts), nonce, expected);
            if Meets(IdOf(lib, who), expected)
            then r == Some(AuthResult(IdOf(lib, who), lib.signPub(who.signKey), lib.dhPub(who.encKey)))
            else r == None
  {
    var p := MakeResponse(lib, from, to, nonce, who, id, ts);
    var d := map[
      "nonce" := Bin(nonce), "sig" := Bin(lib.sign(nonce, who.signKey)),
      "signing_pubkey" := Bin(lib.signPub(who.signKey)), "enc_pubkey" := Bin(lib.dhPub(who.encKey))];
    assert lib.unpack(p.body.payload) == Some(Dict(d));
    assert d["nonce"] == Bin(nonce) && d["sig"] == Bin(lib.sign(nonce, who.signKey));
    assert lib.verify(nonce, lib.sign(nonce, who.signKey), lib.signPub(who.signKey));
  }

  // An answer to another challenge is never accepted.
  lemma StaleResponse(lib: Library, from: string, to: string, nonce: Bytes, who: Identity,
                      id: string, ts: int, later: Bytes, expected: Option<string>)
    requires lib.CodecLaw() && nonce != later
    ensures VerifyResponse(lib, MakeResponse(lib, from, to, nonce, who, id, ts), later, expected) == None
  {
    var d := map[
      "nonce" := Bin(nonce), "sig" := Bin(lib.sign(nonce, who.signKey)),
      "signing_pubkey" := Bin(lib.signPub(who.signKey)), "enc_pubkey" := Bin(lib.dhPub(who.encKey))];
    assert lib.unpack(lib.pack(Dict(d))) == Some(Dict(d));
    assert d["nonce"] == Bin(nonce);
  }
}
