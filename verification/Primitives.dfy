// The functions the node calls but does not define: MessagePack, Ed25519, X25519,
// HKDF-SHA256 and ChaCha20-Poly1305. They are unknown functions; every theorem names
// the laws of theirs it uses.
module Primitives {
  import opened Text

  /** What MessagePack carries: None, bool, int, str, bytes, list and dict. */
  datatype Value =
    | Nil
    | Bool(b: bool)
    | Int(n: int)
    | Str(s: string)
    | Bin(data: Bytes)
    | List(items: seq<Value>)
    | Dict(fields: map<string, Value>)

  datatype Library = Library(
    pack: Value -> Bytes,
    unpack: Bytes -> Option<Value>,
    signPub: Bytes -> Bytes,
    sign: (Bytes, Bytes) -> Bytes,
    verify: (Bytes, Bytes, Bytes) -> bool,
    dhPub: Bytes -> Bytes,
    exchange: (Bytes, Bytes) -> Bytes,
    hkdf: (Bytes, Bytes, Bytes) -> Bytes,
    seal: (Bytes, Bytes, Bytes) -> Bytes,
    unseal: (Bytes, Bytes, Bytes) -> Option<Bytes>)
  {
    /** Unpacking inverts packing. */
    ghost predicate CodecLaw() {
      forall v :: unpack(pack(v)) == Some(v)
    }

    /** A signature (RFC 8032, section 5.1) is nonempty and verifies under the signer's key. */
    ghost predicate SigningLaw() {
      forall m, k :: verify(m, sign(m, k), signPub(k)) && sign(m, k) != []
    }

    /** Both ends of an exchange compute one secret (RFC 7748, section 6.1). */
    ghost predicate ExchangeLaw() {
      forall a, b :: exchange(a, dhPub(b)) == exchange(b, dhPub(a))
    }

    /** Decryption inverts encryption (RFC 8439, section 2.8). */
    ghost predicate AeadLaw() {
      forall k, n, p :: unseal(k, n, seal(k, n, p)) == Some(p)
    }
  }
}
