// What a signature pins down. The signed bytes are fields joined without delimiters, so
// two different packets can have the same ones; this module says exactly when.
module SignedBytes {
  import opened Text
  import opened Protocol

  const KINDS := {MSG, ACK, PING, PONG, GOSSIP, NODE_REGISTER, NODE_VOTE, NODE_CERT, NODE_REMOVE,
                  NODE_LEAVING, PRESENCE_QUERY, PRESENCE_RESPONSE, CELL_REGISTER, CELL_INVITE,
                  AUTH_CHALLENGE, AUTH_RESPONSE}

  ghost predicate NodeAddr(a: string) {
    |a| == 64 && IsHex(a)
  }

  ghost predicate CellAddr(a: string) {
    |a| == 129 && IsHex(a[..64]) && a[64] == '@' && IsHex(a[65..])
  }

  /** The packets that are signed: a UUID, a known type, 64-digit ids, a ten-digit time; gossip
      names no recipient. */
  ghost predicate Addressed(b: Body) {
    && |b.id| == 36 && Ascii(b.id)
    && b.kind in KINDS
    && (NodeAddr(b.fromAddr) || CellAddr(b.fromAddr))
    && (b.toAddr == "" || NodeAddr(b.toAddr) || CellAddr(b.toAddr))
    && 1_000_000_000 <= b.ts < 10_000_000_000
  }

  /** The packets CellClient.send builds. */
  ghost predicate ClientMessage(b: Body) {
    Addressed(b) && b.kind == MSG && CellAddr(b.fromAddr) && CellAddr(b.toAddr)
  }

  // --- reading the fields back ---

  lemma SamePrefix(a: Bytes, x: Bytes, b: Bytes, y: Bytes)
    requires a + x == b + y && |a| == |b|
    ensures a == b && x == y
  {
    assert a == (a + x)[..|a|] && b == (b + y)[..|b|];
    assert x == (a + x)[|a|..] && y == (b + y)[|b|..];
  }

  /** The known types are prefix free: five characters tell them apart. */
  function KindBy(c0: char, c1: char, c5: char, c7: char, c9: char): string {
    match c0
    case 'm' => MSG
    case 'g' => GOSSIP
    case 'a' => if c1 == 'c' then ACK else if c5 == 'c' then AUTH_CHALLENGE else AUTH_RESPONSE
    case 'p' => if c1 == 'i' then PING else if c1 == 'o' then PONG
                else if c9 == 'q' then PRESENCE_QUERY else PRESENCE_RESPONSE
    case 'c' => if c5 == 'r' then CELL_REGISTER else CELL_INVITE
    case _ => if c5 == 'v' then NODE_VOTE else if c5 == 'c' then NODE_CERT
              else if c5 == 'l' then NODE_LEAVING
              else if c7 == 'g' then NODE_REGISTER else NODE_REMOVE
  }

  /** The type at the front of s. */
  function KindOf(s: Bytes): string
    requires |s| >= 10
  {
    KindBy(s[0] as char, s[1] as char, s[5] as char, s[7] as char, s[9] as char)
  }

  lemma KindByKind(kind: string, c0: char, c1: char, c5: char, c7: char, c9: char)
    requires kind in KINDS
    requires c0 == kind[0] && c1 == kind[1]
    requires (|kind| > 5 ==> c5 == kind[5]) && (|kind| > 7 ==> c7 == kind[7]) && (|kind| > 9 ==> c9 == kind[9])
    ensures KindBy(c0, c1, c5, c7, c9) == kind
  {
  }

  lemma KindAscii(kind: string)
    requires kind in KINDS
    ensures Ascii(kind) && |kind| >= 3
  {
  }

  lemma KindRead(kind: string, s: Bytes)
    requires kind in KINDS && |s| >= 10 && |s| >= |kind|
    requires forall i :: 0 <= i < |kind| ==> s[i] as char == kind[i]
    ensures KindOf(s) == kind
  {
    KindAscii(kind);
    KindByKind(kind, s[0] as char, s[1] as char, s[5] as char, s[7] as char, s[9] as char);
  }

  lemma Front(text: string, rest: Bytes)
    requires Ascii(text)
    ensures |Utf8(text) + rest| == |text| + |rest|
    ensures forall i :: 0 <= i < |text| ==> (Utf8(text) + rest)[i] as char == text[i]
  {
    Utf8Ascii(text);
  }

  /** Where an address ends, read off the front. */
  function AddrLen(s: Bytes): nat
    requires |s| >= 65
  {
    if s[64] == '@' as byte then 129 else 64
  }

  lemma AddrRead(addr: string, rest: Bytes)
    requires NodeAddr(addr) || CellAddr(addr)
    requires |rest| >= 1 && rest[0] != '@' as byte
    ensures Ascii(addr) && |Utf8(addr)| == |addr| && AddrLen(Utf8(addr) + rest) == |addr|
  {
    AddrAscii(addr);
    Utf8Ascii(addr);
  }

  lemma AddrAscii(addr: string)
    requires NodeAddr(addr) || CellAddr(addr)
    ensures Ascii(addr) && IsHexDigit(addr[0])
  {
    if CellAddr(addr) {
      assert forall i :: 0 <= i < 64 ==> addr[i] == addr[..64][i];
      assert forall i :: 65 <= i < 129 ==> addr[i] == addr[65..][i - 65];
    }
  }

  function FromTo(b: Body): Bytes {
    Utf8(b.toAddr) + b.payload
  }

  lemma SignDataParts(b: Body)
    ensures SignData(b)
         == Utf8(b.id) + (Utf8(b.kind) + (Utf8(b.fromAddr) + (FromTo(b) + Utf8(Decimal(b.ts)))))
  {
    JoinedParts(Utf8(b.id), Utf8(b.kind), Utf8(b.fromAddr), Utf8(b.toAddr), b.payload, Utf8(Decimal(b.ts)));
  }

  lemma JoinedParts(id: Bytes, kind: Bytes, from: Bytes, to: Bytes, payload: Bytes, ts: Bytes)
    ensures id + kind + from + to + payload + ts == id + (kind + (from + ((to + payload) + ts)))
  {
    Assoc(id + kind + from, to, payload);
    Assoc(id + kind + from, to + payload, ts);
    Assoc(id + kind, from, (to + payload) + ts);
    Assoc(id, kind, from + ((to + payload) + ts));
  }

  lemma TailShape(b: Body)
    requires Addressed(b)
    ensures |Utf8(Decimal(b.ts))| == 10 && Ascii(Decimal(b.ts))
    ensures b.toAddr != "" ==> |FromTo(b)| >= 64 && IsHexDigit(FromTo(b)[0] as char)
  {
    assert Pow10(9) == 1_000_000_000 && Pow10(10) == 10_000_000_000 by {
      assert Pow10(3) == 1000 && Pow10(6) == 1_000_000;
    }
    DigitsShape(b.ts, 9);
    Utf8Ascii(Decimal(b.ts));
    if b.toAddr != "" {
      AddrAscii(b.toAddr);
      Utf8Ascii(b.toAddr);
    }
  }

  // Equal bytes that begin with a known type begin with the same one.
  lemma SameKind(k: string, x: Bytes, l: string, y: Bytes)
    requires k in KINDS && l in KINDS && |x| >= 7 && |y| >= 7
    requires Utf8(k) + x == Utf8(l) + y
    ensures k == l && x == y
  {
    KindAscii(k);
    KindAscii(l);
    Front(k, x);
    Front(l, y);
    KindRead(k, Utf8(k) + x);
    KindRead(l, Utf8(l) + y);
    SamePrefix(Utf8(k), x, Utf8(l), y);
  }

  // Equal bytes that begin with an address, no '@' following, begin with the same one.
  lemma SameAddr(a: string, x: Bytes, b: string, y: Bytes)
    requires (NodeAddr(a) || CellAddr(a)) && (NodeAddr(b) || CellAddr(b))
    requires |x| >= 1 && x[0] != '@' as byte && |y| >= 1 && y[0] != '@' as byte
    requires Utf8(a) + x == Utf8(b) + y
    ensures a == b && x == y
  {
    AddrRead(a, x);
    AddrRead(b, y);
    SamePrefix(Utf8(a), x, Utf8(b), y);
    Utf8AsciiInjective(a, b);
  }

  // --- what equal signed bytes mean ---

  /** Sender and recipient, one after the other. */
  function Ends(b: Body): string {
    b.fromAddr + b.toAddr
  }

  /** What lies between the type and the time. */
  function Middle(b: Body): Bytes {
    Utf8(b.fromAddr) + FromTo(b)
  }

  lemma MiddleParts(b: Body)
    ensures SignData(b) == Utf8(b.id) + (Utf8(b.kind) + (Middle(b) + Utf8(Decimal(b.ts))))
    ensures Middle(b) == Utf8(Ends(b)) + b.payload
  {
    SignDataParts(b);
    Assoc(Utf8(b.fromAddr), FromTo(b), Utf8(Decimal(b.ts)));
    Utf8Concat(b.fromAddr, b.toAddr);
    Assoc(Utf8(b.fromAddr), Utf8(b.toAddr), b.payload);
  }

  lemma EndsAscii(b: Body)
    requires Addressed(b)
    ensures Ascii(Ends(b)) && |Ends(b)| >= 64
  {
    AddrAscii(b.fromAddr);
    if b.toAddr != "" {
      AddrAscii(b.toAddr);
    }
  }

  // Equal signed bytes mean equal id, type and time, and equal bytes between type and time;
  // where in those the addresses end and the payload begins is all that is not pinned down.
  lemma SignedBytesExact(p: Body, q: Body)
    requires Addressed(p) && Addressed(q)
    ensures SignData(p) == SignData(q)
       <==> p.id == q.id && p.kind == q.kind && p.ts == q.ts && Middle(p) == Middle(q)
  {
    MiddleParts(p);
    MiddleParts(q);
    if SignData(p) == SignData(q) {
      Utf8Ascii(p.id);
      Utf8Ascii(q.id);
      TailShape(p);
      TailShape(q);
      EndsAscii(p);
      EndsAscii(q);
      Utf8Ascii(Ends(p));
      Utf8Ascii(Ends(q));
      var fp, fq := Middle(p) + Utf8(Decimal(p.ts)), Middle(q) + Utf8(Decimal(q.ts));
      SamePrefix(Utf8(p.id), Utf8(p.kind) + fp, Utf8(q.id), Utf8(q.kind) + fq);
      Utf8AsciiInjective(p.id, q.id);
      SameKind(p.kind, fp, q.kind, fq);
      SamePrefix(Middle(p), Utf8(Decimal(p.ts)), Middle(q), Utf8(Decimal(q.ts)));
      Utf8AsciiInjective(Decimal(p.ts), Decimal(q.ts));
      DigitsInjective(p.ts, q.ts);
    }
  }

  // Between packets that both name a recipient they pin down the sender too.
  lemma SenderExact(p: Body, q: Body)
    requires Addressed(p) && Addressed(q) && p.toAddr != "" && q.toAddr != ""
    ensures SignData(p) == SignData(q)
       <==> p.id == q.id && p.kind == q.kind && p.fromAddr == q.fromAddr && p.ts == q.ts
            && FromTo(p) == FromTo(q)
  {
    SignedBytesExact(p, q);
    if SignData(p) == SignData(q) {
      TailShape(p);
      TailShape(q);
      SameAddr(p.fromAddr, FromTo(p), q.fromAddr, FromTo(q));
    }
  }

  /** The addresses of q are those of p and the first payload bytes of p. */
  ghost predicate Shifted(p: Body, q: Body) {
    && |Ends(p)| < |Ends(q)| && Ends(q)[..|Ends(p)|] == Ends(p)
    && p.payload == Utf8(Ends(q)[|Ends(p)|..]) + q.payload
  }

  predicate SameHeader(p: Body, q: Body) {
    p.id == q.id && p.kind == q.kind && p.ts == q.ts
  }

  // Where the sender ends can be read off the joined addresses.
  lemma SenderLength(b: Body)
    requires Addressed(b)
    ensures |b.fromAddr| == if |Ends(b)| > 64 && Ends(b)[64] == '@' then 129 else 64
  {
    if NodeAddr(b.fromAddr) && b.toAddr != "" {
      AddrAscii(b.toAddr);
      assert Ends(b)[64] == b.toAddr[0];
    }
  }

  lemma EndsSplit(p: Body, q: Body)
    requires Addressed(p) && Addressed(q) && Ends(p) == Ends(q)
    ensures p.fromAddr == q.fromAddr && p.toAddr == q.toAddr
  {
    SenderLength(p);
    SenderLength(q);
    assert p.fromAddr == Ends(p)[..|p.fromAddr|] && q.fromAddr == Ends(q)[..|q.fromAddr|];
    assert p.toAddr == Ends(p)[|p.fromAddr|..] && q.toAddr == Ends(q)[|q.fromAddr|..];
  }

  // The signed bytes of two packets collide exactly when the packets are the same, or when
  // one moves the head of its payload into the addresses.
  lemma CollisionsExact(p: Body, q: Body)
    requires Addressed(p) && Addressed(q)
    ensures SignData(p) == SignData(q) <==> p == q || (SameHeader(p, q) && (Shifted(p, q) || Shifted(q, p)))
  {
    SignedBytesExact(p, q);
    MiddleParts(p);
    MiddleParts(q);
    EndsAscii(p);
    EndsAscii(q);
    if |Ends(p)| == |Ends(q)| {
      SameMiddle(p, q);
    } else if |Ends(p)| < |Ends(q)| {
      ShiftedMiddle(p, q);
    } else {
      ShiftedMiddle(q, p);
    }
  }

  lemma SameMiddle(p: Body, q: Body)
    requires Addressed(p) && Addressed(q) && |Ends(p)| == |Ends(q)|
    ensures Middle(p) == Middle(q)
       <==> p.fromAddr == q.fromAddr && p.toAddr == q.toAddr && p.payload == q.payload
  {
    MiddleParts(p);
    MiddleParts(q);
    EndsAscii(p);
    EndsAscii(q);
    Utf8Ascii(Ends(p));
    Utf8Ascii(Ends(q));
    if Middle(p) == Middle(q) {
      SamePrefix(Utf8(Ends(p)), p.payload, Utf8(Ends(q)), q.payload);
      Utf8AsciiInjective(Ends(p), Ends(q));
      EndsSplit(p, q);
    }
  }

  lemma ShiftedMiddle(p: Body, q: Body)
    requires Ascii(Ends(p)) && Ascii(Ends(q)) && |Ends(p)| < |Ends(q)|
    ensures Middle(p) == Middle(q) <==> Shifted(p, q)
  {
    var front, back := Ends(q)[..|Ends(p)|], Ends(q)[|Ends(p)|..];
    MiddleParts(p);
    MiddleParts(q);
    assert Ends(q) == front + back;
    Utf8Concat(front, back);
    Assoc(Utf8(front), Utf8(back), q.payload);
    Utf8Ascii(front);
    Utf8Ascii(Ends(p));
    if Middle(p) == Middle(q) {
      SamePrefix(Utf8(Ends(p)), p.payload, Utf8(front), Utf8(back) + q.payload);
      Utf8AsciiInjective(Ends(p), front);
    }
  }

  // On what a cell client sends, the signed bytes determine the packet.
  lemma ClientMessagesInjective(p: Body, q: Body)
    requires ClientMessage(p) && ClientMessage(q)
    ensures SignData(p) == SignData(q) <==> p == q
  {
    CollisionsExact(p, q);
  }

  // Every packet for a node has a twin, for any cell there at all: with the same signed bytes,
  // one of the two carries in its payload what the other has in its recipient.
  lemma TwinOf(p: Body, node: string)
    requires Addressed(p) && NodeAddr(p.toAddr) && NodeAddr(node)
    ensures var longer := p.(payload := Utf8("@" + node) + p.payload);
            var twin := p.(toAddr := p.toAddr + ("@" + node));
            && Addressed(longer) && Addressed(twin) && longer != twin && CellAddr(twin.toAddr)
            && SignData(longer) == SignData(twin)
  {
    var longer := p.(payload := Utf8("@" + node) + p.payload);
    var twin := p.(toAddr := p.toAddr + ("@" + node));
    CellAddrOf(p.toAddr, node);
    SameSignData(p, "@" + node);
  }

  // Moving the head of the payload to the end of the recipient changes no signed byte.
  lemma SameSignData(p: Body, more: string)
    ensures SignData(p.(payload := Utf8(more) + p.payload)) == SignData(p.(toAddr := p.toAddr + more))
  {
    var longer, twin := p.(payload := Utf8(more) + p.payload), p.(toAddr := p.toAddr + more);
    Utf8Concat(p.toAddr, more);
    Assoc(Utf8(p.toAddr), Utf8(more), p.payload);
    SignDataParts(longer);
    SignDataParts(twin);
  }

  lemma CellAddrOf(a: string, b: string)
    requires NodeAddr(a) && NodeAddr(b)
    ensures CellAddr(a + ("@" + b))
  {
    var addr := a + ("@" + b);
    assert addr[..64] == a && addr[65..] == b;
  }

  // So in general the signed bytes do not determine the packet, even of packets that the
  // node and its clients could have built.
  lemma SignDataNotInjective()
    ensures exists p: Body, q: Body :: Addressed(p) && Addressed(q) && p != q && SignData(p) == SignData(q)
  {
    var node := seq(64, i => '0');
    var p := Body(seq(36, i => 'a'), MSG, node, node, [], 1_000_000_000);
    TwinOf(p, node);
  }
}
