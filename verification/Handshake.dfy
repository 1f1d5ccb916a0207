// The mutual handshake of two honest peers - two nodes, or a cell and a node - over a pair
// of FIFO channels, in every interleaving, together with what either sends once it is done.
module Handshake {
  import opened Text
  import opened Primitives
  import opened Protocol
  import opened Auth

  datatype Phase =
    | Start
    | Challenged                                // our challenge is sent
    | Asked(theirNonce: Bytes, from: string)    // theirs is received
    | Answered                                  // our response is sent
    | Done(peer: AuthResult)
    | Failed

  /** What a peer draws afresh: its nonce, two packet ids and the time. */
  datatype Draws = Draws(nonce: Bytes, id1: string, id2: string, ts: int)

  /** sent and got are the packets after the handshake, in order; lost counts those refused. */
  datatype Peer = Peer(who: Identity, expected: Option<string>, draws: Draws, phase: Phase,
                       sent: seq<Packet>, got: seq<Packet>, lost: nat)

  datatype Pair = Pair(a: Peer, b: Peer, toA: seq<Bytes>, toB: seq<Bytes>)

  /** One peer's turn: its new state, what is left in its inbox, what it sends. */
  datatype Turn = Turn(peer: Peer, inbox: seq<Bytes>, out: seq<Bytes>)

  function Challenge(lib: Library, x: Peer): Packet {
    MakeChallenge(lib, IdOf(lib, x.who), if x.expected.Some? then x.expected.value else "",
                  x.draws.nonce, x.draws.id1, x.draws.ts)
  }

  function Response(lib: Library, x: Peer, to: string, nonce: Bytes): Packet {
    MakeResponse(lib, IdOf(lib, x.who), to, nonce, x.who, x.draws.id2, x.draws.ts)
  }

  /** Receiving the peer's challenge. */
  function OnChallenge(lib: Library, raw: Bytes): Phase {
    match Unpack(lib, raw)
    case None => Failed
    case Some(p) =>
      if p.body.kind != AUTH_CHALLENGE then Failed
      else
        match BinField(lib.unpack(p.body.payload), "nonce")
        case Some(nonce) => Asked(nonce, p.body.fromAddr)
        case None => Failed
  }

  /** Receiving the peer's response. */
  function OnResponse(lib: Library, x: Peer, raw: Bytes): Phase {
    match Unpack(lib, raw)
    case None => Failed
    case Some(p) =>
      if p.body.kind != AUTH_RESPONSE then Failed
      else
        match VerifyResponse(lib, p, x.draws.nonce, x.expected)
        case Some(r) => Done(r)
        case None => Failed
  }

  /** The next line of the handshake can be executed: it sends, or there is something to receive. */
  predicate CanAdvance(x: Peer, inbox: seq<Bytes>) {
    match x.phase
    case Start => true
    case Challenged => inbox != []
    case Asked(_, _) => true
    case Answered => inbox != []
    case _ => false
  }

  function Advance(lib: Library, x: Peer, inbox: seq<Bytes>): Turn
    requires CanAdvance(x, inbox)
  {
    match x.phase
    case Start => Turn(x.(phase := Challenged), inbox, [Pack(lib, Challenge(lib, x))])
    case Challenged => Turn(x.(phase := OnChallenge(lib, inbox[0])), inbox[1..], [])
    case Asked(nonce, from) => Turn(x.(phase := Answered), inbox, [Pack(lib, Response(lib, x, from, nonce))])
    case Answered => Turn(x.(phase := OnResponse(lib, x, inbox[0])), inbox[1..], [])
  }

  /** Signing and sending a packet after the handshake. */
  function SendPacket(lib: Library, x: Peer, inbox: seq<Bytes>, pkt: Packet): Turn {
    var signed := Signed(lib, pkt, x.who.signKey);
    Turn(x.(sent := x.sent + [signed]), inbox, [Pack(lib, signed)])
  }

  /** One turn of the receive loop: verified against the key proven in the handshake. */
  function ReceivePacket(lib: Library, x: Peer, inbox: seq<Bytes>): Turn
    requires x.phase.Done? && inbox != []
  {
    match Unpack(lib, inbox[0])
    case Some(p) =>
      if VerifyPacket(lib, p, x.phase.peer.signingPub) then Turn(x.(got := x.got + [p]), inbox[1..], [])
      else Turn(x.(lost := x.lost + 1), inbox[1..], [])
    case None => Turn(x.(lost := x.lost + 1), inbox[1..], [])
  }

  // --- what is said, and what is refused ---

  // A peer says nothing but its challenge, to whom it expects, and its answer to the other's.
  lemma SaidInHandshake(lib: Library, x: Peer, inbox: seq<Bytes>)
    requires lib.CodecLaw() && CanAdvance(x, inbox)
    ensures var out, me := Advance(lib, x, inbox).out, Hex(lib.signPub(x.who.signKey));
            match x.phase
            case Start =>
              var to := match x.expected case Some(id) => id case None => "";
              |out| == 1 && Unpack(lib, out[0]) == Some(MakeChallenge(lib, me, to, x.draws.nonce, x.draws.id1, x.draws.ts))
            case Asked(nonce, from) =>
              |out| == 1 && Unpack(lib, out[0]) == Some(MakeResponse(lib, me, from, nonce, x.who, x.draws.id2, x.draws.ts))
            case _ => out == []
  {
    match x.phase
    case Start => WireRoundTrip(lib, Challenge(lib, x));
    case Asked(nonce, from) => WireRoundTrip(lib, Response(lib, x, from, nonce));
    case _ =>
  }

  // Whatever arrives: a peer goes on only on a challenge that holds a nonce,
  lemma AskedMeans(lib: Library, raw: Bytes)
    ensures OnChallenge(lib, raw).Failed? || OnChallenge(lib, raw).Asked?
    ensures OnChallenge(lib, raw).Asked? ==>
              && Unpack(lib, raw).Some?
              && var p := Unpack(lib, raw).value;
                 p.body.kind == "auth_challenge" && OnChallenge(lib, raw).from == p.body.fromAddr
                 && BinField(lib.unpack(p.body.payload), "nonce") == Some(OnChallenge(lib, raw).theirNonce)
  {
  }

  /** The bytes are an answer that proves these keys: our nonce, signed by the key that the id
      is made of, from whom we expect. */
  ghost predicate Proves(lib: Library, x: Peer, raw: Bytes, r: AuthResult) {
    && Unpack(lib, raw).Some?
    && var p := Unpack(lib, raw).value;
       var data := lib.unpack(p.body.payload);
       && p.body.kind == "auth_response"
       && BinField(data, "nonce") == Some(x.draws.nonce)
       && BinField(data, "signing_pubkey") == Some(r.signingPub) && BinField(data, "enc_pubkey") == Some(r.encPub)
       && BinField(data, "sig").Some? && lib.verify(x.draws.nonce, BinField(data, "sig").value, r.signingPub)
       && r.nodeId == Hex(r.signingPub) && (x.expected.Some? && x.expected.value != "" ==> r.nodeId == x.expected.value)
  }

  // and is done exactly on an answer that proves the other's keys - and fails on all else.
  lemma DoneExactly(lib: Library, x: Peer, raw: Bytes, r: AuthResult)
    ensures OnResponse(lib, x, raw).Failed? || OnResponse(lib, x, raw).Done?
    ensures OnResponse(lib, x, raw) == Done(r) <==> Proves(lib, x, raw, r)
  {
    var p := Unpack(lib, raw);
    if p.Some? {
      VerifiedExactly(lib, p.value, x.draws.nonce, x.expected, r);
    }
  }

  lemma VerifiedExactly(lib: Library, p: Packet, nonce: Bytes, expected: Option<string>, r: AuthResult)
    ensures VerifyResponse(lib, p, nonce, expected) == Some(r)
       <==> var data := lib.unpack(p.body.payload);
            && BinField(data, "nonce") == Some(nonce)
            && BinField(data, "signing_pubkey") == Some(r.signingPub) && BinField(data, "enc_pubkey") == Some(r.encPub)
            && BinField(data, "sig").Some? && lib.verify(nonce, BinField(data, "sig").value, r.signingPub)
            && r.nodeId == Hex(r.signingPub) && (expected.Some? && expected.value != "" ==> r.nodeId == expected.value)
  {
  }

  // After the handshake a packet counts exactly if it is signed under the key proven there.
  lemma ReceivedExactly(lib: Library, x: Peer, inbox: seq<Bytes>)
    requires x.phase.Done? && inbox != []
    ensures var t, p := ReceivePacket(lib, x, inbox), Unpack(lib, inbox[0]);
            && t.inbox == inbox[1..] && t.out == []
            && t.peer == if p.Some? && p.value.sig != []
                            && lib.verify(SignData(p.value.body), p.value.sig, x.phase.peer.signingPub)
                         then x.(got := x.got + [p.value]) else x.(lost := x.lost + 1)
  {
  }

  datatype Action = Handshakes | Sends(pkt: Packet) | Receives

  /** An action of the first peer, or of the second. */
  datatype Move = Move(first: bool, action: Action)

  function Swap(p: Pair): Pair {
    Pair(p.b, p.a, p.toB, p.toA)
  }

  predicate CanAct(p: Pair, action: Action) {
    match action
    case Handshakes => CanAdvance(p.a, p.toA)
    case Sends(_) => p.a.phase.Done?
    case Receives => p.a.phase.Done? && p.toA != []
  }

  function Act(lib: Library, p: Pair, action: Action): Pair
    requires CanAct(p, action)
  {
    var t := match action
             case Handshakes => Advance(lib, p.a, p.toA)
             case Sends(pkt) => SendPacket(lib, p.a, p.toA, pkt)
             case Receives => ReceivePacket(lib, p.a, p.toA);
    Pair(t.peer, p.b, t.inbox, p.toB + t.out)
  }

  predicate CanMove(p: Pair, m: Move) {
    CanAct(if m.first then p else Swap(p), m.action)
  }

  function Apply(lib: Library, p: Pair, m: Move): Pair
    requires CanMove(p, m)
  {
    if m.first then Act(lib, p, m.action) else Swap(Act(lib, Swap(p), m.action))
  }

  /** Any interleaving; a move that is not possible is skipped. */
  function Run(lib: Library, p: Pair, moves: seq<Move>): Pair {
    if moves == [] then p
    else
      var q := Run(lib, p, moves[..|moves| - 1]);
      if CanMove(q, moves[|moves| - 1]) then Apply(lib, q, moves[|moves| - 1]) else q
  }

  predicate Fresh(x: Peer) {
    x.phase == Start && x.sent == [] && x.got == [] && x.lost == 0
  }

  ghost predicate Initial(lib: Library, p: Pair) {
    && Fresh(p.a) && Fresh(p.b) && p.toA == [] && p.toB == []
    && Meets(IdOf(lib, p.b.who), p.a.expected) && Meets(IdOf(lib, p.a.who), p.b.expected)
  }

  // --- the invariant ---

  /** How far a peer has come. */
  function Progress(x: Peer): nat {
    match x.phase
    case Start => 0
    case Challenged => 1
    case Asked(_, _) => 2
    case Answered => 3
    case Done(_) => 4
    case Failed => 5
  }

  function PackAll(lib: Library, ps: seq<Packet>): seq<Bytes> {
    if ps == [] then [] else PackAll(lib, ps[..|ps| - 1]) + [Pack(lib, ps[|ps| - 1])]
  }

  /** All that x has put on its channel to y. */
  function Sent(lib: Library, x: Peer, y: Peer): seq<Bytes> {
    (if Progress(x) >= 1 then [Pack(lib, Challenge(lib, x))] else [])
    + (if Progress(x) >= 3 then [Pack(lib, Response(lib, x, IdOf(lib, y.who), y.draws.nonce))] else [])
    + PackAll(lib, x.sent)
  }

  /** How many messages y has taken off its channel. */
  function Taken(y: Peer): nat {
    (if Progress(y) >= 2 then 1 else 0) + (if Progress(y) >= 4 then 1 else 0) + |y.got| + y.lost
  }

  function KeysOf(lib: Library, x: Peer): AuthResult {
    AuthResult(IdOf(lib, x.who), lib.signPub(x.who.signKey), lib.dhPub(x.who.encKey))
  }

  /** What is under way from x to y. */
  ghost predicate Carries(lib: Library, x: Peer, y: Peer, channel: seq<Bytes>) {
    Taken(y) <= |Sent(lib, x, y)| && channel == Sent(lib, x, y)[Taken(y)..]
  }

  /** What y knows of x, and has got from it. */
  ghost predicate Knows(lib: Library, x: Peer, y: Peer) {
    && !y.phase.Failed?
    && (y.phase.Asked? ==> y.phase.theirNonce == x.draws.nonce && y.phase.from == IdOf(lib, x.who))
    && (y.phase.Done? ==> y.phase.peer == KeysOf(lib, x))
    && (!y.phase.Done? ==> y.got == [] && y.sent == [])
    && y.lost == 0
    && y.got <= x.sent
    && Meets(IdOf(lib, x.who), y.expected)
  }

  ghost predicate SentSigned(lib: Library, x: Peer) {
    forall i :: 0 <= i < |x.sent| ==> x.sent[i] == Signed(lib, x.sent[i], x.who.signKey)
  }

  ghost predicate Flows(lib: Library, x: Peer, y: Peer, channel: seq<Bytes>) {
    Carries(lib, x, y, channel) && Knows(lib, x, y) && SentSigned(lib, x)
  }

  ghost predicate Inv(lib: Library, p: Pair) {
    Flows(lib, p.a, p.b, p.toB) && Flows(lib, p.b, p.a, p.toA)
  }

  lemma {:induction false} PackAllAt(lib: Library, ps: seq<Packet>, i: nat)
    requires i < |ps|
    ensures |PackAll(lib, ps)| == |ps| && PackAll(lib, ps)[i] == Pack(lib, ps[i])
  {
    if i < |ps| - 1 {
      PackAllAt(lib, ps[..|ps| - 1], i);
    } else if |ps| > 1 {
      PackAllAt(lib, ps[..|ps| - 1], 0);
    }
  }

  lemma ChallengeRead(lib: Library, x: Peer)
    requires lib.CodecLaw()
    ensures OnChallenge(lib, Pack(lib, Challenge(lib, x))) == Asked(x.draws.nonce, IdOf(lib, x.who))
  {
    WireRoundTrip(lib, Challenge(lib, x));
    var d := map["nonce" := Bin(x.draws.nonce)];
    assert lib.unpack(lib.pack(Dict(d))) == Some(Dict(d));
  }

  lemma ResponseRead(lib: Library, x: Peer, y: Peer)
    requires lib.CodecLaw() && lib.SigningLaw() && Meets(IdOf(lib, x.who), y.expected)
    ensures OnResponse(lib, y, Pack(lib, Response(lib, x, IdOf(lib, y.who), y.draws.nonce))) == Done(KeysOf(lib, x))
  {
    var r := Response(lib, x, IdOf(lib, y.who), y.draws.nonce);
    WireRoundTrip(lib, r);
    HonestResponse(lib, IdOf(lib, x.who), IdOf(lib, y.who), y.draws.nonce, x.who, x.draws.id2, x.draws.ts, y.expected);
  }

  // The sender's side of a direction: one message more, or the same ones.
  lemma CarriesMore(lib: Library, x: Peer, x1: Peer, y: Peer, channel: seq<Bytes>, more: seq<Bytes>)
    requires Carries(lib, x, y, channel) && Sent(lib, x1, y) == Sent(lib, x, y) + more
    ensures Carries(lib, x1, y, channel + more)
  {
  }

  // The receiver's side: one message less, or none.
  lemma CarriesLess(lib: Library, x: Peer, y: Peer, y1: Peer, channel: seq<Bytes>, n: nat)
    requires Carries(lib, x, y, channel) && n <= |channel| && Taken(y1) == Taken(y) + n
    requires y1.who == y.who && y1.draws == y.draws
    ensures Carries(lib, x, y1, channel[n..])
  {
    assert Sent(lib, x, y1) == Sent(lib, x, y);
  }

  /** x1 is x later on, having sent nothing more. */
  predicate SaidNothing(x: Peer, x1: Peer) {
    && x1.who == x.who && x1.draws == x.draws && x1.expected == x.expected && x1.sent == x.sent
    && (Progress(x1) >= 1 <==> Progress(x) >= 1) && (Progress(x1) >= 3 <==> Progress(x) >= 3)
  }

  // The first peer takes n messages off its channel and says nothing.
  lemma TakingKeeps(lib: Library, p: Pair, x1: Peer, n: nat)
    requires Inv(lib, p) && SaidNothing(p.a, x1) && n <= |p.toA|
    requires Taken(x1) == Taken(p.a) + n && Knows(lib, p.b, x1)
    ensures Inv(lib, Pair(x1, p.b, p.toA[n..], p.toB))
  {
    assert Sent(lib, x1, p.b) == Sent(lib, p.a, p.b) + [];
    CarriesMore(lib, p.a, x1, p.b, p.toB, []);
    assert p.toB + [] == p.toB;
    CarriesLess(lib, p.b, p.a, x1, p.toA, n);
  }

  // The first peer sends one message and takes none.
  lemma SendingKeeps(lib: Library, p: Pair, x1: Peer, m: Bytes)
    requires Inv(lib, p) && Sent(lib, x1, p.b) == Sent(lib, p.a, p.b) + [m]
    requires x1.who == p.a.who && x1.draws == p.a.draws && p.a.sent <= x1.sent && SentSigned(lib, x1)
    requires Taken(x1) == Taken(p.a) && Knows(lib, p.b, x1)
    ensures Inv(lib, Pair(x1, p.b, p.toA, p.toB + [m]))
  {
    CarriesMore(lib, p.a, x1, p.b, p.toB, [m]);
    CarriesLess(lib, p.b, p.a, x1, p.toA, 0);
    assert p.toA[0..] == p.toA;
  }

  lemma StartKeeps(lib: Library, p: Pair)
    requires Inv(lib, p) && p.a.phase.Start?
    ensures Inv(lib, Act(lib, p, Handshakes)) && Progress(Act(lib, p, Handshakes).a) == 1
  {
    var x1 := p.a.(phase := Challenged);
    var m := Pack(lib, Challenge(lib, p.a));
    assert Sent(lib, x1, p.b) == Sent(lib, p.a, p.b) + [m];
    SendingKeeps(lib, p, x1, m);
    assert Act(lib, p, Handshakes) == Pair(x1, p.b, p.toA, p.toB + [m]);
  }

  // The first message of a peer is its challenge.
  lemma FirstIsChallenge(lib: Library, x: Peer, y: Peer)
    requires |Sent(lib, x, y)| >= 1 && (!x.phase.Done? ==> x.sent == []) && !x.phase.Failed?
    ensures Sent(lib, x, y)[0] == Pack(lib, Challenge(lib, x))
  {
  }

  lemma ChallengedKeeps(lib: Library, p: Pair)
    requires lib.CodecLaw() && Inv(lib, p) && p.a.phase.Challenged? && p.toA != []
    ensures Inv(lib, Act(lib, p, Handshakes)) && Progress(Act(lib, p, Handshakes).a) == 2
  {
    var x1 := p.a.(phase := Asked(p.b.draws.nonce, IdOf(lib, p.b.who)));
    FirstIsChallenge(lib, p.b, p.a);
    assert p.toA[0] == Sent(lib, p.b, p.a)[0];
    ChallengeRead(lib, p.b);
    TakingKeeps(lib, p, x1, 1);
    assert p.toB + [] == p.toB;
    assert Act(lib, p, Handshakes) == Pair(x1, p.b, p.toA[1..], p.toB);
  }

  lemma AskedKeeps(lib: Library, p: Pair)
    requires Inv(lib, p) && p.a.phase.Asked?
    ensures Inv(lib, Act(lib, p, Handshakes)) && Progress(Act(lib, p, Handshakes).a) == 3
  {
    var x1 := p.a.(phase := Answered);
    var m := Pack(lib, Response(lib, p.a, p.a.phase.from, p.a.phase.theirNonce));
    AnswerSent(lib, p, x1, m);
    SendingKeeps(lib, p, x1, m);
    AskedPair(lib, p, x1, m);
  }

  lemma AnswerSent(lib: Library, p: Pair, x1: Peer, m: Bytes)
    requires Inv(lib, p) && p.a.phase.Asked? && x1 == p.a.(phase := Answered)
    requires m == Pack(lib, Response(lib, p.a, p.a.phase.from, p.a.phase.theirNonce))
    ensures Sent(lib, x1, p.b) == Sent(lib, p.a, p.b) + [m]
    ensures Knows(lib, p.b, x1) && SentSigned(lib, x1) && Taken(x1) == Taken(p.a)
  {
    AnswerIsNext(lib, p.a, p.b, x1);
    AnswererKnows(lib, p.b, p.a, x1);
  }

  lemma AnswerIsNext(lib: Library, x: Peer, y: Peer, x1: Peer)
    requires x.phase.Asked? && x.sent == [] && x1 == x.(phase := Answered)
    ensures Sent(lib, x1, y) == Sent(lib, x, y) + [Pack(lib, Response(lib, x, IdOf(lib, y.who), y.draws.nonce))]
  {
    assert PackAll(lib, x.sent) == PackAll(lib, x1.sent) == [];
  }

  lemma AnswererKnows(lib: Library, y: Peer, x: Peer, x1: Peer)
    requires Knows(lib, y, x) && SentSigned(lib, x) && x.phase.Asked? && x1 == x.(phase := Answered)
    ensures Knows(lib, y, x1) && SentSigned(lib, x1) && Taken(x1) == Taken(x)
  {
  }

  lemma AskedPair(lib: Library, p: Pair, x1: Peer, m: Bytes)
    requires p.a.phase.Asked? && x1 == p.a.(phase := Answered)
    requires m == Pack(lib, Response(lib, p.a, p.a.phase.from, p.a.phase.theirNonce))
    ensures Act(lib, p, Handshakes) == Pair(x1, p.b, p.toA, p.toB + [m])
  {
  }

  lemma AnsweredKeeps(lib: Library, p: Pair)
    requires lib.CodecLaw() && lib.SigningLaw() && Inv(lib, p) && p.a.phase.Answered? && p.toA != []
    ensures Inv(lib, Act(lib, p, Handshakes)) && Progress(Act(lib, p, Handshakes).a) == 4
  {
    var x1 := p.a.(phase := Done(KeysOf(lib, p.b)));
    SecondIsResponse(lib, p.b, p.a);
    assert p.toA[0] == Sent(lib, p.b, p.a)[1];
    ResponseRead(lib, p.b, p.a);
    KnowsAnswerer(lib, p.b, p.a);
    TakingKeeps(lib, p, x1, 1);
    AnsweredPair(lib, p, x1);
  }

  lemma KnowsAnswerer(lib: Library, x: Peer, y: Peer)
    requires Knows(lib, x, y) && y.phase.Answered?
    ensures var y1 := y.(phase := Done(KeysOf(lib, x)));
            Knows(lib, x, y1) && SaidNothing(y, y1) && Taken(y1) == Taken(y) + 1
  {
  }

  lemma AnsweredPair(lib: Library, p: Pair, x1: Peer)
    requires p.a.phase.Answered? && p.toA != []
    requires x1 == p.a.(phase := OnResponse(lib, p.a, p.toA[0]))
    ensures Act(lib, p, Handshakes) == Pair(x1, p.b, p.toA[1..], p.toB)
  {
    assert p.toB + [] == p.toB;
  }

  // The second message of a peer is its response: packets come only after it.
  lemma SecondIsResponse(lib: Library, x: Peer, y: Peer)
    requires |Sent(lib, x, y)| >= 2 && (!x.phase.Done? ==> x.sent == []) && !x.phase.Failed?
    ensures Progress(x) >= 3
    ensures Sent(lib, x, y)[1] == Pack(lib, Response(lib, x, IdOf(lib, y.who), y.draws.nonce))
    ensures forall i :: 0 <= i < |x.sent| && i + 2 < |Sent(lib, x, y)| ==> Sent(lib, x, y)[i + 2] == PackAll(lib, x.sent)[i]
    ensures |Sent(lib, x, y)| == 2 + |x.sent| == 2 + |PackAll(lib, x.sent)|
  {
    if x.sent != [] {
      PackAllAt(lib, x.sent, 0);
    }
  }

  lemma HandshakesKeep(lib: Library, p: Pair)
    requires lib.CodecLaw() && lib.SigningLaw() && Inv(lib, p) && CanAdvance(p.a, p.toA)
    ensures Inv(lib, Act(lib, p, Handshakes))
    ensures Progress(Act(lib, p, Handshakes).a) == Progress(p.a) + 1 <= 4
  {
    match p.a.phase
    case Start => StartKeeps(lib, p);
    case Challenged => ChallengedKeeps(lib, p);
    case Asked(_, _) => AskedKeeps(lib, p);
    case Answered => AnsweredKeeps(lib, p);
  }

  lemma SendsKeep(lib: Library, p: Pair, pkt: Packet)
    requires Inv(lib, p) && p.a.phase.Done?
    ensures Inv(lib, Act(lib, p, Sends(pkt)))
  {
    var signed := Signed(lib, pkt, p.a.who.signKey);
    var x1 := p.a.(sent := p.a.sent + [signed]);
    SentOneMore(lib, p.a, signed, p.b);
    SendingKeeps(lib, p, x1, Pack(lib, signed));
    assert Act(lib, p, Sends(pkt)) == Pair(x1, p.b, p.toA, p.toB + [Pack(lib, signed)]);
  }

  lemma SentOneMore(lib: Library, x: Peer, pkt: Packet, y: Peer)
    ensures Sent(lib, x.(sent := x.sent + [pkt]), y) == Sent(lib, x, y) + [Pack(lib, pkt)]
  {
    assert (x.sent + [pkt])[..|x.sent|] == x.sent;
  }

  // What waits for a peer that is done is the next packet.
  lemma NextPacket(lib: Library, x: Peer, y: Peer, channel: seq<Bytes>)
    requires Flows(lib, x, y, channel) && y.phase.Done? && channel != []
    requires (!x.phase.Done? ==> x.sent == []) && !x.phase.Failed?
    ensures |y.got| < |x.sent| && channel[0] == Pack(lib, x.sent[|y.got|])
  {
    var n := |y.got|;
    SecondIsResponse(lib, x, y);
    assert channel[0] == Sent(lib, x, y)[2 + n];
    PackAllAt(lib, x.sent, n);
  }

  // And it is accepted.
  lemma PacketTaken(lib: Library, x: Peer, y: Peer, channel: seq<Bytes>)
    requires lib.CodecLaw() && lib.SigningLaw() && Knows(lib, x, y) && SentSigned(lib, x)
    requires y.phase.Done? && |y.got| < |x.sent| && channel != [] && channel[0] == Pack(lib, x.sent[|y.got|])
    ensures ReceivePacket(lib, y, channel) == Turn(y.(got := y.got + [x.sent[|y.got|]]), channel[1..], [])
  {
    HopAccepted(lib, x.sent[|y.got|], x.who.signKey);
  }

  lemma KnowsOneMore(lib: Library, x: Peer, y: Peer)
    requires Knows(lib, x, y) && y.phase.Done? && |y.got| < |x.sent|
    ensures var y1 := y.(got := y.got + [x.sent[|y.got|]]);
            Knows(lib, x, y1) && SaidNothing(y, y1) && Taken(y1) == Taken(y) + 1
  {
    assert y.got + [x.sent[|y.got|]] == x.sent[..|y.got| + 1];
  }

  lemma ReceivedPair(lib: Library, p: Pair, x1: Peer)
    requires p.a.phase.Done? && p.toA != []
    requires ReceivePacket(lib, p.a, p.toA) == Turn(x1, p.toA[1..], [])
    ensures Act(lib, p, Receives) == Pair(x1, p.b, p.toA[1..], p.toB)
  {
    assert p.toB + [] == p.toB;
  }

  lemma ReceivesKeep(lib: Library, p: Pair)
    requires lib.CodecLaw() && lib.SigningLaw() && Inv(lib, p) && p.a.phase.Done? && p.toA != []
    ensures Inv(lib, Act(lib, p, Receives))
    ensures Act(lib, p, Receives).a.phase == p.a.phase && Act(lib, p, Receives).b == p.b
  {
    NextPacket(lib, p.b, p.a, p.toA);
    PacketTaken(lib, p.b, p.a, p.toA);
    KnowsOneMore(lib, p.b, p.a);
    var x1 := p.a.(got := p.a.got + [p.b.sent[|p.a.got|]]);
    ReceivedPair(lib, p, x1);
    TakingKeeps(lib, p, x1, 1);
  }

  lemma SwapInv(lib: Library, p: Pair)
    ensures Inv(lib, Swap(p)) <==> Inv(lib, p)
  {
  }

  lemma ActKeeps(lib: Library, p: Pair, action: Action)
    requires lib.CodecLaw() && lib.SigningLaw() && Inv(lib, p) && CanAct(p, action)
    ensures Inv(lib, Act(lib, p, action))
  {
    match action
    case Handshakes => HandshakesKeep(lib, p);
    case Sends(pkt) => SendsKeep(lib, p, pkt);
    case Receives => ReceivesKeep(lib, p);
  }

  lemma MoveKeeps(lib: Library, p: Pair, m: Move)
    requires lib.CodecLaw() && lib.SigningLaw() && Inv(lib, p) && CanMove(p, m)
    ensures Inv(lib, Apply(lib, p, m))
  {
    var q := if m.first then p else Swap(p);
    SwapInv(lib, p);
    ActKeeps(lib, q, m.action);
    SwapInv(lib, Act(lib, q, m.action));
  }

  lemma InitialInv(lib: Library, p: Pair)
    requires Initial(lib, p)
    ensures Inv(lib, p)
  {
  }

  // In every interleaving of two honest peers: neither handshake ever fails or consumes a
  // packet sent after the other side finished, a peer that is done holds the other's signing
  // and encryption keys, and what it has got since is what the other has sent, in order.
  lemma {:induction false} HonestRuns(lib: Library, start: Pair, moves: seq<Move>)
    requires lib.CodecLaw() && lib.SigningLaw() && Initial(lib, start)
    ensures Inv(lib, Run(lib, start, moves))
  {
    if moves == [] {
      InitialInv(lib, start);
    } else {
      var q := Run(lib, start, moves[..|moves| - 1]);
      var m := moves[|moves| - 1];
      HonestRuns(lib, start, moves[..|moves| - 1]);
      if CanMove(q, m) {
        MoveKeeps(lib, q, m);
      }
    }
  }

  /** y has lost nothing of what x sent: it got a part of it in order, and all of it when it
      is done and nothing is under way. */
  predicate GetsAll(x: Peer, y: Peer, channel: seq<Bytes>) {
    && !y.phase.Failed? && y.lost == 0
    && y.got <= x.sent
    && (y.phase.Done? && channel == [] ==> y.got == x.sent)
  }

  lemma FlowGetsAll(lib: Library, x: Peer, y: Peer, channel: seq<Bytes>)
    requires Flows(lib, x, y, channel) && !x.phase.Failed? && (!x.phase.Done? ==> x.sent == [])
    ensures GetsAll(x, y, channel)
  {
    if y.phase.Done? && channel == [] {
      NothingLeft(lib, x, y);
    }
  }

  // So nothing a peer sends after it is done is lost, refused or taken for a part of the
  // other's handshake: in either direction the other gets it all, in order.
  lemma PacketsArriveInOrder(lib: Library, start: Pair, moves: seq<Move>)
    requires lib.CodecLaw() && lib.SigningLaw() && Initial(lib, start)
    ensures var p := Run(lib, start, moves);
            GetsAll(p.a, p.b, p.toB) && GetsAll(p.b, p.a, p.toA)
  {
    HonestRuns(lib, start, moves);
    var p := Run(lib, start, moves);
    FlowGetsAll(lib, p.a, p.b, p.toB);
    FlowGetsAll(lib, p.b, p.a, p.toA);
  }

  lemma NothingLeft(lib: Library, x: Peer, y: Peer)
    requires Flows(lib, x, y, []) && y.phase.Done? && !x.phase.Failed? && (!x.phase.Done? ==> x.sent == [])
    ensures y.got == x.sent
  {
    SecondIsResponse(lib, x, y);
  }

  /** How much of the two handshakes is left. */
  function Left(p: Pair): int {
    8 - Progress(p.a) - Progress(p.b)
  }

  // No interleaving gets stuck: until both are done some handshake step is possible, and
  // each one brings the end nearer; sending and receiving afterwards does not put it off.
  lemma NeverStuck(lib: Library, start: Pair, moves: seq<Move>)
    requires lib.CodecLaw() && lib.SigningLaw() && Initial(lib, start)
    ensures var p := Run(lib, start, moves);
            && Left(p) >= 0
            && (Left(p) == 0 <==> p.a.phase.Done? && p.b.phase.Done?)
            && (Left(p) > 0 ==> CanMove(p, Move(true, Handshakes)) || CanMove(p, Move(false, Handshakes)))
  {
    HonestRuns(lib, start, moves);
    SomeoneCan(lib, Run(lib, start, moves));
  }

  lemma EachMoveCounts(lib: Library, start: Pair, moves: seq<Move>, m: Move)
    requires lib.CodecLaw() && lib.SigningLaw() && Initial(lib, start) && CanMove(Run(lib, start, moves), m)
    ensures var p := Run(lib, start, moves);
            Left(Apply(lib, p, m)) == Left(p) - if m.action.Handshakes? then 1 else 0
  {
    HonestRuns(lib, start, moves);
    MoveCounts(lib, Run(lib, start, moves), m);
  }

  lemma MoveCounts(lib: Library, p: Pair, m: Move)
    requires lib.CodecLaw() && lib.SigningLaw() && Inv(lib, p) && CanMove(p, m)
    ensures Left(Apply(lib, p, m)) == Left(p) - if m.action.Handshakes? then 1 else 0
  {
    var q := if m.first then p else Swap(p);
    SwapInv(lib, p);
    match m.action
    case Handshakes => HandshakesKeep(lib, q);
    case Sends(_) =>
    case Receives => ReceivesKeep(lib, q);
  }

  lemma SomeoneCan(lib: Library, p: Pair)
    requires Inv(lib, p)
    ensures Left(p) >= 0 && (Left(p) == 0 <==> p.a.phase.Done? && p.b.phase.Done?)
    ensures Left(p) > 0 ==> CanAdvance(p.a, p.toA) || CanAdvance(p.b, p.toB)
  {
    if Left(p) > 0 && !(p.a.phase.Start? || p.a.phase.Asked? || p.b.phase.Start? || p.b.phase.Asked?) {
      Waiting(lib, p);
    }
  }

  // Two peers cannot wait for each other: one of the two channels holds something.
  lemma Waiting(lib: Library, p: Pair)
    requires Inv(lib, p) && (p.a.phase.Challenged? || p.a.phase.Answered? || p.a.phase.Done?)
    requires p.b.phase.Challenged? || p.b.phase.Answered? || p.b.phase.Done?
    requires !(p.a.phase.Done? && p.b.phase.Done?)
    ensures CanAdvance(p.a, p.toA) || CanAdvance(p.b, p.toB)
  {
    assert |Sent(lib, p.a, p.b)| >= (if Progress(p.a) >= 3 then 2 else 1);
    assert |Sent(lib, p.b, p.a)| >= (if Progress(p.b) >= 3 then 2 else 1);
  }

  // When both are done, each knows the other by the keys that are really the other's.
  lemma BothKnowEachOther(lib: Library, start: Pair, moves: seq<Move>)
    requires lib.CodecLaw() && lib.SigningLaw() && Initial(lib, start)
    requires Left(Run(lib, start, moves)) == 0
    ensures var p := Run(lib, start, moves);
            p.a.phase == Done(KeysOf(lib, start.b)) && p.b.phase == Done(KeysOf(lib, start.a))
  {
    NeverStuck(lib, start, moves);
    HonestRuns(lib, start, moves);
    SamePeople(lib, start, moves);
  }

  lemma {:induction false} SamePeople(lib: Library, start: Pair, moves: seq<Move>)
    ensures Run(lib, start, moves).a.who == start.a.who && Run(lib, start, moves).b.who == start.b.who
  {
    if moves != [] {
      SamePeople(lib, start, moves[..|moves| - 1]);
    }
  }
}
