// The connections that a node registers are those its handshakes make: what the machine takes
// as the peer's answer is what arrives in a run of the handshake.
module Meeting {
  import opened Text
  import opened Primitives
  import opened Protocol
  import opened Auth
  import opened Machine
  import H = Handshake

  /** The answer the other peer gives the first, and the nonce it answers. */
  function AnswerTo(lib: Library, p: H.Pair): Reply {
    Reply(H.Response(lib, p.b, IdOf(lib, p.a.who), p.a.draws.nonce), p.a.draws.nonce)
  }

  lemma AnswerAuthenticates(c: Config, p: H.Pair, expected: Option<string>)
    requires c.lib.CodecLaw() && c.lib.SigningLaw() && Meets(IdOf(c.lib, p.b.who), expected)
    ensures Authenticate(c, AnswerTo(c.lib, p), expected) == Some(PeerConn(c.lib, p.b.who))
  {
    HonestResponse(c.lib, IdOf(c.lib, p.b.who), IdOf(c.lib, p.a.who), p.a.draws.nonce, p.b.who, p.b.draws.id2,
                   p.b.draws.ts, expected);
  }

  // When a peer is done with the handshake, in any interleaving, the answer it received is the
  // other's, and the connection the node makes of it names the other by its own keys - for the
  // side that was called and for the side that called.
  lemma HandshakeConnects(c: Config, s: State, start: H.Pair, moves: seq<H.Move>)
    requires c.lib.CodecLaw() && c.lib.SigningLaw() && H.Initial(c.lib, start)
    requires H.Run(c.lib, start, moves).a.phase.Done?
    ensures var p := H.Run(c.lib, start, moves);
            var conn := PeerConn(c.lib, start.b.who);
            && |H.Sent(c.lib, p.b, p.a)| >= 2 && H.Sent(c.lib, p.b, p.a)[1] == Pack(c.lib, AnswerTo(c.lib, p).response)
            && ConnOf(p.a.phase.peer) == conn
            && Step(c, s, Accepted(AnswerTo(c.lib, p))) == Register(s, conn)
            && (p.a.expected.Some? && c.luck(s.tick).reached == Some(AnswerTo(c.lib, p)) ==>
                  ConnectToNode(c, s, p.a.expected.value) == (Register(s.(tick := s.tick + 1), conn), Some(conn)))
  {
    var p := H.Run(c.lib, start, moves);
    H.HonestRuns(c.lib, start, moves);
    H.SamePeople(c.lib, start, moves);
    DoneHasAnswer(c.lib, p);
    AnswerConnects(c, s, p);
  }

  lemma DoneHasAnswer(lib: Library, p: H.Pair)
    requires H.Inv(lib, p) && p.a.phase.Done?
    ensures |H.Sent(lib, p.b, p.a)| >= 2 && H.Sent(lib, p.b, p.a)[1] == Pack(lib, AnswerTo(lib, p).response)
    ensures ConnOf(p.a.phase.peer) == PeerConn(lib, p.b.who) && Meets(IdOf(lib, p.b.who), p.a.expected)
  {
    H.SecondIsResponse(lib, p.b, p.a);
  }

  lemma AnswerConnects(c: Config, s: State, p: H.Pair)
    requires c.lib.CodecLaw() && c.lib.SigningLaw() && Meets(IdOf(c.lib, p.b.who), p.a.expected)
    ensures var conn, reply := PeerConn(c.lib, p.b.who), AnswerTo(c.lib, p);
            && Step(c, s, Accepted(reply)) == Register(s, conn)
            && (p.a.expected.Some? && c.luck(s.tick).reached == Some(reply) ==>
                  ConnectToNode(c, s, p.a.expected.value) == (Register(s.(tick := s.tick + 1), conn), Some(conn)))
  {
    AnswerAuthenticates(c, p, None);
    AnswerAuthenticates(c, p, p.a.expected);
  }
}
