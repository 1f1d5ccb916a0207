# Nevod node: a verified model

Nevod is a messaging network of nodes and cells. A node keeps four SQLite tables (nodes,
cells, presence, message buffer) and a registry of authenticated connections. It routes
each message to the node a cell visits, then to its home node, then into a 72-hour buffer
that is flushed when the cell registers; it pings and gossips to keep its node table; and it
signs every packet anew for the next hop. A cell client talks to one node and encrypts its
messages for the recipient.

This project models that behaviour and proves what it keeps, step by step and over whole
runs.

- `Text`, `Primitives`, `Protocol`, `SignedBytes`: encodings, packets, signed bytes, addresses.
- `Tables` (with `Store`), `BufferGc`: the tables, the `Storage` object, and garbage collection.
- `Machine`: one node as a state machine. Whether a send goes through, who answers a
  connection attempt and each fresh id are inputs (`luck`), so every lemma holds for all of them.
- `NodeObjects`: the node's classes with their in-place updates and loops; every method is
  proved to leave the node in the state `Machine` prescribes.
- `Ledger`, `Logs`, `Fates`, `Verdicts`, `FlushDelivery`, `Retention`, `Delivery`, `Invariants`:
  where messages go and how long they wait, in one node's runs.
- `Gate`, `Registrations`, `Replies`, `Wire`: what is let in, what registering writes, what is
  answered, and in what form.
- `Hops`, `Circles`: one message in a network of nodes. `EndToEnd`: its payload.
  `ClientToClient`: both.
- `Network`, `NetworkLanding`, `NetworkDelivery`, `NetworkGossip`, `NetworkSources`,
  `NetworkWitness`: whole nodes in any interleaving, with any number of packets under way.
- `Liveness`, `NodeHistory`: the node table against its history.
- `Merge`, `Rounds`, `Spread`, `Pushes`: gossip.
- `Auth`, `Handshake`, `Meeting`: mutual authentication in every interleaving, and the
  connections it makes.

`dafny verify dfyconfig.toml` checks the whole project.

## What the code does differently from its documents

- README.md:110, CONCEPT.md:91 and TZ_CELL.md:181 let a message for an unreachable cell wait
  72 hours in the buffer. The code does so only on nodes other than the one where the message
  ends: `_send_to_node` reports success for the node itself even when nobody took the packet
  (node/router.py:77-79, 107-111). `Fates.OfflineCellLosesMessage` says exactly when a message
  is lost that way, `Delivery.SentToCellExactly` exactly when it is delivered, and
  `Fates.BufferedExactly` exactly when one is buffered.
- A flush deletes each row after routing it, whether or not the send went through
  (node/router.py:118-120). `FlushDelivery.AllDeliveredExactly` says exactly when all of them leave,
  and `Witnesses.FlushLosesMessage` is a run that loses one.
- An id that is taken, even by an expired row, swallows a message (node/storage.py:290-301):
  `Fates.SwallowedExactly` says exactly when, `Witnesses.SwallowedByExpiredRow` is a run in
  which it happens, and with distinct ids, from an empty node, it never does:
  `Invariants.DistinctIdsNeverSwallowed`.
- The signed bytes do not determine the packet (node/protocol.py:59-68):
  `SignedBytes.CollisionsExact` says exactly which packets share them, among all that are
  signed with ids and times of the usual length, and `SignedBytes.TwinOf` builds such pairs.
- Nothing bounds the number of hops. If sends go through, `Circles.LandsExactly` says exactly
  when a message stops, and `Circles.CircleNeverLands` that circles of any length keep it for
  ever; whatever the sends do, `Circles.RankExactly` says exactly when a bound exists.
  `Witnesses.CircleExists` is how circles come about.

## What is taken as given

- MessagePack unpacking inverts packing (`Library.CodecLaw`).
- Ed25519 signatures are nonempty and verify under the signer's key (`Library.SigningLaw`;
  RFC 8032, section 5.1).
- X25519 exchange commutes (`Library.ExchangeLaw`; RFC 7748, section 6.1).
- ChaCha20-Poly1305 decryption inverts encryption (`Library.AeadLaw`; RFC 8439, section 2.8).
- HKDF (RFC 5869, section 2) is some function of its inputs.

Each lemma names in its `requires` the laws it uses. Besides them:

- A handler runs as one atomic step with one clock reading; handlers do not interleave.
- A failed send transmits nothing.
- A run may set any presence row at any time (`PresenceSet`): no packet handler writes a
  presence row that names another node, but the storage interface can.

## Model

| member | source | states |
|---|---|---|
| Ledger.Conservation | node/router.py:36-120 | Over any run of the node - packets, gossip rounds, cleanups, joins, presence changes in any order - each message is accounted for (sent, handed over, dropped for a named reason, expired or buffered) exactly as often as it was given to the router, over what was held at the start |
| Ledger.ExactlyOnePlace | node/router.py:36-73 | With distinct packet ids, from an empty node: a message was given to the router if and only if it is in the buffer or in one log entry, never both and never two entries |
| Ledger.StepAccount | node/node.py:149-180 | Every event of the node keeps the account of every message: one more copy exactly when the event gives that message to the router, and the buffer stays readable |
| Ledger.RouteAccount | node/router.py:36-73 | Routing a message adds exactly one copy of it to the account and changes the account of no other message |
| Ledger.RouteTried | node/router.py:36-73 | Routing either settles the packet - one new log entry with the same body, all tables as they were - or stores it under its own id and its own cell, with every other row unchanged and nothing logged |
| Ledger.SendToNodeTried | node/router.py:75-97 | Trying a node settles the packet exactly when it reports success, touches no table, and always reports success for the node itself |
| Ledger.RouteAtHome | node/router.py:45-67 | A message for a cell that is at home here and visits nowhere is delivered locally and never put back into the buffer |
| Ledger.FlushAccount | node/router.py:113-120 | The route-then-delete loop removes exactly the listed rows and neither loses nor duplicates a message |
| Ledger.PingAllAccount | node/gossip.py:57-64 | The pings of a round leave the buffer, the cells, the presence rows and the account of every message alone |
| Ledger.RoundAccount | node/gossip.py:57-72 | A whole gossip round, with its cleanup, keeps the account: what leaves the buffer has expired |
| Ledger.GivenOnce | node/router.py:36-38 | With distinct ids a message is given at most once, and once exactly when some event of the run gives it |
| Ledger.LogPlaces | node/router.py:36-120 | A message counted at most once in the log sits in at most one entry, and in one exactly when it is counted |
| Fates.SendToNodeExact | node/router.py:75-97 | Success at a node means exactly: it is this node, or a live connection takes the packet, or the node is listed online, answers the handshake as itself and takes the packet over the new connection |
| Fates.TryNodesExact | node/router.py:58-67 | Visiting node, then home node: success means exactly that not both of them fail |
| Fates.BufferedExactly | node/router.py:58-73 | A packet is put into the buffer if and only if it is for a cell with a presence row, neither of whose nodes takes it - in closed form over tables, connections and outcomes - and its id is free |
| Fates.OfflineCellLosesMessage | node/router.py:99-111 | Contrary to the documents (README.md:110, TZ_CELL.md:181): a message that ends at this node is never buffered, and it is dropped if and only if no handler is set and the cell's own connection, as the tables, connections and outcomes give it in closed form, does not take it |
| Fates.AfterFailure | node/router.py:75-97 | After a failed attempt on a node, the tick and the connections in closed form: a send if there was a connection, a dial if the node is listed online, a send if that got through; the old connection gone, the new one in its place |
| Fates.SwallowedExactly | node/storage.py:290-301 | INSERT OR IGNORE loses a routed packet if and only if it is for a cell with a presence row, neither of whose nodes takes it (same closed form), and its id is in the buffer |
| Verdicts.RouteExactly | node/router.py:36-111 | What routing does to any packet, decided in closed form from the address, the tables, the connections and the outcomes: it leaves once, signed here, over one particular connection, or goes to the handler, or is lost for one particular reason, or waits in the buffer |
| Verdicts.EachFateExactly | node/router.py:36-111 | Each of these fates occurs if and only if it is the one decided |
| Verdicts.NodeMessageExactly | node/router.py:39-43 | A message for a node leaves once, signed here, over a connection of exactly that node if and only if the node can be reached, and is otherwise dropped as unreachable; a message for this node goes to the handler, or is dropped if there is none |
| Verdicts.HandledAndUnknownExactly | node/router.py:45-111 | The handler gets a packet if and only if there is one and the packet is for this node, or for a cell whose way ends here and whose connection does not take it; a packet is dropped for an unknown cell if and only if the cell has neither presence row nor registration |
| Witnesses.OfflineCellExample | node/router.py:107-111 | A run from the empty node - a local registration, then a message - in which a message for the node's own cell, not connected, is lost |
| Witnesses.SwallowedByExpiredRow | node/storage.py:290-301 | A run from the empty node in which a message is lost because an expired row that no cleanup has removed has its id |
| Witnesses.FlushLosesMessage | node/router.py:113-120 | A run from the empty node in which a waiting message is lost although its cell connected and registered in time: the flush could not send it and deleted its row |
| Delivery.SentToCellExactly | node/router.py:36-111 | The counterpart of a lost message: it leaves for its cell if and only if it ends at this node and the cell's connection takes it, where presence rows name nodes |
| Delivery.HandedOver | node/router.py:99-106 | Where a message ends it leaves over exactly the cell's connection, signed by this node, if that takes it, and otherwise over none |
| Delivery.WaitsThenDelivered | node/node.py:236-245 | Over a whole run: a message that was given to the router and had to wait is, once its cell registers within 72 hours and the sends of the flush go through, delivered to the cell, and at every later moment that is the only place where it is |
| Delivery.WaitsThenRead | node/client.py:147-162 | And the cell's client reads the sender's plaintext out of that delivery |
| Logs.LogOnlyGrows | node/router.py:36-120 | In every run the record of what became of packets only grows at its end |
| FlushDelivery.FlushWrites | node/router.py:113-120 | The whole log of a flush, row by row: each stored packet leaves, signed anew, on the cell's connection as long as every send so far went through; after the first failure the rest end at this node |
| FlushDelivery.RegistrationDrains | node/node.py:217-245 | When a cell registers with the key its connection proved, exactly its unexpired rows leave the buffer, other rows stay as they are, none waiting for it remains, and the log is that of the flush |
| FlushDelivery.AllDeliveredExactly | node/node.py:236-245 | All waiting messages are sent on the registered connection if and only if every send of the flush goes through |
| Retention.StepRow | node/storage.py:303-333 | Across any one event a buffered row goes exactly when its own cell registers with a proven key before it expires or a cleanup comes after; otherwise it stays as it is |
| Retention.RowStaysExactly | node/storage.py:290-333 | Over a whole run a row is still there, unchanged, if and only if no event of the run took it out |
| Retention.ParkedFor | node/storage.py:290-301 | A row that routing writes is under the packet's id, for its cell and that cell's home node, and is read at a given time if and only if that is within 72 hours |
| Retention.KeptFor72Hours | node/router.py:69-73 | The 72-hour promise (README.md:110, 124): after any run in which the cell has not registered, a buffered message is still held whole and is read for its cell at exactly the times before 72 hours are over, whatever ids were given meanwhile |
| BufferGc.SameReadsRows | node/storage.py:303-320 | Two buffers answer every get_buffered from time t on alike if and only if their rows unexpired at t are the same |
| BufferGc.CleanupInvisible | node/storage.py:328-333 | Deleting expired messages at t changes no read at t or later |
| BufferGc.InsertVisible | node/storage.py:290-301 | INSERT OR IGNORE keeps two such buffers indistinguishable if and only if the id is taken in both or in neither: an expired row not yet deleted swallows a new message |
| BufferGc.OpKeepsSameReads | node/storage.py:290-333 | Every insert, delete and cleanup keeps indistinguishable buffers so, unless only one of them holds the inserted id |
| BufferGc.CleanedAndUncleanedAgree | node/storage.py:303-333 | A cleaned buffer and the same buffer left alone stay indistinguishable through any later operations that meet no such id |
| BufferGc.FreshIdsAgree | node/storage.py:290-333 | In particular through any operations in clock order that insert only ids absent from the uncleaned buffer |
| Invariants.RegistryBound | node/transport.py:53-74 | In every run each registry key is the peer id of its connection and the hex of the key proven in its handshake, and whatever was sent carries this node's signature |
| Invariants.CellsBoundAndFixed | node/node.py:217-241 | In every run each registered cell is named by the hex of its signing key and keeps its first is_home and registration time, if local registrations name cells so too |
| Invariants.StepCells | node/storage.py:209-222 | Only a registration whose key and id the connection proved, or a local registration, writes the cells table |
| Registrations.ProvenExactly | node/node.py:217-234 | A claim is accepted if and only if the payload holds id and both keys, the key is the one the connection proved and the id the one it goes by; is_home is true unless it is there and false |
| Registrations.StepRegisters | node/storage.py:209-222 | Across any one event: a registration leaves a row with both keys of the claim, the age and is_home of the first registration, and the cell present here and visiting nowhere; no other row changes, and no other event writes a cell |
| Registrations.RowsAreLatest | node/storage.py:209-222 | In every run from a node without cells a cell is in the table if and only if it was registered, with both keys of its latest registration and the time and is_home of its first |
| Gate.ForgedIsDropped | node/transport.py:216-225 | A packet without a signature, or with one that does not verify under the key the peer proved, changes nothing at the node |
| Gate.GarbageEndsConnection | node/transport.py:216-233 | Bytes that are no packet unregister the peer and change nothing else |
| Gate.GenuineIsDispatched | node/transport.py:216-229 | A packet that verifies is dispatched by its type |
| Gate.GivenIsSigned | node/protocol.py:110-115 | In every run each message given to the router was handed in at the node itself, or came over an accepted connection with a signature that verifies under the key its peer id is made of |
| Gate.NothingFromNowhere | node/protocol.py:110-115 | So from an empty node nothing is ever sent on, handed over, dropped or kept that was neither handed in nor signed |
| Replies.PingIsAnswered | node/gossip.py:135-137 | A ping is answered once, over the connection it came by, with a signed pong to its sender that names it |
| Replies.QueryIsAnswered | node/node.py:196-215 | A presence query is answered once from the presence table, home and visited node each under its own key, null where there is none; one without a cell id changes nothing |
| Replies.LeavingForgets | node/node.py:190-194 | A node that leaves is gone from the table and from the registry, and nothing else changes |
| Replies.RemovalForgets | node/node.py:181-188 | A removed node is gone from the table alone; a payload without an id changes nothing |
| Replies.PongIsNews | node/gossip.py:139-141 | A pong resets its sender's row, if there is one, and changes nothing else |
| Replies.JoinMeetsPeer | node/node.py:93-110 | A join registers exactly the peer that authenticates, under the keys it proved, and enters it under the dialled address; otherwise nothing changes |
| Invariants.BufferedWasGiven | node/router.py:69-73 | Whatever is buffered was given to the router earlier in the run |
| Invariants.DistinctIdsNeverSwallowed | node/storage.py:290-301 | With distinct ids, from an empty node, INSERT OR IGNORE never swallows a message in any run |
| Invariants.SentIsAccepted | node/transport.py:137-139 | Every packet a node has sent in a run passes the signature check of any peer that proved the node's key, with all fields as they left |
| Hops.MessageLands | node/router.py:45-97 | If presence entries for a cell name the node itself or one of lower rank, a message started at rank r is forwarded at most r times and comes to rest at exactly one node, as exactly one new copy (followed alone; GivenOnceLands has it among everything else that goes on) |
| Hops.JourneyGoesDown | node/router.py:45-97 | After any number of hops: either still in flight, lower by one rank per forward, with nothing left behind, or landed with one copy; the network stays sound |
| Hops.HopOutcome | node/transport.py:216-229 | One hop: the next node accepts the packet with its body unchanged and nothing rests here, or exactly one copy rests here |
| Hops.SendsDownhill | node/router.py:45-67 | A routed message leaves only for its own cell or for a node that the presence row puts lower |
| Circles.TravelExact | node/router.py:45-97 | The exact course of a message in a network whose sends go through: it still moves after n hops if and only if the first n steps along the rows' targets (visiting node if named, else home) lead on, and is then at the n-th; otherwise it landed where they first do not |
| Circles.LandsExactly | node/router.py:45-97 | Such a message has landed after as many hops as there are nodes, or never lands; and it never lands if and only if its walk comes back to a place within that many steps |
| Circles.CircleNeverLands | node/router.py:58-67 | Nodes whose rows form a circle, of any length, by home or visiting entries, pass the message round for ever: after n hops it is n places on |
| Circles.RankExactly | node/router.py:45-67 | The rank that bounds every journey exists if and only if no path of entries leads from a node back to itself and every home entry has a name |
| Witnesses.CircleExists | node/storage.py:258-272 | Any two or more nodes come to form such a circle, by home or by visiting entries, in runs from the empty node, with every other hypothesis of the landing theorems met |
| Network.NetConservation | node/router.py:36-120 | In every interleaving of whatever the nodes of a network do, with any number of messages under way: the copies of a message at rest, under way and lost on the way are as many as were given to a router from outside, over those at the start |
| Network.HostCount | node/node.py:149-180 | One step of one node: one copy more at rest or under way exactly when the step gives the message to the router |
| Network.ArrivalGives | node/transport.py:216-229 | A packet that arrives at the next node is given to its router with the same body |
| NetworkLanding.ArrivalsBounded | node/router.py:45-97 | In every interleaving in which the cell's presence rows keep descending in rank, all copies of a message together arrive at nodes no more often than the ranks of the nodes where they were given add up to |
| NetworkLanding.GivenOnceLands | node/router.py:45-97 | A message given once at a node of rank r arrives at most r times, and at every moment it is at rest at exactly one node, or under way, or lost on the way |
| NetworkLanding.StepOnlyTo | node/node.py:236-245 | A step that does not give a message to the router sends it, if at all, to its cell |
| NetworkGossip.RunsSpread | node/gossip.py:57-132 | Gossip spreads through a network of whole nodes: along any chain of pushes that rounds sent and that arrived, everything the first node knew at the start the last knows at the end, if nobody is removed |
| NetworkGossip.RelayTeaches | node/gossip.py:96-133 | A push that arrives teaches its receiver exactly what the sender knew after its round |
| NetworkWitness.GossipHappens | node/gossip.py:57-133 | There is a run of two whole nodes, meeting every hypothesis of `NetworkGossip.RunsSpread`, in which a round pushes, the push arrives, and the node that knew nobody knows both |
| NetworkWitness.StartReached | node/node.py:93-110 | And both of them come to its start by runs of their own from empty nodes |
| NetworkDelivery.WaitsThenDelivered | node/node.py:236-245 | In any interleaving: a message given once that has come to wait at some node is sent to its cell when that registers there in time and the flush gets through, and from then on that is its only copy: none under way, at rest elsewhere, or lost |
| NetworkDelivery.DeliveredIsRead | node/client.py:147-162 | And the recipient's client reads the sender's plaintext and address out of it |
| NetworkSources.NobodyMadeUp | node/gossip.py:108-133 | In any interleaving of whole nodes every id that is known or told of was so at the start, or a genesis, a join or gossip from outside the network brought it in |
| NetworkSources.StepPushless | node/node.py:149-180 | Only a gossip round sends gossip packets |
| Liveness.RowRefinesHistory | node/storage.py:136-205 | In every history each row is what the history says: misses are the failed pings since the insert or the last sign of life, offline means three or more, last_seen is that time, address and certificate are those of the latest genesis or join that names it, else of the insert, and type, access, parent and added_at are those of the insert that began the present life |
| Liveness.CleanupExact | node/storage.py:199-205 | A cleanup deletes a row if and only if the history shows at least three failures since the last sign of life and that sign is more than 72 hours old |
| Liveness.Carried | node/storage.py:136-193 | Across any one event a surviving row changes only by news of it or by a failed ping; a merge never touches it |
| Liveness.RemovalPrompt | node/gossip.py:57-67 | Over any tables in which a node's row only goes through failed rounds with their cleanup: offline exactly from its third failure on, and gone exactly from the first round, third failure or later, that comes over 72 hours after its last sign of life |
| Liveness.OwnRowNeverAges | node/gossip.py:61-64 | Without failed pings of oneself, the own row is online with no misses and no cleanup takes it |
| NodeHistory.RunWritesHistory | node/node.py:149-195 | The node table after any run of the node is the table of the history the run writes |
| NodeHistory.RunRowsRefine | node/node.py:93-110 | So every row in every run from an empty table refines that history |
| NodeHistory.RemovalPromptInRuns | node/gossip.py:57-94 | The prompt and sound removal theorem for runs of the whole node, whatever else it does between the rounds; a failed attempt is again read off connections and outcomes |
| NodeHistory.PingsAreProbes | node/gossip.py:61-64 | A round pings every listed node but itself exactly once |
| NodeHistory.PingMeaning | node/gossip.py:74-94 | A ping succeeds if and only if the send over the connection there is goes through, or there is none and both the dial and the send after it succeed; success resets the row, failure adds a miss and turns it offline from the third, no other row changes, and what leaves is one signed ping to that node or nothing |
| Rounds.RoundExact | node/gossip.py:57-106 | What a round sends after its cleanup: exactly one push to each sampled, connected peer whose send goes through, over its connection and in the order of the sample, each a signed packet that is read back as the whole resulting table; the sample is three of the other nodes that were online, or all there are |
| Rounds.TakerExactly | node/gossip.py:96-106 | Which peers those are: the i-th of the sample takes its one push if and only if it is connected and its own attempt goes through |
| NodeHistory.RoundIsSilent | node/gossip.py:57-67 | A round in which the attempt on a node fails - its send over the connection there is, or the dial or the send after it, read off connections and outcomes - is one failed ping of it followed by the cleanup |
| NodeHistory.OwnRowInRuns | node/gossip.py:57-67 | In every run from an empty table, whatever the peers do, the own row, if present, is online with no misses and safe from cleanup |
| Merge.MergeOne | node/gossip.py:116-132 | One turn of the merge loop is one more entry in the first-wins merge |
| Merge.GossipRoundTrip | node/gossip.py:100-114 | A pushed table is read back entry by entry: id, address, type and access, these two as stored, text or bytes |
| Merge.MergeMeaning | node/gossip.py:116-132 | After a merge known rows are untouched whatever their status, an unknown id is in exactly if some word names it and an address for it, and then its address, type and access are those of the first such word, without certificate or parent, online with no misses, seen and added now |
| Merge.MergeIdempotent | node/gossip.py:108-132 | Merging the same list again changes nothing, whatever is wrong with its entries |
| Merge.MergeOrder | node/gossip.py:108-132 | Merging two lists of entries that can be stored in either order gives the same id set |
| Merge.IllegibleOrderMatters | node/gossip.py:116-132 | Of lists with an entry whose type or access cannot be stored (null, a list, a map, an integer beyond 64 bits) the order does matter: it stops the loop unless its id is known |
| Spread.GossipSpreads | node/gossip.py:96-132 | Along any chain of delivered pushes, everything the first node knew at the start the last node knows at the end |
| Spread.DeliveredPush | node/gossip.py:96-114 | What the sender knew when it pushed, the receiver knows once the push has arrived, however much happened in between |
| Spread.KnownOnlyGrow | node/gossip.py:121-132 | In removal-free runs no node ever forgets an id |
| Spread.NobodyMadeUp | node/node.py:101-110 | Every id in any table or in flight was there at the start or was introduced by a genesis or a join |
| Pushes.RoundPushes | node/gossip.py:57-106 | Every gossip packet of a round carries a snapshot of the table the round leaves behind |
| Pushes.PushIsMerged | node/gossip.py:96-133 | A push of a round that reaches another node is accepted there; that node then knows exactly what it knew and every id of the sender's table, its own rows unchanged, each new row with the address, type and access that the sender's row has |
| Auth.VerifyResponse | node/auth.py:61-91 | Whoever is let in is named by the hex of a key under which our nonce verifies, and is the expected node where one is expected |
| Auth.HonestResponse | node/auth.py:40-51 | An honest answer is accepted if and only if it comes from the expected peer, and yields the responder's own two keys |
| Auth.StaleResponse | node/auth.py:77-78 | An answer to another nonce is never accepted |
| Handshake.HonestRuns | node/transport.py:171-214 | In every interleaving of two honest peers over FIFO channels the invariant holds: no side fails, a side that is done holds the other's keys, and it has received a prefix of what the other has sent since |
| Handshake.DoneExactly | node/auth.py:61-91 | Whatever bytes arrive, a peer is done if and only if they are an answer with its own nonce, signed under the key given in it, whose hex is the id, which is the expected one; on anything else it fails |
| Handshake.SaidInHandshake | node/transport.py:171-201 | A peer says nothing but its challenge, to whom it expects, and its answer to the challenge it got |
| Handshake.ReceivedExactly | node/client.py:125-133 | After the handshake a packet counts if and only if it is signed under the key proven there |
| Handshake.NeverStuck | node/client.py:167-199 | Until both sides are done some handshake step is possible |
| Handshake.EachMoveCounts | node/transport.py:171-214 | Each handshake step brings the end nearer by one; traffic afterwards does not put it off |
| Handshake.BothKnowEachOther | node/transport.py:202-214 | When both are done each holds the other's id, signing key and encryption key |
| Meeting.HandshakeConnects | node/transport.py:113-131 | The connection a node registers after an honest handshake, in any interleaving, whether it called or was called, is made of the answer that arrived and names the other peer by its own keys |
| Handshake.PacketsArriveInOrder | node/client.py:125-133 | In both directions: nothing sent after one side is done is taken for part of the other's handshake, refused or reordered; once the channel is empty all of it has arrived |
| Protocol.WireRoundTrip | node/protocol.py:71-98 | Unpacking a packed packet gives the packet back, every field |
| Protocol.BufferRoundTrip | node/router.py:123-137 | A packet survives the buffer except for its version, which becomes the protocol's, and verifies under the same keys as before |
| Wire.WireKeys | node/protocol.py:71-83 | On the wire a packet is the map of exactly its eight fields, each under its key |
| Wire.BufferKeys | node/router.py:123-137 | In the buffer it is the map of the same fields without the version |
| Wire.GossipKeys | node/gossip.py:96-104 | A push is one list with one map per listed row, in order, of exactly its eight fields |
| Wire.EntryExactly | node/gossip.py:116-132 | What an entry of a push says: id and address, and type and access with their defaults, as the columns store them |
| Protocol.HopAccepted | node/transport.py:133-139 | What one hop signs and packs, the next hop unpacks and verifies, all fields but the signature unchanged |
| Protocol.ParseAddrMeaning | node/router.py:24-29 | parse_addr gives (cell, node) if and only if the address is cell, the first '@', node; and (None, addr) if and only if there is no '@' |
| Protocol.AddressRoundTrip | node/router.py:24-29 | hex(cell)@hex(node) parses to exactly that pair for all keys, and determines both keys |
| SignedBytes.SignedBytesExact | node/protocol.py:59-68 | For signed packets with an id of 36 characters, a known type, 64-digit ids, a ten-digit time and any recipient or none: equal signed bytes mean exactly equal id, type and time, and equal bytes between type and time |
| SignedBytes.CollisionsExact | node/protocol.py:59-68 | Signed bytes of two such packets coincide if and only if the packets are equal, or id, type and time are and one moves the head of its payload into the addresses |
| SignedBytes.SenderExact | node/protocol.py:59-68 | If both packets name a recipient, equal signed bytes mean exactly equal id, type, sender and time, and equal recipient-plus-payload |
| SignedBytes.TwinOf | node/protocol.py:59-68 | Every packet for a node has, for each cell id, a payload for which it shares its signed bytes with a packet for that cell |
| SignedBytes.ClientMessagesInjective | node/client.py:110-119 | On the messages a cell client builds the signed bytes determine the packet |
| SignedBytes.SignDataNotInjective | node/protocol.py:59-68 | In general they do not: two different packets of that very shape have the same signed bytes |
| ClientToClient.ArrivesExactly | node/router.py:45-111 | In a network whose sends go through, the cell gets the message if and only if following one entry of each presence row leads, in no more steps than there are nodes, to a node that has it at home and connected |
| ClientToClient.LastSentIsRead | node/client.py:125-162 | And what its client then reads is the sender's plaintext and address |
| ClientToClient.NetworkCopiesRead | node/client.py:125-162 | In a network in any interleaving, every copy that any node has sent gives the recipient the plaintext and the sender's address |
| ClientToClient.SentMessageArrives | node/client.py:103-162 | Through a network whose presence entries descend in rank: the client's message is accepted by its node, forwarded at most rank times, and rests at exactly one node once; there it is handed to the recipient if and only if that node has it at home and its connection takes it; and every copy sent gives the recipient the plaintext and the sender's address |
| EndToEnd.DecryptInvertsEncrypt | node/crypto.py:69-108 | The holder of the private half of the recipient key reads the plaintext back; the nonce and the ephemeral key are sent along as drawn |
| EndToEnd.PlaintextArrives | node/client.py:103-162 | Of the packet alone: what CellClient.send encrypts is read unchanged, with the sender's address, after any number of nodes have verified, optionally stored and reloaded, and re-signed it |
| EndToEnd.WayKeepsBody | node/transport.py:216-229 | No hop on such a way refuses the packet and none changes its body |
| EndToEnd.NodeRunDelivers | node/router.py:99-120 | In any run of a node, forwarding at once or buffering and flushing, every sent copy of a sealed message gives its client the plaintext |
| EndToEnd.SentIsGiven | node/transport.py:216-229 | What one node has sent in a run is given to the next node's router with the same body |
| EndToEnd.RegistrationIsProven | node/client.py:71-84 | The registration a client sends is signed for its own id and node, and is accepted by a node that has proven its key, as a claim of exactly its own id and both keys |
| EndToEnd.CellClient.Connected | node/client.py:64-69 | After the handshake the node is known by the key it proved, and its id is the hex of that key |
| EndToEnd.CellClient.Register | node/client.py:71-84 | The first packet on the connection is the signed registration of this cell |
| EndToEnd.CellClient.Send | node/client.py:103-121 | Refuses without a connection; otherwise puts exactly one signed packet on the socket, with the sealed plaintext and both addresses |
| EndToEnd.CellClient.Receive | node/client.py:125-162 | A turn of the receive loop calls on_message with what `Gate.ClientReadsExactly` says of these bytes, and stops on bytes that are no packet |
| Gate.ClientReadsExactly | node/client.py:125-162 | What a client passes to on_message: a text with an address if and only if the bytes are a message signed under the key its node proved, from that address, whose payload unseals to that text under the client's key |
| EndToEnd.CellClient.Disconnect | node/client.py:91-101 | The client is no longer connected, and nothing else changes |
| Protocol.PacketObject.SignPacket | node/protocol.py:103-107 | Signing replaces the signature of the packet object in place and nothing else |
| Store.Storage.UpsertNode | node/storage.py:136-157 | An insert, or an update of the address and the liveness fields only; type, access, parent and added_at of an existing row stay |
| Store.Storage.UpdateNodePing | node/storage.py:176-193 | Success resets the row, failure counts and turns it offline at the third; an unknown id changes nothing |
| Store.Storage.RemoveNode | node/storage.py:195-197 | The row is gone, all others stay |
| Store.Storage.CleanupExpiredNodes | node/storage.py:199-205 | Exactly the offline rows last seen more than 72 hours ago go |
| Store.Storage.RegisterCell | node/storage.py:209-222 | A new row, or new keys in the existing one: the statement of which `Registrations.StepRegisters` and `Registrations.RowsAreLatest` say what it leaves |
| Store.Storage.UpdatePresence | node/storage.py:258-272 | The presence row is replaced |
| Store.Storage.BufferMessage | node/storage.py:290-301 | A new row that expires after 72 hours, unless the id is taken |
| Store.Storage.GetBuffered | node/storage.py:303-320 | Lists the unexpired rows of the cell, each once, in some order |
| Store.Storage.DeleteBuffered | node/storage.py:322-326 | The row is gone, all others stay |
| Store.Storage.CleanupExpiredMessages | node/storage.py:328-333 | Exactly the expired rows go |
| NodeObjects.ConnectionRegistry.Add | node/transport.py:60-62 | The connection is filed under its peer id, replacing what was there |
| NodeObjects.ConnectionRegistry.Remove | node/transport.py:64-66 | Whatever is filed under the id is gone |
| NodeObjects.ConnectionRegistry.Get | node/transport.py:68-70 | The connection filed under the id, if any |
| NodeObjects.Transport.SendVia | node/transport.py:137-139 | The packet object is signed in place even when the send fails; a send that goes through is the machine's |
| NodeObjects.Transport.SendTo | node/transport.py:141-151 | Leaves the node in the machine's state: without a connection nothing happens, a failed send unregisters it |
| NodeObjects.Transport.AddAuthenticated | node/transport.py:155-163 | Only a peer whose answer verifies is registered |
| NodeObjects.Transport.ConnectToNode | node/transport.py:124-131 | Leaves the node in the machine's state: the peer is registered only if it answers as the expected node |
| NodeObjects.Router.Route | node/router.py:36-73 | Leaves node and packet object in the machine's state, which `Verdicts.EachFateExactly` decides in closed form and about which the conservation lemmas speak |
| NodeObjects.Router.SendToNode | node/router.py:75-97 | Leaves node and packet object in the machine's state |
| NodeObjects.Router.DeliverLocal | node/router.py:99-111 | Leaves node and packet object in the machine's state |
| NodeObjects.Router.FlushBuffer | node/router.py:113-120 | The loop leaves the node in the state of the machine's flush over the rows read before it |
| NodeObjects.GossipEngine.HandleGossip | node/gossip.py:108-133 | The merge loop leaves the first-wins merge, which `Merge.MergeMeaning` gives in closed form, of the decoded list up to the first entry that it cannot read or cannot store; numbers are stored as text, bytes as they are, and type and access of known ids are not looked at |
| NodeObjects.GossipEngine.PingNode | node/gossip.py:74-94 | Leaves the node in the machine's state, which `NodeHistory.PingMeaning` gives in closed form |
| NodeObjects.GossipEngine.PingAll | node/gossip.py:61-64 | The loop over the table pings every node in turn but the own id |
| NodeObjects.GossipEngine.Exchange | node/gossip.py:69-106 | Leaves the node in the machine's state: one push of the table for each sampled peer that is connected and takes it, by `Rounds.RoundExact` |
| NodeObjects.GossipEngine.DrawSample | node/gossip.py:69-70 | Draws distinct peers that were online before the round, three of them or all there are |
| NodeObjects.GossipEngine.Round | node/gossip.py:57-72 | A round is the machine's round, with admissible orders and sample |
| NodeObjects.Node.HandleCellRegister | node/node.py:217-245 | A claim that the connection has not proven changes nothing; a proven one registers, sets presence and flushes |
| NodeObjects.Node.Dispatch | node/node.py:149-180 | Every packet type leaves the node in the machine's state |
| NodeObjects.Node.Receive | node/transport.py:216-233 | One turn of the receive loop: bytes that are no packet, and only those, end the loop, and the node is in the state about which `Gate.ForgedIsDropped`, `Gate.GarbageEndsConnection` and `Gate.GenuineIsDispatched` speak |
| NodeObjects.Node.Join | node/node.py:93-110 | Succeeds exactly for an address with a port and a peer that authenticates, which is then registered and entered in the table |
| NodeObjects.Node.CreateGenesis | node/node.py:54-76 | The first node's own row is in the table |
| NodeObjects.Node.RegisterCellLocally | node/node.py:249-256 | The cell is registered as a home cell and present here |

## Left out

- Ledger.Conservation: counts whole handlers; two flushes that interleave at an `await`, or a presence change in the middle of one, are not modelled.
- Hops.MessageLands: follows one message through a network in which nothing else happens between its hops: no other packet, round, registration or flush at any node. `NetworkLanding.GivenOnceLands` bounds the arrivals and counts the copies with all of that going on; where exactly the message lands then depends on it.
- Circles.TravelExact: for networks whose sends go through; with sends that fail, the course depends on which, and what holds then is `Hops.HopOutcome` and the bounds by rank.
- Network.NetConservation: a packet between two nodes arrives or is lost, in any order; that one connection keeps its packets in order is not used.
- EndToEnd.PlaintextArrives: the way is a list of keys and of stops in the buffer, without tables or connections; `ClientToClient.SentMessageArrives`, `ClientToClient.ArrivesExactly` and `Delivery.WaitsThenRead` are about nodes with both.
- EndToEnd.NodeRunDelivers: about packets that the node has sent; that it sends them is `Delivery.SentToCellExactly` and `Delivery.WaitsThenDelivered`.
- Spread.GossipSpreads: about tables alone; `NetworkGossip.RunsSpread` is about whole nodes. Both are for runs without removals or cleanups that drop a row, and for tables whose ids and addresses are nonempty; ping outcomes, genesis and join may happen at any time.
- Liveness.RowRefinesHistory: for histories of the inserts the code makes (genesis, join, gossip), all of which enter a node online with no misses.
- Handshake.HonestRuns: both peers are honest and their channels keep order; timeouts and a channel that closes half way are not modelled.
- Merge.GossipRoundTrip: of the fields a push carries only id, address, type and access are read back, as in the code.
- NodeObjects.GossipEngine.Exchange: lists the table once for all sampled peers, where the code lists it again for each; the rows are the same within an atomic round, their order may differ.
- NodeObjects.Node.Receive: one turn of the receive loop per call; that the loop ends by itself when the socket closes is the `Closed` event of the machine.
- EndToEnd.CellClient.Send: the socket is a list of the bytes sent and a flag that says whether it is open.
- Fields of the wrong type: a packet with one is treated as no packet, a payload field with one as missing, and a gossip entry whose id or address is one ends the merge; the program sometimes carries such a value further before it fails. Text is a sequence of characters without lone surrogates.
- Errors other than a closed connection (key lengths, low-order points, integers beyond 64 bits) and exceptions raised inside `on_message`.
- Secrecy and everything an adversary could do: no property here is about what a stranger can learn or forge.
- WebSocket and asyncio mechanics, timeouts, task cancellation, starting and stopping; SQLite itself; key files; the command line; the PDF generator; logging.
- `Node.send_message` encrypts as the client does and hands the packet to the router; only the latter is modelled, as the `Submitted` event.
- Features that only the documents describe (votes and certificates, group keys, several devices, hole punching, acknowledgements): there is no code for them.
