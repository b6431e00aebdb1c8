# Verified model of warp-socks

warp-socks is a local SOCKS5/HTTP proxy that sends traffic through Cloudflare WARP, over MASQUE (HTTP/3 or HTTP/2) or
over WireGuard with a user-space network stack. This project models the parts where the program decodes bytes it did
not write, keeps counted resources over concurrent tasks, or promises something about a whole run, and proves those
promises in Dafny 4.11. `dafny verify dfyconfig.toml` checks everything.

## How the model is laid out

- `Bits`, `Spans`, `Frames`, `Subsequence`, `Utf8`, `Outcome`: bytes and bit strings, spans of a buffer, the
  type-length-payload shape, the subsequence order, UTF-8 against its encoder, option and result types.
- `PrefixCode`, `Huffman`: the accumulator decoder, first for any complete prefix code, then with the 257-entry static
  table (Appendix B of RFC 7541), which is proved to be one.
- `PrefixInteger`, `Qpack`: prefix integers (section 5.1 of RFC 7541) and field sections (section 4.5 of RFC 9204).
- `Varint`, `Capsule`, `H3`: variable-length integers (section 16 of RFC 9000), capsules over HTTP/2 and frames over
  HTTP/3.
- `Reconnect`, `UdpEgress`, `Outlet`: concurrent protocols as state machines. A run is a sequence of events and the
  states between them; every result speaks of every state of every run.
- `Ports`, `PacketQueues`: the socket table and the bounded packet queues, as classes that change in place.
- `Dns`, `Caches`, `Endpoints`: DNS messages, the two answer caches, the order in which WireGuard endpoints are tried.

Decoders are stated against grammars, not against other decoders. A grammar gives the pieces of a message, when they
are valid, and their bytes; it is proved unambiguous; a decoder's contract then says that it answers what every
reading of the input means, and fails exactly when there is none. Bounds need no separate statement: an index outside a
buffer does not verify. Loops over shared state, such as the UDP sender, are methods that perform the steps of the
state machine, so that what they leave behind is covered by the invariants of the runs.

The environment (sockets, TLS, clocks, schedulers, other tasks) enters as arguments or as events that may happen
whenever they are possible. Time is a number supplied by the caller. Shifts and masks are written as division and
remainder by powers of two, and the width of a machine integer appears where it matters.

Two things the code does that its surroundings do not suggest:

- Refreshing a key in the resolver's cache while the table is full and nothing has expired empties the table
  (`Caches.DnsCache.Put` has the exact condition, `Caches.RefreshEmptiesTable` a run); the DNS-over-HTTPS cache gives up
  one entry at most, and none for a key it already has.
- A prefix integer is accepted with nine continuation digits, so it can exceed 2^63 by a little but never 64 bits;
  `PrefixInteger.IntegerRoundTrip` gives the exact bound.

## Model

| member | source | states |
|---|---|---|
| PrefixCode.Decode | src/outbound/masque/huffman.rs:274-304 | for any complete prefix code and any input of any length, the result is a text if and only if the input is the concatenated codes of that text padded with fewer than eight one-bits; every other input is an error |
| PrefixCode.Drain | src/outbound/masque/huffman.rs:283-290 | taking symbols off the accumulator keeps output and leftover bits equal to the input read so far, stops only when no code is left, and stops on the EOS code only for inputs that encode nothing |
| PrefixCode.CheckPadding | src/outbound/masque/huffman.rs:293-303 | the final test accepts exactly the inputs that are encodings |
| PrefixCode.MatchSymbol | src/outbound/masque/huffman.rs:309-321 | finds an entry whose code starts the held bits, or shows there is none |
| PrefixCode.CandidateIsPrefix | src/outbound/masque/huffman.rs:309-321 | the shifted and masked accumulator equals a code if and only if the code starts the held bit string |
| PrefixCode.DrainedIsShort | src/outbound/masque/huffman.rs:279-291 | at most 29 bits stay behind once no code matches |
| PrefixCode.ShiftIn | src/outbound/masque/huffman.rs:279-281 | shifting in a byte loses no bit of the 64-bit accumulator, for inputs of any length |
| PrefixCode.EosRejected | src/outbound/masque/huffman.rs:284-286 | no text and padding continues with a whole EOS code |
| PrefixCode.TailRejected | src/outbound/masque/huffman.rs:293-303 | bits that match no code complete an encoding only as fewer than eight one-bits after exactly the text read so far |
| PrefixCode.Aligned | src/outbound/masque/huffman.rs:274-304 | symbols already taken are a beginning of every text that has the same bits |
| PrefixCode.EncodeInjective | src/outbound/masque/huffman.rs:274-304 | different texts have different encodings |
| Huffman.TableIsCanonical | src/outbound/masque/huffman.rs:10-268 | every one of the 257 entries lies in the canonical interval of its length and names its own symbol |
| Huffman.RunsAreTable | src/outbound/masque/huffman.rs:10-268 | every code word of a canonical interval is an entry of the table, so the intervals hold nothing else |
| Huffman.NoGap | src/outbound/masque/huffman.rs:10-268 | every 30-bit word falls into an interval: the table is complete |
| Huffman.NoOverlap | src/outbound/masque/huffman.rs:10-268 | no 30-bit word falls into two intervals: the code is prefix-free |
| Huffman.AtMostOne | src/outbound/masque/huffman.rs:309-321 | at most one entry starts a bit string, so the first match is the only one |
| Huffman.CanonicalOrder | src/outbound/masque/huffman.rs:10-268 | of two symbols with codes of the same length the larger has the larger code, so the lengths, listed in the next rows, determine the table |
| Huffman.CodesOf5To7 | src/outbound/masque/huffman.rs:10-268 | exactly the listed symbols have codes of 5, 6 and 7 bits |
| Huffman.CodesOf8To11 | src/outbound/masque/huffman.rs:10-268 | exactly the listed symbols have codes of 8, 10 and 11 bits |
| Huffman.CodesOf12To15 | src/outbound/masque/huffman.rs:10-268 | exactly the listed symbols have codes of 12 to 15 bits |
| Huffman.CodesOf19To21 | src/outbound/masque/huffman.rs:10-268 | exactly the listed symbols have codes of 19, 20 and 21 bits |
| Huffman.CodesOf22And23 | src/outbound/masque/huffman.rs:10-268 | exactly the listed symbols have codes of 22 and 23 bits |
| Huffman.CodesOf24To26 | src/outbound/masque/huffman.rs:10-268 | exactly the listed symbols have codes of 24, 25 and 26 bits |
| Huffman.CodesOf27 | src/outbound/masque/huffman.rs:10-268 | exactly the listed symbols have codes of 27 bits |
| Huffman.CodesOf28And30 | src/outbound/masque/huffman.rs:10-268 | exactly the listed symbols have codes of 28 and 30 bits |
| Huffman.TableIsPrefixCode | src/outbound/masque/huffman.rs:10-268 | the static table is a complete prefix code of at most 30 bits whose EOS is all ones |
| Huffman.Decode | src/outbound/masque/huffman.rs:274-304 | with the static table the decoder is the exact inverse of the encoder of section 5.2 of RFC 7541 |
| Huffman.CodingUnique | src/outbound/masque/huffman.rs:274-304 | an input encodes at most one text |
| PrefixInteger.Full | src/outbound/masque/qpack.rs:231 | the value that announces continuation bytes is 2^bits - 1, for every width from 1 to 8 |
| PrefixInteger.DecodeInteger | src/outbound/masque/qpack.rs:230-258 | at any position of any buffer and for every prefix width, returns the value and end of the prefix integer there, or an error exactly when none starts there; the arithmetic is 64-bit and never wraps, on accepted and rejected inputs alike |
| PrefixInteger.AddDigit | src/outbound/masque/qpack.rs:246-248 | adding the next digit modulo 2^64, the shift included, gives the exact sum |
| PrefixInteger.RunningSumFits | src/outbound/masque/qpack.rs:242-256 | after any nine digits, whatever follows, prefix and digits together are below 2^63 + 256 |
| PrefixInteger.EncodeInteger | src/outbound/masque/qpack.rs:25-38 | appends the integer's bytes and nothing else |
| PrefixInteger.IntegerUnique | src/outbound/masque/qpack.rs:230-258 | only one prefix integer can start at a position |
| PrefixInteger.IntegerFits | src/outbound/masque/qpack.rs:230-258 | every accepted integer is below 2^63 + 256 |
| PrefixInteger.IntegerRoundTrip | src/outbound/masque/qpack.rs:25-38 | what was encoded is read back to the same value if and only if it exceeds the prefix maximum by less than 2^63 |
| PrefixInteger.TooLarge | src/outbound/masque/qpack.rs:230-258 | a larger value is refused wherever it stands and whatever follows |
| Qpack.LineUnique | src/outbound/masque/qpack.rs:126-174 | at most one field line of the grammar starts a byte string |
| Qpack.SectionUnique | src/outbound/masque/qpack.rs:126-174 | equal bytes, equal sections: the grammar is unambiguous |
| Qpack.DecodeString | src/outbound/masque/qpack.rs:200-206 | returns a text if and only if the raw bytes stand for it, plain or Huffman-coded |
| Qpack.ReadSized | src/outbound/masque/qpack.rs:191-198 | a length and the bytes it announces, inside the payload and without overflow, or an error exactly when none stand there |
| Qpack.ReadLiteralValue | src/outbound/masque/qpack.rs:177-188 | the text of the string at a position, or an error exactly when there is none |
| Qpack.ReadLine | src/outbound/masque/qpack.rs:134-171 | reads one line, moves strictly forward, takes in what the line says, and fails exactly when no line stands there |
| Qpack.DecodeHeaders | src/outbound/masque/qpack.rs:126-174 | on any input, answers what the section means for every section it can be read as, and succeeds only if it is one |
| Qpack.StatusesAscend | src/outbound/masque/qpack.rs:209-227 | inside each of the two runs of status indices, 24 to 28 and 63 to 71, a larger index has a larger status |
| Qpack.StatusListed | src/outbound/masque/qpack.rs:209-227 | exactly these indices have a status, the first run one of 103, 200, 304, 404, 503, the second one of 100, 204, 206, 302, 400, 403, 421, 425, 500 |
| Qpack.StatusFound | src/outbound/masque/qpack.rs:209-227 | every one of these codes is found in its run; with the two rows above this leaves one assignment |
| Qpack.ColoIsText | src/outbound/masque/qpack.rs:165-167 | a cf-warp-colo value is kept unchanged exactly when it is the UTF-8 encoding of some characters, and otherwise gives nothing |
| Utf8.ValidIffEncoded | src/outbound/masque/qpack.rs:165-167 | the byte-wise test for UTF-8 accepts exactly the encodings of sequences of characters by section 3 of RFC 3629 |
| Qpack.WireIsValid | src/outbound/masque/qpack.rs:126-227 | every field a peer can send, indexed, by name reference or literal, plain or Huffman, with integers up to the largest a reader accepts, is a line of the grammar with that field's meaning |
| Qpack.ResponseRoundTrip | src/outbound/masque/qpack.rs:126-227 | a section of any such fields, with any readable insert count and base of either sign, is answered with its last known indexed status and the last valid cf-warp-colo value, or an error when it has no status |
| Qpack.EncodeConnectRequest | src/outbound/masque/qpack.rs:63-84 | writes the section of the three request fields |
| Qpack.ConnectRecovered | src/outbound/masque/qpack.rs:63-84 | whoever reads the request by the grammar finds the CONNECT method, this authority, this token, all by static reference with the token never to be indexed, and nothing else |
| Varint.ReadWrite | src/outbound/masque/varint.rs:5-16 | writing then reading returns the value and its length, whatever follows |
| Varint.ReadValue | src/outbound/masque/varint.rs:12-16 | the length and value of every integer in plain figures, for each of the four sizes, and nothing when bytes are missing |
| Varint.ReadExtends | src/outbound/masque/varint.rs:12-16 | more input never changes what was read |
| Varint.ReadPart | src/outbound/masque/varint.rs:12-16 | a cut integer is never taken for a shorter one |
| Capsule.ParseAppend | src/outbound/masque/h2.rs:244-283 | parsing a stream in two steps, keeping the leftover, gives the packets and leftover of parsing it at once |
| Capsule.RestIsIncomplete | src/outbound/masque/h2.rs:252-263 | what is left over holds no whole capsule |
| Capsule.ReadHead | src/outbound/masque/h2.rs:252-264 | the header check at a position agrees with the whole-stream parser |
| Capsule.Receiver.Feed | src/outbound/masque/h2.rs:245-283 | after each chunk the packets offered are those of the whole stream so far and the buffer is exactly its unparsed suffix; size and length errors occur exactly when stated, and the end by an abandoned queue exactly when the queue says so |
| Capsule.Receiver.Take | src/outbound/masque/h2.rs:265-280 | a DATAGRAM payload is offered without its zero context byte if it is IPv4 or IPv6, other capsules are skipped |
| Capsule.Receiver.Offer | src/outbound/masque/h2.rs:275-279 | a full queue loses only this packet, so what is delivered stays an in-order subsequence of what was offered |
| Capsule.Receive | src/outbound/masque/h2.rs:240-286 | for any cutting of a stream into chunks, the packets and leftover are those of the stream, and the size error comes only from a chunk that does not fit |
| Capsule.PrefixParse | src/outbound/masque/h2.rs:252-283 | any prefix of a stream of capsules parses to whole capsules and a strict prefix of the next |
| Capsule.NeverOverflows | src/outbound/masque/h2.rs:248-250 | with chunks of at most C bytes and capsules of at most 256 KiB - C + 1 bytes no chunk is refused for size |
| Capsule.BoundIsTight | src/outbound/masque/h2.rs:248-250 | one byte more and some cutting is refused |
| Capsule.SendCapsule | src/outbound/masque/h2.rs:222-234 | whatever capacity the stream grants, the chunks sent join to a prefix of the capsule, and to all of it on success |
| Capsule.SendPackets | src/outbound/masque/h2.rs:210-238 | success means every packet's capsule went out whole and in order; failure names how far it came, and is due to the first packet over 1280 bytes or to a closed stream, whichever comes first |
| Capsule.UnchangedIffIp | src/outbound/masque/h2.rs:265-274 | a datagram payload comes out as it went in if and only if it is IPv4 or IPv6 |
| Capsule.ContextDropped | src/outbound/masque/h2.rs:265-274 | behind a zero context byte a packet comes out alone, without that byte, if and only if it is IPv4 or IPv6 |
| Capsule.CarriedAsMeant | src/outbound/masque/h2.rs:265-274 | any capsule a peer can send, datagram with or without context byte or another type, carries the packet meant, if that is IP, and nothing otherwise |
| Capsule.TunnelRoundTrip | src/outbound/masque/h2.rs:210-286 | however the sent bytes are cut again, the receiver offers the original packets in order, keeps nothing back and never overflows |
| Capsule.MixedRoundTrip | src/outbound/masque/h2.rs:240-286 | a stream of such capsules in any mixture, in any integer sizes and cut in any way, gives exactly its IP packets in order and leaves nothing over |
| H3.DemuxFrames | src/outbound/masque/mod.rs:394-418 | a stream of whole frames, unknown types between them, carries the joined DATA payloads and ends cleanly |
| H3.CleanIsFrames | src/outbound/masque/mod.rs:394-418 | a stream that ends cleanly is a whole number of frames, so nothing cut short is taken for complete |
| H3.Source.ReadVarintOrEof | src/outbound/masque/mod.rs:549-558 | reads an integer across any fragmentation, tells the end at a boundary from the end inside |
| H3.DrainDownload | src/outbound/masque/mod.rs:394-418 | for any fragmentation writes exactly the DATA payload, a prefix of it on failure, and succeeds only if the stream is a whole number of frames |
| H3.DrainBody | src/outbound/masque/mod.rs:400-415 | one announced payload, arriving in any pieces, is written if it is DATA and discarded otherwise, so that what was written and what the rest of the stream carries still make up the payload of the whole stream |
| H3.DrainUpload | src/outbound/masque/mod.rs:433-448 | for any read sizes frames everything read, once and in order |
| H3.Tunnel | src/outbound/masque/mod.rs:394-448 | when one end uploads, the other downloads, each with its own read sizes, and frames of other types are mixed in or taken out on the way, then if both loops succeed exactly the bytes read are written; otherwise a beginning of them, and some stream broke |
| H3.OthersCarryNothing | src/outbound/masque/mod.rs:411-413 | frames of other types, wherever they stand among the DATA frames, change nothing for the payload |
| H3.DiscardFrame | src/outbound/masque/mod.rs:420-430 | consumes exactly the announced bytes or reports why not |
| H3.ReadHeaders | src/outbound/masque/mod.rs:263-279 | returns the payload of the first HEADERS frame found within the limits, and otherwise fails because the stream broke or has none |
| H3.ReadNext | src/outbound/masque/mod.rs:265-277 | one round of the search takes the response, skips exactly one frame or fails, for any fragmentation, as the whole stream dictates |
| H3.HeadersFound | src/outbound/masque/mod.rs:263-293 | behind any frames without HEADERS, the response is found exactly if they are few enough and it is small enough |
| H3.RunIsSound | src/outbound/masque/mod.rs:309-418 | in every interleaving of the pump's reads and writes, the pipe and the reader, what the reader took is a beginning of what was written, and that of the payload; at most 64 KiB wait in the pipe |
| H3.EndMeansComplete | src/outbound/masque/mod.rs:315-418 | a reader whose first terminal result is end-of-file has received every payload byte of a whole number of frames; derived from the steps of the download loop |
| H3.CleanCanComplete | src/outbound/masque/mod.rs:309-418 | for every stream of whole frames there is a run of pump, pipe and reader that ends with end-of-file and the whole payload, so the row above is never empty |
| Reconnect.CompareIsExact | src/outbound/masque/mod.rs:113-114 | comparing stable ids compares connections, even though addresses are reused after deallocation, because the caller still holds its clone |
| Reconnect.RunKeepsInv | src/outbound/masque/mod.rs:100-126 | one holder of the reconnect lock, distinct addresses of live connections, a complete log, and callers whose second connection is newer than the first, in every state of every run |
| Reconnect.ReplacedOnlyWhenSeenClosed | src/outbound/masque/mod.rs:110-119 | the link changes only by the lock holder and only from the connection that caller saw closed |
| Reconnect.ReplacedAtMostOnce | src/outbound/masque/mod.rs:110-119 | no connection is replaced twice, with any number of callers, failed dials and cancellations |
| Reconnect.LogIsComplete | src/outbound/masque/mod.rs:114-120 | the log has exactly the changes of the link |
| Reconnect.SecondCallerDoesNotDial | src/outbound/masque/mod.rs:111-114 | a caller whose connection was replaced meanwhile goes on without dialing |
| Reconnect.OpenedAfterReconnect | src/outbound/masque/mod.rs:101-126 | a stream after a reconnect is opened on the connection that was the link after the caller had found its first connection closed and released the lock, and that connection is newer than the first |
| Reconnect.OpenedAtOnce | src/outbound/masque/mod.rs:101-105 | a stream opened without reconnecting is opened on the link the caller cloned and then found not closed |
| Reconnect.CallEnds | src/outbound/masque/mod.rs:101-126 | a call ends with a stream or its failure, a failed dial or cancellation; a failure on the first connection is final only while that connection is open |
| Reconnect.ClosedIs | src/outbound/masque/mod.rs:101-105 | in every run a connection counts as closed, or as freed, exactly when such an event came earlier |
| Reconnect.CanReconnect | src/outbound/masque/mod.rs:110-126 | from every such state a caller that found its connection closed, and holds the lock or finds it free, can come by its own steps to a newer connection: the link if already replaced, else one it dials |
| UdpEgress.BudgetsConserved | src/socks5.rs:35-43 | over every interleaving, free byte permits plus the payload bytes of all live datagrams are 8 MiB, and free worker permits plus live workers are 128 |
| UdpEgress.NextKeepsInv | src/socks5.rs:254-383 | every step of senders, workers, timeouts, replies and drops keeps routes, channels and orders consistent |
| UdpEgress.RoutesAreSound | src/socks5.rs:261-326 | at most 64 routes; two workers with open channels never serve the same target of an association; an open worker is the one routed to |
| UdpEgress.OneOpenWorker | src/socks5.rs:333-340 | the worker with an open channel for a target is unique |
| UdpEgress.EmittedInOrder | src/socks5.rs:343-383 | by the events of any run, what is sent to a target is an in-order subsequence of what the client offered for it, across worker replacement |
| UdpEgress.RelayedInOrder | src/socks5.rs:343-383 | by the events of any run, every reply the client gets was received by a worker of its own association, and those of one worker are an in-order subsequence of what it received, unchanged |
| UdpEgress.CanDeliver | src/socks5.rs:343-383 | from every state, a worker that has not stopped and holds no reply can send everything in its channel, in order |
| UdpEgress.CanRelay | src/socks5.rs:444-451 | from every state, all replies waiting for the client of a live association can reach it, in order |
| UdpEgress.CanAnswer | src/socks5.rs:359-370 | a reply that fits the free bytes can reach the client of a live association with fewer than 64 replies waiting, behind all of those |
| UdpEgress.ReplyDropped | src/socks5.rs:361 | a reply that does not fit is dropped and nothing else changes |
| UdpEgress.CanRetire | src/socks5.rs:284-327 | every worker can stop, close its channel and give back its permit and the bytes of everything it held |
| UdpEgress.DroppedIsQuiet | src/socks5.rs:415-421 | once an association is dropped, nothing more is taken from its client or relayed to it |
| UdpEgress.CanStartAndDrop | src/socks5.rs:395-421 | a new association takes any datagram, and any association can be dropped, and is then silent, whenever it is not about to send one |
| UdpEgress.ChannelsBounded | src/socks5.rs:36-37 | in every run a target channel holds at most 32 datagrams and a reply channel at most 64 |
| UdpEgress.Egress.Send | src/socks5.rs:254-327 | the outcome is exactly the first limit met after closed routes are dropped (bytes, channel, targets, workers); a refusal changes nothing but the record of the offer; otherwise the datagram is at the end of its target's channel or alone in that of a new worker, its bytes are taken, and no other worker or association is touched |
| UdpEgress.Egress.Prune | src/socks5.rs:333-340 | keeps exactly the routes whose channel is open and changes nothing else |
| Ports.LapCovers | src/netstack.rs:416-446 | one lap of the cursor meets every ephemeral port |
| Ports.SelectPort | src/netstack.rs:416-446 | returns the first free port in cyclic order from the cursor and fails exactly when all 50000 are used |
| Ports.ReuseAfterLap | src/netstack.rs:354-366 | an ephemeral port is granted again only after a whole lap |
| Ports.SocketTable.AllocatePort | src/netstack.rs:354-381 | the port granted is in use by no socket of that transport and family; failure leaves the cursor where it was |
| Ports.SocketTable.Add | src/netstack.rs:462-509 | a new socket takes a free slot and keeps ports distinct |
| Ports.SocketTable.ConnectTcp | src/netstack.rs:462-481 | fails exactly when no ephemeral port is free or the stack refuses, and then leaves no socket behind; success puts one TCP socket into a free slot, on the first free port from the cursor, and records the grant |
| Ports.SocketTable.NewUdp | src/netstack.rs:483-509 | the same for UDP, where a requested port is taken as it is, fails exactly when in use, and does not move the cursor |
| Ports.SocketTable.DropHandle | src/netstack.rs:525-529 | dropping a handle frees its slot and its port |
| PacketQueues.OuterQueue.SendOrQueue | src/tunnel.rs:180-199 | a packet is sent, queued behind all earlier ones, or lost, and lost only at 256 waiting, where it is the one lost, or on a broken socket |
| PacketQueues.OuterQueue.Flush | src/tunnel.rs:201-224 | exactly the packets before the socket's first answer other than yes go out, in order, and none is lost; done, pending and failure are that answer |
| PacketQueues.BufferDevice.ConsumeTx | src/netstack.rs:302-317 | the device queue takes a packet while it has room and otherwise drops and counts it |
| PacketQueues.BufferDevice.Receive | src/netstack.rs:323-330 | packets are handed over in the order they came |
| PacketQueues.BufferDevice.PollSend | src/netstack.rs:775-787 | exactly the packets before the tunnel's first answer other than yes are handed over, in order; a packet refused by a ready tunnel is lost, alone, and the result is that answer or the flush behind the last packet |
| PacketQueues.BufferDevice.PollReceive | src/netstack.rs:675-689 | takes arrivals in order up to the burst bound and stops only there |
| PacketQueues.BufferDevice.TakeDropped | src/netstack.rs:714 | every drop is reported exactly once |
| PacketQueues.Enqueue | src/tunnel.rs:191-199 | a queue that accounts for every packet offered (emitted, waiting or lost) and keeps their order still does so when one more joins at the back |
| PacketQueues.MovedKept | src/tunnel.rs:201-224 | the same accounting and order hold after any number of the oldest waiting packets went out |
| PacketQueues.Lose | src/netstack.rs:775-787 | the same accounting and order hold after the oldest waiting packet is lost |
| PacketQueues.PatchReserved | src/tunnel.rs:163-167 | patching in place writes the three reserved bytes of packets long enough and nothing else |
| PacketQueues.StripUndoesPatch | src/tunnel.rs:163-173 | stripping undoes patching if and only if the reserved bytes were zero |
| PacketQueues.DecapErrorTracker.Observe | src/tunnel.rs:50-67 | the first error and then at most one in ten seconds is reported, and reported plus suppressed errors are all errors |
| Outlet.ThresholdRecovery.OnFailure | src/health/recovery.rs:31-39 | asks for exit exactly when the trailing failures reach the threshold |
| Outlet.ThresholdRecovery.OnSuccess | src/health/recovery.rs:27-29 | a success ends the run of failures |
| Outlet.ReachedExactly | src/health/recovery.rs:31-39 | the threshold is met with equality, by a failure |
| Outlet.RunKeepsInv | src/supervisor.rs:104-191 | phase, published cell, heartbeat, probes, permits and connections agree in every state of every run |
| Outlet.PublishedAfterProbe | src/supervisor.rs:383-406 | a published outlet passed a probe earlier, in its own preparation round |
| Outlet.ResultsHappened | src/supervisor.rs:423-463 | while an outlet is watched, the results counted are exactly the probe outcomes among the events since its watch began |
| Outlet.LeftFor | src/supervisor.rs:436-462 | a watch ends with an event: the outlet died, or this failed probe completes exactly the threshold in a row, and before it the threshold was not reached |
| Outlet.WithdrawnForCause | src/supervisor.rs:137-160 | an outlet leaves the cell only after four earlier events of the run, in this order: the probe that let it in with its threshold, its publication, the start of its watch, and its death or the failure that completes exactly that many in a row |
| Outlet.QuietWhileRecovering | src/supervisor.rs:104-191 | during preparation and backoff the cell is empty, the heartbeat zero and the pause between 2 and 32 seconds |
| Outlet.DispatchIsCurrentOrCancelled | src/mixed.rs:116-192 | a dispatching connection uses the outlet in the cell or can be cancelled now |
| Outlet.ConnectionsBounded | src/mixed.rs:116-192 | connections and free permits sum to 64 over all listeners |
| Outlet.RecordsAre | src/supervisor.rs:104-191 | in every run the cell's version counts its changes, the failure count the pauses since the last publication, and the heartbeat is the clock of the last success since the last invalidation |
| Outlet.CountsAre | src/supervisor.rs:104-191 | rounds and outlets are counted one by one, and the loop has ended exactly when a heartbeat could not be reset |
| Outlet.AcceptsUpToLimit | src/mixed.rs:127-161 | a client is taken in exactly when fewer than 64 connections are alive, and otherwise changes nothing |
| Outlet.BackoffDoubles | src/supervisor.rs:182-188 | the ceiling of the pause is 2, 4, 8, 16 and then 32 seconds, by the number of pauses since an outlet was last published |
| Outlet.CancelledForCause | src/mixed.rs:158-192 | a connection in service is cancelled only after the cell changed since it took its outlet from there |
| Outlet.CanPublish | src/supervisor.rs:104-191 | from every state of a run whose loop has not exited an outlet can come to be published |
| Outlet.CanServe | src/mixed.rs:161-182 | while the loop has not ended, every waiting connection can come to be served by the outlet in the cell |
| Outlet.CanClose | src/mixed.rs:161-192 | every connection can end, whatever the loop does, and then gives back its permit and changes nothing else |
| Outlet.FailuresWithdraw | src/supervisor.rs:436-462 | from any state of a watch, exactly as many failing probes as the threshold still allows end it, and no fewer |
| Outlet.DeathWithdraws | src/supervisor.rs:137-160 | a watched outlet that dies leaves the cell |
| Outlet.CanRetry | src/supervisor.rs:104-191 | a failed candidate makes way for a new one and a failed preparation for a new round |
| Dns.JoinSplit | src/dns.rs:92-98 | labels joined with dots are the name they were split from |
| Dns.NameUnique | src/dns.rs:108-125 | only one name, plain or ending in a compression pointer, can be read at a position |
| Dns.SkipName | src/dns.rs:108-125 | on any buffer and position, lands right behind the name there and fails exactly when there is none |
| Dns.EncodeLabels | src/dns.rs:92-98 | appends every label with its length, or refuses exactly when one is empty or longer than 63 bytes |
| Dns.EncodeDnsQuery | src/dns.rs:81-104 | accepts exactly the names of 1 to 253 bytes after trailing dots with labels of 1 to 63, and writes header, name, type and class |
| Dns.QueryFields | src/dns.rs:81-104 | the query has this identifier, asks for recursion and has one question, of this type and class IN |
| Dns.QueryShape | src/dns.rs:81-125 | the query is 18 bytes longer than the trimmed name and at most 271; skipping its name lands four bytes before the end; any reader of the name gets dot-free labels that rejoin to it |
| Dns.QueryInjective | src/dns.rs:81-104 | names with the same query differ only in trailing dots |
| Dns.ReadAnswer | src/dns.rs:168-178 | one record with its type, TTL and data inside the buffer, or an error exactly when none stands there |
| Dns.SkipQuestions | src/dns.rs:153-163 | skips exactly the announced questions, or shows that they are not there |
| Dns.ReadAnswers | src/dns.rs:165-198 | exactly the addresses asked for, in order, with their least TTL, or a proof that the announced records are not there |
| Dns.ItemsAgree | src/dns.rs:156-198 | two readings of a section with equally many entries are the same |
| Dns.ParseDnsResponse | src/dns.rs:129-201 | every buffer is refused or read: an answer comes exactly when identifier and flags are acceptable and the message reads as the sections it announces, and it is what that one reading says |
| Dns.ResponseReads | src/dns.rs:129-201 | any response written section after section, with any names, types and data and anything behind it, is read back as those sections |
| Dns.U32 | src/dns.rs:173 | four bytes are read as a number in network order |
| Dns.HeaderRead | src/dns.rs:134-154 | a header written field by field is accepted exactly when it answers this query, is a response, not truncated and without error code; both counts are read as written |
| Dns.RecordsAnswer | src/dns.rs:165-198 | written records are read as the addresses of those asked for, in order, with the least of their TTL numbers |
| Dns.ResponseRoundTrip | src/dns.rs:129-201 | a response written from header, questions and records (name, type, class, TTL number, data), whatever follows, is answered with the addresses asked for and the least of their TTL numbers, and refused exactly for its header |
| Caches.DnsCache.Get | src/dns.rs:53-57 | a hit is the last store for the key, not yet older than its lifetime clamped to 5 and 300 seconds; with fewer than 512 keys ever stored a miss is exact too |
| Caches.DnsCache.Put | src/dns.rs:61-78 | at most 512 entries; live entries of other keys go only when the table is full and nothing has expired, and then all go |
| Caches.LifetimeInSeconds | src/dns.rs:62 | a lifetime in seconds is held to between 5 and 300 seconds |
| Caches.RefreshEmptiesTable | src/dns.rs:61-78 | a run of 512 stores and one refresh that leaves a single entry although none has expired |
| Caches.DohCache.Cached | src/outbound/masque/doh.rs:65-75 | a hit is the last store for the key within its clamped lifetime; with at most 512 keys ever stored a miss is exact too; an expired entry is removed |
| Caches.DohCache.Store | src/outbound/masque/doh.rs:77-99 | at most 512 entries; a live entry goes only when a new key meets 512 live ones, alone, and no entry expires before it |
| Caches.EarliestExpiry | src/outbound/masque/doh.rs:83-86 | the victim expires no later than any other |
| Caches.PutKept | src/dns.rs:61-78 | storing over any permitted remainder keeps the table in agreement with everything ever stored |
| Caches.StoreKept | src/outbound/masque/doh.rs:77-99 | storing keeps the table in agreement with everything ever stored, and nothing live is missing while at most 512 keys were ever stored |
| Endpoints.DedupPreserveOrder | src/endpoint/source.rs:63-69 | keeps every item once, in the order of first occurrences |
| Endpoints.PlanCandidates | src/endpoint/source.rs:87-99 | the plan has every endpoint of the pool once, ready before cooling, pool order inside each group except that the last good one leads its group |
| Endpoints.PlanUnique | src/endpoint/source.rs:87-99 | only one list is such a plan |
| Endpoints.PlanIsDuplicateFree | src/endpoint/source.rs:87-99 | no endpoint is tried twice |
| Endpoints.LeaderPosition | src/endpoint/source.rs:87-99 | the last good endpoint comes first, or, when it is cooling itself, right behind all ready ones |
| Endpoints.EndpointStore.PruneCooldowns | src/endpoint/state.rs:55-63 | dropping expired cooldowns changes no later answer |
| Endpoints.EndpointStore.RecordSuccess | src/endpoint/state.rs:106-110 | the endpoint is ready at every time and, until something else is recorded, every plan for any pool that has it starts with it; no other endpoint is affected |
| Endpoints.EndpointStore.MarkCooldown | src/endpoint/state.rs:114-118 | the endpoint is cooling exactly until the deadline, and to every question about another endpoint the answer stays the same |
| Endpoints.EndpointStore.PrepareWireguard | src/supervisor.rs:274-308 | tries the plan in order up to the first that works, puts exactly the failed ones on cooldown, and records success or reports that all failed |
| Endpoints.Replan | src/supervisor.rs:283-306 | after a pass that ended at an endpoint, any plan made before the new cooldowns end starts with it and has every failed one behind all ready ones |
| Endpoints.EndpointStore.CoolWithdrawn | src/supervisor.rs:161-175 | after a withdrawal without a region, the WireGuard endpoint in use is cooling until the deadline; in every other case no answer changes |
| Endpoints.ReplanAfterWithdrawal | src/supervisor.rs:161-175 | a plan made before that cooldown ends has the withdrawn endpoint behind every ready one and first among the cooling; so it comes first exactly when no endpoint is ready |

## Left out

- Error texts and log lines; an error is a value without a message.
- TLS, certificate pinning, registration, credential storage and the Psiphon transport.
- SOCKS5, SOCKS4 and HTTP proxy handshakes, the UDP request header and the byte relay between two streams.
- The internals of QUIC, HTTP/2, WireGuard and TCP; their calls appear as results that may be anything the caller must expect.
- The HTTP exchange of DNS over HTTPS and the retry loop around a DNS query.
- Parsing and normalising endpoints and reading the candidate list; planning starts from any pool.
- Persistence of endpoint state as JSON, and failures to save it.
- Data-plane counters other than dropped packets, and log throttling other than decapsulation errors.
- Fairness; runs say what has happened and what can still happen, not that something must.
- Reads with an empty buffer and polls that return pending change nothing and are not events.
- DecodeHeaders: payloads longer than 2^63 - 1 bytes, which no 64-bit slice has, are not covered.
- Receive: the packet queue's capacity is not modelled; a full or closed queue may be met at any packet.
- SendPackets: packets of 2^62 bytes or more, which no length field can hold, are not covered; the MTU test refuses them anyway.
- PlanCandidates: the clock stands still while one plan is made.
- Replan: the endpoint that worked is not the empty text, which no normalised endpoint is.
- MarkCooldown: the sum of time and cooldown is not cut to 64 bits.
- Put: the two clock readings of a store are two arguments in order.
