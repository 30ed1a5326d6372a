# glosco, modelled in Dafny

glosco tracks network connections. Each client captures packets and turns them
into connection-state messages:
- Active (a flow was seen);
- Ended (closed normally, reset, or connectionless);
- Failed (an ICMP error named the flow);
- Name (DNS questions and answers).

The client encodes each message in a compact binary format and fans it out to
every configured server. A server stores each Active, Ended and Failed message as
one row of its `state` table.

This project models five pieces and proves what they promise:

- `coding.dfy`, the wire codec of `src/coding.rs`.
  - Each encoder is a function from a value to bytes, returning an `Option` where encoding can fail.
  - Each decoder is a function from the unread input to the value and the remaining input, returning None where Rust returns an `io::Error`.
  - Round trips are proved for every type.
  - Also proved are the places where encoding and decoding disagree:
    - the TimedOut close mark is written but refused;
    - vector lengths wrap modulo their width;
    - a connection's `usize` interface keeps only its low 16 bits.
- `observe.dfy`, the connection tracker of `src/observe.rs`.
  - The per-packet dispatch, from Ethernet through IPv4/IPv6 to TCP, UDP, DNS and ICMP, is modelled twice:
    - as imperative methods on an `Observer` class whose `states` map is updated in place;
    - as pure step functions that specify those methods.
  - The ICMP-code-to-Problem numbering, the 30-second heartbeat and the `next` receive loop are included.
  - Proved: the invariant on the state table, and which entries a packet may change.
- `old_tracker.dfy`, the older table-diff tracker of `old_main.rs`.
  - Flows are keyed by a direction-independent canonical connection.
  - Finished flows are pruned.
  - `update` diffs `active` against `last` as Add/Remove events. The proof shows that replaying those events on a copy of `last` rebuilds `active`.
- `sync.dfy`, the client transport of `src/sync.rs`.
  - The hello and the outer frame.
  - The worker's reconnect loop with its back-off.
  - The loop that drains a destination's queue.
  - Fan-out to every destination.
- `server.dfy`, the server's `client_thread` in `src/main.rs`.
  - The identity frame, the frame loop, and the row for each message.
  - An end-to-end lemma: frames a client sends are read back by the server as the expected rows.

`domain.dfy` holds the shared value types and the total order that Rust's
`#[derive(Ord)]` gives them. `utf8.dfy` holds the well-formed UTF-8 check that
`String::from_utf8` performs. `wrappers.dfy` holds the `Option` type.

Inputs that come from the outside world are explicit parameters:
- packets, as the result of the foreign parsers;
- clock readings;
- connect outcomes and write outcomes;
- the bytes of a TCP stream.

A timestamp (`SystemTime`) is an integer count of nanoseconds from the Unix epoch. It is negative before the epoch. Its whole seconds fit a signed 64-bit count, as a Unix `SystemTime`'s do.

Where the design description and the code disagree, the model follows the code:
- `Connection::canonical` keeps the **larger** of a connection and its reverse.
- The back-off first delays the **seventh** attempt, because `tries > 5`.
- The hello is the bare `String` encoding and is not wrapped in a second frame. With the frame taken to be a `CodingVec<u8, u16>` (see "Left out"), it has the same layout as a frame, so the server reads it as the first frame.
- `IcmpCode::Timestamp` is numbered 12. It therefore collides with a parameter problem of the pointer kind.

## Model

| member | source | states |
|---|---|---|
| Domain.LexLessTrichotomy | src/observe.rs:14-18 | the derived order on address octets and segments is total and asymmetric |
| Domain.LexLessTransitive | src/observe.rs:14-18 | the derived order on address octets and segments is transitive |
| Domain.IpLessTrichotomy | src/observe.rs:14-18 | the order on IpAddr (V4 before V6, then by octets) is total and asymmetric |
| Domain.IpLessTransitive | src/observe.rs:14-18 | the order on IpAddr is transitive |
| Domain.EndpointLessTrichotomy | src/observe.rs:14-18 | the order on Endpoint (address, then port) is total and asymmetric |
| Domain.EndpointLessTransitive | src/observe.rs:14-18 | the order on Endpoint is transitive |
| Domain.ConnectionLessTrichotomy | src/observe.rs:37-43 | the order on Connection (interface, src, dst, protocol) is total and asymmetric |
| Domain.ConnectionLessTransitive | src/observe.rs:37-43 | the order on Connection is transitive |
| Utf8.LeadingCharLength | src/coding.rs:426-428 | the first well-formed character found is at most four bytes and lies inside the input |
| Utf8.ValidUtf8Concat | src/coding.rs:426-428 | well-formed UTF-8 is closed under concatenation |
| Utf8.AsciiIsValid | src/coding.rs:426-428 | any all-ASCII byte string is accepted as a String |
| Utf8.ForbiddenByteInvalid | src/coding.rs:426-428 | a byte 0xC0, 0xC1 or 0xF5..0xFF anywhere makes the bytes invalid UTF-8 |
| Coding.BigEndianConcat | src/coding.rs:141-180 | the big-endian value of a concatenation is the high part shifted left plus the low part |
| Coding.U16BigEndian | src/coding.rs:141-154 | a u16 is written as two bytes whose big-endian value is the number |
| Coding.U32BigEndian | src/coding.rs:156-167 | a u32 is written as four bytes whose big-endian value is the number |
| Coding.U64BigEndian | src/coding.rs:169-180 | a u64 is written as eight bytes whose big-endian value is the number |
| Coding.U16RoundTrip | src/coding.rs:141-154 | decoding an encoded u16 gives it back and leaves the following input |
| Coding.U32RoundTrip | src/coding.rs:156-167 | decoding an encoded u32 gives it back and leaves the following input |
| Coding.U64RoundTrip | src/coding.rs:169-180 | decoding an encoded u64 gives it back and leaves the following input |
| Coding.DecodeU16Spec | src/coding.rs:149-153 | u16 decoding succeeds exactly with two bytes available, and reads their big-endian value |
| Coding.DecodeU32Spec | src/coding.rs:162-166 | u32 decoding succeeds exactly with four bytes available, and reads their big-endian value |
| Coding.DecodeU64Spec | src/coding.rs:175-179 | u64 decoding succeeds exactly with eight bytes available, and reads their big-endian value |
| Coding.LengthRoundTrip | src/coding.rs:41-69 | a length prefix reads back as the length reduced modulo 2^8, 2^16 or 2^32, since `from_usize` truncates |
| Coding.DecodeElems | src/coding.rs:460-466 | a successful element decode yields exactly the announced number of elements |
| Coding.ElemsRoundTrip | src/coding.rs:451-467 | elements that each round-trip decode back from their concatenated encodings, leaving the rest |
| Coding.VecRoundTrip | src/coding.rs:451-467 | a CodingVec reads back exactly, with the following input left over, if and only if its length fits the width |
| Coding.WriteCodingVec | src/coding.rs:452-458 | the writer loop emits the length prefix and then each element's encoding, in order |
| Coding.ReadCodingVec | src/coding.rs:460-466 | the `try_fold` reader loop returns exactly the specified CodingVec decode, failing at the first element that fails |
| Coding.DecodeString | src/coding.rs:426-428 | a decoded String is always well-formed UTF-8 |
| Coding.BytesRoundTrip | src/coding.rs:129-139 | every byte round-trips through the u8 codec |
| Coding.StringLayout | src/coding.rs:422-424 | a String is laid out as a u16 length (mod 65536) followed by its bytes |
| Coding.StringRoundTrip | src/coding.rs:421-429 | a String reads back exactly if and only if it is valid UTF-8 and under 65536 bytes |
| Coding.InvalidUtf8Rejected | src/coding.rs:426-428 | invalid UTF-8 bytes are refused even when correctly framed |
| Coding.OptionRoundTrip | src/coding.rs:431-449 | an Option reads back through the flag byte when its payload round-trips |
| Coding.OptionAbsentFlag | src/coding.rs:441-448 | any flag byte other than 1 reads as None and consumes only the flag |
| Coding.Ipv6Octets | src/coding.rs:84-87 | an IPv6 address is written as sixteen octets |
| Coding.Ipv6RoundTrip | src/coding.rs:83-102 | an IPv6 address round-trips through its octets |
| Coding.DecodeIpAddr | src/coding.rs:118-126 | a decoded address's tag byte matches its kind |
| Coding.IpAddrRoundTrip | src/coding.rs:104-127 | an IpAddr is 5 bytes (tag 1) for V4 and 17 bytes (tag 2) for V6, and round-trips |
| Coding.IpAddrUnknownTag | src/coding.rs:118-126 | an address tag other than 1 or 2 is an error |
| Coding.DecodeProtocol | src/coding.rs:196-204 | a decoded protocol consumed exactly its own tag byte |
| Coding.ProtocolTags | src/coding.rs:182-205 | TCP is 1 and UDP is 2, both round-trip, and every other tag is an error |
| Coding.DecodeClosed | src/coding.rs:223-232 | a decoded close mode consumed its own tag and is never TimedOut |
| Coding.ClosedTags | src/coding.rs:207-233 | the close tags are 1, 2, 3 and 4; all but TimedOut round-trip, and tags outside 1..3 are errors |
| Coding.ProblemRoundTrip | src/coding.rs:235-246 | a Problem round-trips as kind then code |
| Coding.EncodeTime | src/coding.rs:249-256 | encoding a timestamp fails exactly before the epoch |
| Coding.DecodeTime | src/coding.rs:257-262 | a decoded timestamp is never before the epoch, and an input on which the decode panics yields no value |
| Coding.DurationBound | src/coding.rs:257-262 | a seconds/nanoseconds pair whose carried seconds stay below 2^63 is within a SystemTime's range |
| Coding.TimeDecodeOutcomes | src/coding.rs:257-262 | a timestamp decode fails exactly when fewer than twelve bytes remain, or when `Duration::new` or the addition to `UNIX_EPOCH` panics |
| Coding.TimeLayout | src/coding.rs:249-256 | a timestamp is 12 bytes: whole seconds (u64), then nanoseconds within the second (u32) |
| Coding.TimeRoundTrip | src/coding.rs:248-263 | a timestamp at or after the epoch round-trips |
| Coding.EndpointRoundTrip | src/coding.rs:265-276 | an Endpoint round-trips as address then port |
| Coding.ConnectionRoundTrip | src/coding.rs:278-293 | a Connection reads back with its interface reduced modulo 65536 |
| Coding.ConnectionRoundTripExact | src/coding.rs:278-293 | a Connection reads back unchanged if and only if its interface is below 65536 |
| Coding.EncodeState | src/coding.rs:296-300 | encoding a State fails exactly when its timestamp is before the epoch |
| Coding.StateRoundTrip | src/coding.rs:295-306 | an encodable State round-trips |
| Coding.DecodeResolution | src/coding.rs:335-353 | a decoded Resolution's tag byte matches its variant |
| Coding.BlobsRoundTrip | src/coding.rs:319-354 | TXT blobs under 256 bytes each round-trip as u8-length vectors |
| Coding.ServiceRoundTrip | src/coding.rs:319-354 | a Service reads its target string and then its optional port |
| Coding.ResolutionRoundTrip | src/coding.rs:319-354 | every encodable Resolution round-trips |
| Coding.NameRoundTrip | src/coding.rs:356-367 | a Name round-trips as its string and then its optional Resolution |
| Coding.NamesRoundTrip | src/coding.rs:356-367 | every encodable Name round-trips, so a list of them can be a CodingVec |
| Coding.EncodeMessage | src/coding.rs:370-392 | encoding a Message fails exactly before the epoch, and the first byte is the variant's tag |
| Coding.DecodeMessage | src/coding.rs:394-418 | a decoded Message's variant is the one its first byte tags |
| Coding.MessageRoundTrip | src/coding.rs:369-419 | every encodable Message reads back exactly, leaving the following input |
| Coding.ActiveRoundTrip | src/coding.rs:372-375 | an Active message round-trips |
| Coding.EndedRoundTrip | src/coding.rs:376-380 | an Ended message round-trips unless it is TimedOut |
| Coding.FailedRoundTrip | src/coding.rs:381-385 | a Failed message round-trips |
| Coding.NamesMessageRoundTrip | src/coding.rs:386-390 | a Name message with under 256 encodable names round-trips |
| Coding.TimedOutMessageRejected | src/coding.rs:218-233 | an Ended(TimedOut) message is written but always refused when read |
| Coding.TooManyNamesMisread | src/coding.rs:386-390 | a Name message with 256 or more names never reads back as itself, because the u8 count wraps |
| Coding.MessageUnknownTag | src/coding.rs:416-417 | a message tag of 0 or above 4 is an error |
| Coding.MessagePanicsUndecoded | src/coding.rs:394-414 | a known tag followed by a panicking timestamp gives no message |
| Coding.EncodedMessageNeverPanics | src/coding.rs:248-263 | whatever follows it, an encoded message never makes the decoder panic |
| Coding.OverflowingTimestampPanics | src/coding.rs:258-260 | a frame holding an Active tag, u64::MAX seconds and 10^9 nanoseconds makes the decoder panic |
| Observe.SubCodesInDeclaredOrder | src/observe.rs:98-155 | each ICMP sub-code is numbered by its declaration position under type 3, 5, 11, 12 or 43 |
| Observe.OrdersComplete | src/observe.rs:104-150 | the declared-order lists name every sub-code |
| Observe.OtherKeepsRaw | src/observe.rs:151 | an unrecognised code keeps its raw 16 bits as kind (high byte) and code (low byte) |
| Observe.TimestampCollidesWithParameterProblem | src/observe.rs:136-141 | Timestamp and ParameterProblem(Pointer) are different codes with the same Problem |
| Observe.RecognisedCodesDistinct | src/observe.rs:100-150 | apart from that collision, distinct recognised codes give distinct Problems |
| Observe.RecordResolution | src/observe.rs:202-217 | A/AAAA become addresses, CNAME an alias, MX a service without a port, SRV a service with a port, TXT text, and any other record no resolution; the record's name is kept |
| Observe.DnsNamesOrder | src/observe.rs:329-335 | the names are the questions, without an address and in order, followed by every answer in order |
| Observe.CollectNames | src/observe.rs:329-335 | the two push loops build exactly that sequence of names |
| Observe.NextBatch | src/observe.rs:425-442 | a batch consumes at most the packets given; when it yields, its messages are non-empty, and when it does not, every packet was taken |
| Observe.Observer.constructor | src/observe.rs:185-189 | the state table starts empty and so satisfies the table invariant |
| Observe.Observer.ConnectionOpen | src/observe.rs:378-400 | new table and messages are exactly those of the open step |
| Observe.Observer.ConnectionClosed | src/observe.rs:402-410 | new table and messages are exactly those of the close step |
| Observe.Observer.ConnectionUnavail | src/observe.rs:412-419 | new table and messages are exactly those of the failure step |
| Observe.Observer.SendNames | src/observe.rs:372-376 | closes the flow as connectionless, then appends the Name message |
| Observe.Observer.HandleDns | src/observe.rs:322-341 | new table and messages are exactly those of the DNS step |
| Observe.Observer.HandleTcp | src/observe.rs:281-301 | new table and messages are exactly those of the TCP step |
| Observe.Observer.HandleUdp | src/observe.rs:303-320 | new table and messages are exactly those of the UDP step |
| Observe.Observer.HandleIcmp | src/observe.rs:343-370 | new table and messages are exactly those of the ICMP step |
| Observe.Observer.HandleIpv4 | src/observe.rs:247-262 | new table and messages are exactly those of the IPv4 dispatch |
| Observe.Observer.HandleIpv6 | src/observe.rs:264-279 | new table and messages are exactly those of the IPv6 dispatch |
| Observe.Observer.HandleEther | src/observe.rs:235-245 | new table and messages are exactly those of the Ethernet dispatch |
| Observe.Observer.Next | src/observe.rs:425-442 | the receive loop returns the first non-empty batch and the table the skipped packets left, and keeps the table invariant |
| Observe.OpenBehaviour | src/observe.rs:378-400 | a sighting is silent if and only if the flow is Active and its entry is at most 30 s old; otherwise it emits and records one Active stamped now |
| Observe.ClosedAndUnavailBehaviour | src/observe.rs:402-419 | a close or failure always emits one message and records it under the flow |
| Observe.HeartbeatSpacing | src/observe.rs:378-400 | after a heartbeat, the next sighting is silent if and only if it comes within 30 s; a close in between re-arms it |
| Observe.TcpDispatch | src/observe.rs:281-301 | RST closes as Reset, FIN alone closes Normally, and anything else is a sighting |
| Observe.UdpDispatch | src/observe.rs:303-320 | port 53 at either end goes to DNS handling; otherwise the flow is closed as connectionless |
| Observe.DnsBehaviour | src/observe.rs:322-341 | an unparsable DNS packet or one without questions does nothing; otherwise Ended(Connectionless) is emitted, then Name with the questions and answers |
| Observe.IcmpBehaviour | src/observe.rs:343-370 | the flow is taken from a UDP reading of the quoted header, else a TCP reading, and is marked Failed with the code's Problem; with neither, nothing happens |
| Observe.FlowStepsKeepInvariant | src/observe.rs:235-419 | every packet keeps entries filed under their own flow and never records a Name; it stamps its messages now and on its interface, changes only the flows it messages about, and changes nothing when silent |
| Observe.NextBatchKeepsInvariant | src/observe.rs:425-442 | a run of `next` keeps that table invariant |
| Observe.NextBatchSkipsSilentPackets | src/observe.rs:425-442 | every packet `next` passes over produced nothing, and the batch is what the last packet produced |
| OldTracker.CanonicalSymmetric | old_main.rs:84-87 | a connection and its reverse have the same canonical form |
| OldTracker.CanonicalIsLarger | old_main.rs:84-87 | the canonical form is one of the two directions, keeps interface and protocol, and is the larger under the derived order |
| OldTracker.CanonicalIdempotent | old_main.rs:84-87 | canonicalising twice changes nothing |
| OldTracker.Connections.constructor | old_main.rs:119-129 | empty tables, keep 300 s, prune every 1 s, last prune now |
| OldTracker.Connections.ConnectionClosed | old_main.rs:228-233 | records Former(now, how) under the flow |
| OldTracker.Connections.ConnectionOpen | old_main.rs:235-237 | records Active under the flow |
| OldTracker.Connections.ConnectionUnavail | old_main.rs:239-241 | records Unavailable(kind, code) under the flow |
| OldTracker.Connections.HandleTcp | old_main.rs:172-190 | the table becomes the TCP step's table |
| OldTracker.Connections.HandleUdp | old_main.rs:192-203 | the table becomes the UDP step's table |
| OldTracker.Connections.HandleIcmp | old_main.rs:205-226 | the table becomes the ICMP step's table |
| OldTracker.Connections.Update | old_main.rs:243-272 | prunes exactly when a prune interval has passed; then an event is listed if and only if it is an Add for a new or changed entry or a Remove for a vanished one; each connection appears once and all Adds precede all Removes |
| OldTracker.Connections.Additions | old_main.rs:253-263 | an Add is listed if and only if `last` lacks the entry or holds it differently, once per connection |
| OldTracker.Connections.Removals | old_main.rs:265-269 | a Remove is listed if and only if the key is in `last` but not in `active`, once per connection |
| OldTracker.Connections.TakeEventInto | old_main.rs:274-283 | an Add inserts the state and a Remove deletes the key |
| OldTracker.HandlersKeyOnCanonical | old_main.rs:172-226 | a packet and its reverse update the same entry in the same way, in every handler |
| OldTracker.HandlerEffects | old_main.rs:172-203 | RST takes priority over FIN, and UDP always records a never-opened former flow |
| OldTracker.PruneExact | old_main.rs:245-250 | pruning removes exactly the former flows at least `keep` old and keeps every other entry unchanged |
| OldTracker.TakeEventsAt | old_main.rs:274-283 | replaying events with distinct keys gives each named key that event's effect and leaves every other key alone |
| OldTracker.ReplayYieldsActive | old_main.rs:243-283 | replaying an update's events on `last` yields `active` |
| Sync.FrameLayout | src/sync.rs:81-83 | a frame is a two-byte length (mod 65536) followed by the bytes |
| Sync.HelloIsFrame | src/sync.rs:59-61 | the hello has exactly the layout of a frame holding the identity |
| Sync.FrameRoundTrip | src/sync.rs:81-83 | a frame reads back, leaving what follows, if and only if its payload is under 65536 bytes |
| Sync.SaturatingSince | src/sync.rs:23 | the wait is zero exactly when the deadline has passed, and otherwise reaches the deadline |
| Sync.Backoff | src/sync.rs:16-34 | the first six attempts are immediate; the seventh waits until 10 s after the cycle began; each later attempt comes at least 10 s after the previous one |
| Sync.Dial | src/sync.rs:18-34 | each attempt is made at its back-off time; attempts stop at the first successful connect, all earlier ones having failed; without a success every attempt is made |
| Sync.Drained | src/sync.rs:36-41 | a drain writes no more frames than it has outcomes or queued frames |
| Sync.DrainFifo | src/sync.rs:36-41 | the written frames, then the lost one, then the rest are the queue in order; a frame is lost exactly at a failed write; a drain that loses nothing stops only on an empty queue or when the outcomes run out |
| Sync.DrainAllWritten | src/sync.rs:36-41 | when every write succeeds, the whole queue is written in order |
| Sync.Link.constructor | src/sync.rs:64-68 | a new destination has an empty open queue and an idle worker that has written nothing |
| Sync.Link.Reconnect | src/sync.rs:19-35 | the attempts follow `Dial`; the worker is online if and only if a connect succeeded and the hello was written, and the hello is then the first thing on the wire |
| Sync.Link.Drain | src/sync.rs:36-42 | queue, written frames and lost frame follow the drain specification; the worker stays online if and only if nothing was lost; the wire grows by exactly the frames written |
| Sync.Client.constructor | src/sync.rs:70 | the client holds the given destinations |
| Sync.Client.SendFrame | src/sync.rs:81-88 | the one frame is appended to every open queue; closed queues and all other state are unchanged |
| Sync.Client.Send | src/sync.rs:75-79 | the message's frame is queued on every open destination exactly when it encodes |
| Sync.ClientConfig.constructor | src/sync.rs:48-53 | the identity is kept and there are no destinations yet |
| Sync.ClientConfig.Add | src/sync.rs:55-57 | the destination is appended |
| Sync.ClientConfig.Build | src/sync.rs:59-71 | one fresh, distinct destination per address, in order, each with the shared hello, an empty open queue and an idle worker |
| Server.ReadFrame | src/main.rs:193 | a frame read splits the stream into the 2-byte header, the payload and the remainder |
| Server.DecodeBytes | src/coding.rs:460-466 | n raw bytes are read exactly when that many are available |
| Server.ReadFrameIsCodingVec | src/coding.rs:451-467 | the server's frame reader is the codec's CodingVec<u8, u16> decoder |
| Server.NullColumns | src/main.rs:203-239 | `close` is set exactly for Ended, `pkind`/`pcode` exactly for Failed, and `proto` is the protocol's wire number |
| Server.RowDeterminesMessage | src/main.rs:203-239 | with conntime kept as the exact timestamp, two messages give the same row if and only if they agree on everything except the capture interface |
| Server.Ingest | src/main.rs:193-245 | once the identity is read, the frame loop ends only when no whole frame remains, or at a panic: on a Name message, or in the decode of an overflowing timestamp |
| Server.PanickingFrameStops | src/main.rs:193-194 | a frame whose timestamp decode panics ends the handler, and nothing after it is stored |
| Server.Session | src/main.rs:180-191 | the handler gives up on the identity exactly when no first frame can be read, or when that frame is not UTF-8 |
| Server.SessionRows | src/main.rs:180-209 | rows are stored only after a valid identity has been read, and each carries that identity and the peer |
| Server.IngestIdent | src/main.rs:193-245 | every ingested row carries the connection's identity and peer |
| Server.ClientThread | src/main.rs:180-246 | the frame loop stores exactly the rows, and ends exactly as, the session specification says |
| Server.Expected | src/main.rs:203-243 | at most one row per message, and the handler panics if and only if some message is a Name |
| Server.IngestStream | src/main.rs:193-245 | the frames of deliverable messages, followed by bytes holding no further frame, are ingested as exactly the expected rows |
| Server.SessionOfClient | src/main.rs:180-245 | a client's hello followed by its framed messages is stored by the server as exactly the expected rows, under the client's identity |

## Left out

- Packet capture (pcap devices, `ObserverConfig::add_device`, `start`, `namespace`), the capture threads and the mpsc channel: packets arrive here as a parsed `Arrival` sequence, and the end of the sequence stands for a closed channel.
- The foreign parsers (pktparse, dns_parser, pnet-style packets in `old_main.rs`): their results are inputs, with None where a parser fails.
- Observe.Observer.Next: one clock reading per packet, while the source calls `SystemTime::now()` separately for each message it builds.
- SQLite, the `instime` column and `to_float_secs` (a float conversion): a row holds the message's own timestamp, and the insertion is appending to a sequence.
- `src/mesh.rs`, the command line (`main`, `main_client`, `main_server`, `maint_thread`) and every `println!`/`Display` impl: these are outside the modelled core.
- `old_main.rs` `handle_ether`, `handle_ipv4`, `handle_ipv6` and `main`: Ethernet and IPv4 dispatch only choose a handler from the parsed packet, and `handle_ipv6` is an empty body.
- `old_main.rs` never assigns `last`: the model diffs against whatever `last` holds.
- Coding.DecodeTime: the two panics of a timestamp decode are overflow in `Duration::new` and overflow when adding to `UNIX_EPOCH`. The decoder reports them as None, the same as a short input. `TimePanics` and `MessagePanics` tell the two apart, and the server treats a panic as ending the handler.
- Coding.EncodeTime: a `SystemTime` is bounded to signed 64-bit seconds, as on Unix; the nanosecond and seconds limits of other platforms are not modelled.
- Sync.Frame, Server.ReadFrame: `src/coding.rs` has no `Coder` impl for `Vec<u8>`, yet `send_frame` (`src/sync.rs:83`) and the server (`src/main.rs:181`, `src/main.rs:193`) encode and decode through one. The frame is assumed to be a `CodingVec<u8, u16>`: a two-byte big-endian length, then the bytes, the reading of `String`'s encoding at `src/coding.rs:423`. `Sync.HelloIsFrame` and `Server.SessionOfClient` rest on this assumption; with a one-byte length, the hello would not read back as a frame.
- `usize` lengths and the `interface` index are unbounded naturals; only the casts to u8/u16/u32 lengths and the u16 interface on the wire are modelled.
- Sync.Dial: clocks and sleeps are explicit. Each attempt's clock reading is an input, and a sleep is taken to last exactly as long as asked.
- Sync.Link.Reconnect: a failed or partial hello write is modelled as writing nothing, and the worker goes round again.
- Sync.Link: `open` (the worker still holds the receiver) is never set false, because the only way it would be is the worker thread ending, which the source's loops never do.
- Sync.Client.Send: an encoding error is an `unwrap` panic in the source; here nothing is sent and the method reports false.
- Sync.ClientConfig.Build: thread spawning is the creation of an idle worker per destination; `io::Result` is always `Ok` in the source and is dropped.
- Server.Ingest: the `Message::Name` arm of `client_thread` is `todo!()`. It is modelled as a panic that ends the handler once a Name message is decoded. The arm is written with one field although the variant has two; the model reads it as matching every Name message.
- Server.Ingest: bytes left inside a frame after its Message are ignored, as `Message::decode` on a slice leaves them unread.
- The server's `peer` is kept as an Endpoint rather than its `{:?}` rendering, and addresses are kept as values rather than `to_string()` text.
