# Stratum V2 bindings: a verified model

This project models the parts of the Stratum V2 bindings whose behaviour is decided by the
repository's own code rather than by the libraries it wraps, and proves what those parts are
for. `dafny verify dfyconfig.toml` checks all of it.

* **The streaming codec** (`Noise`, `Handshake`, `Framing`, `Codec`, `CodecTheorems`). The
  handshake state object, the decoder whose reported byte count must follow an inner two-phase
  machine (sealed header, then sealed payload), and the encoder, each working on a copy of the
  shared session state that is written back on some exits only.
* **Whole streams** (`Stream`, `DriveLoops`, `Ffi`, `EndToEnd`). `Parse` says what a byte stream
  contains without mentioning a decoder. The Go client loop, the Go server loop and the in-memory
  Python loop are methods proved equal to it for every byte stream and every way the connection
  splits it into reads; and `Parse` is proved to read any encoded list of messages back.
* **Concurrent calls** (`Schedule`, `Delivery`). Calls copy the state and write it back later; the schedules
  under which nothing is lost are characterised exactly, losing ones are exhibited, and isolated
  ones are shown to deliver every message.
* **Message conversion** (`Messages`, `Conversion`, `MessageTheorems`, `FieldTheorems`, `Utf8`).
  All 41 variants both ways, field by field, with the size checks in the order the code makes them and with lossy UTF-8 decoding,
  itself tied to an encoder and decoder written from RFC 3629 section 3.
* **Base58** (`Radix`, `Base58`). The two Go decoders, imperative over the lookup table, against
  one meaning: the same number in another base.
* **Opening channels** (`Extranonce`, `Bootstrap`, `BootstrapTheorems`). The two prefix factories
  and the two bootstrap functions, with invariants over every run of one server with any number of
  connections, and a proof that a client following the replies holds the server's own picture.
  The repository has one program for each kind of channel; here one connection may ask for both.

Methods change objects step by step as the source does, and their `ensures` equate the new state
and the result with a function of the old state; the theorems are about those functions.

## What is taken on trust

Code outside the repository enters as records of functions, each with one visible contract, and
as the parts of the model named here.

* `Noise.Aead.Sound`: opening undoes sealing under the same key and counter, and sealing adds 16
  bytes. `Noise.KeyExchange.Sound`: one hello, answered and finished, gives mirrored sessions, and
  after several hellos an answer to any of them is either rejected or gives mirrored sessions.
* `Framing.Wire.Sound`: a message within the specification's element counts serializes to a
  non-empty payload that parses back, and common messages fit one frame. The counts are in the
  contract because `.into()` on sequence fields is unchecked (src/messages/mod.rs:426,
  src/messages/mod.rs:547): a list longer than its length prefix can express has no round trip.
* The inner decoder (`Codec.NextFrame`): its writable window is empty when it is new and after a
  decoded frame, and asking for the window does not change it, so a refused data size leaves the
  decoder as it was although the source has called `writable()` by then.
* The library's handshake steps (`Noise.Step0`, `Step1`, `Step2`): one that fails leaves the object
  it was called on as it was, although it is called in place.
* The extranonce library is the single function `Extranonce.Increment` with the two places its
  counter lives. Ranges come from the constructors, the first prefix being `...01` from the
  documented sequences (python/examples/extranonce_prefix_factory_example.py:54-124). Those
  comments print 24-byte extended prefixes where the constructor and the test
  (python/tests/extranonce_prefix_factory_test.py:28) give `allocation_size` bytes; the model
  follows the code and the test.
* The channel library is a policy that accepts or refuses a request, plus a channel reduced to
  future jobs, active job and template-to-job map (`OnNewTemplate`, `OnSetNewPrevHash`).

## Properties that hold only under a condition

* A frame that decrypts but does not parse leaves the receiver behind the sender, because the
  copied state is dropped: `CodecTheorems.InStepIffFrameParses`.
* Concurrent encoders lose counter updates exactly when a call that seals a frame ends between
  the copy and the end of another such call; refused messages do no harm
  (`Schedule.NoCounterLostIffIsolated`, losing schedule in `Schedule.OverlappingEncodersLose`).
  For encoders and decoders mixed, whether all updates are kept is a function of the order of
  events and of one label for each call's end: silent, writes its copy back, or moves a counter
  (`Schedule.CodecCountersAddUp`). A poll that ends inside an encoder's window loses nothing, but
  one that outlasts an encoder writes its old copy back over it (`Schedule.PollAndEncoder`).
* `MissingBytes` reports zero exactly when the call is given a sealed header that opens and
  announces an empty payload (`EndToEnd.MissingIsNextBufferSize`, reached in
  `EndToEnd.EmptyPayloadReportsZero`); the Go loops then give up (`EmptyFrame`) while the Python
  loop decodes the empty payload.
* Out-and-in conversion succeeds exactly when lossy text still fits, and is the identity exactly
  on well-formed text: `MessageTheorems.OutThenInIsIdentity`. A text that goes out and does not
  come back in: `MessageTheorems.EightySixBytesStayOut`.
* A bootstrap function raises instead of replying in exactly four cases: the standard factory is
  exhausted; the constructor is handed arguments it has no listed error name for; a standard
  channel needs a group channel the connection does not have; or the channel is created but the
  cached messages cannot activate it (they do not convert, the template is not a future one, or
  the previous hash is for another template; with work selection, only that the previous hash does
  not convert): `BootstrapTheorems.ReturnedExactly`. The third case never happens on connections of
  the standard program: `BootstrapTheorems.StandardProgramHasGroups`. In the last two the channel
  stays registered although the client never hears of it, as in
  `BootstrapTheorems.OneStrandedChannel`. Over a whole run, all clients know exactly the server's
  channels exactly when neither occurs: `BootstrapTheorems.ClientMirrorsServer`.
* The standard function lists three error names but its constructor collapses the library's
  reasons into one, so when a constructor refuses it can only send `other-error`; its one other
  code, `standard-channels-not-supported-for-custom-work`, is for work selection:
  `BootstrapTheorems.RefusalReplies`.

## Model

| member | source | states |
|---|---|---|
| Codec.Sv2Decoder.constructor | src/codec/decoder.rs:23-31 | a new decoder is idle and reports size 0 |
| Codec.Sv2Decoder.BufferSize | src/codec/decoder.rs:34-40 | the reported size is the stored one |
| Codec.Sv2Decoder.TryDecode | src/codec/decoder.rs:51-129 | decoder, shared state and result are those of the specification `Attempted`; the copy is written back on success and on missing bytes only |
| Codec.Sv2Encoder.Encode | src/codec/encoder.rs:33-71 | a frame and the advanced state on success, an error and an untouched state otherwise |
| CodecTheorems.EncodedExactly | src/codec/encoder.rs:40-58 | the conversion's own error comes first; a frame that is too large or a missing session is the only other error |
| CodecTheorems.EncodedFrame | src/codec/encoder.rs:56-70 | under the next counter value the frame starts with extension type, message type and payload length in the layout of section 3.2 of the Stratum V2 specification, and the payload follows |
| CodecTheorems.WrongSizeRefused | src/codec/decoder.rs:68-75 | data of a size not asked for is refused with the expected and the actual size, and changes nothing; no other call is refused so |
| CodecTheorems.CallKeepsStep | src/codec/decoder.rs:67-122 | every call with no data or exactly the reported size keeps the reported size equal to the writable length, whatever the bytes, until decoding fails for good |
| CodecTheorems.AbidingCallerNeverRefused | src/codec/decoder.rs:67-77 | over any sequence of such calls `InvalidDataSize` never occurs |
| CodecTheorems.FrameTakesThreeCalls | src/codec/decoder.rs:99-122 | a frame is decoded in three calls; the receiver's counter equals the sender's, then is one ahead after the header, then equals the sender's next |
| CodecTheorems.InStepIffFrameParses | src/codec/decoder.rs:83-104 | after an intact payload, counters agree and the size is right exactly when the payload parses |
| CodecTheorems.HeaderCall | src/codec/decoder.rs:111-123 | an intact header moves the decoder to the payload phase, commits one counter step and reports the sealed payload size |
| CodecTheorems.PayloadCall | src/codec/decoder.rs:81-110 | an intact payload yields its message and commits all its chunks, or, if it does not parse, commits nothing |
| Framing.ChunksRoundTrip | src/codec/encoder.rs:56-58 | sealing a payload in chunks and opening it are inverse for every length, and the sealed size is the announced one |
| Framing.HeaderLayout | src/codec/encoder.rs:56-58 | the six header bytes of section 3.2, numbers low byte first |
| Framing.PiecesAreMaximal | src/codec/encoder.rs:56-58 | the sealed pieces make up the payload; each but the last fills a 65535-byte Noise message |
| Framing.SealsPieces | src/codec/encoder.rs:56-58 | the pieces are sealed in order, each under the next counter value |
| Stream.ParseFrame | src/codec/encoder.rs:33-71 | an encoded frame in front of any bytes is read as its message, then the rest at the sender's next counter |
| Stream.StreamRoundTrip | src/codec/encoder.rs:33-71 | any list of messages encoded in order is read back in order, and reading continues right behind it |
| Stream.WholeStreamRoundTrip | go/examples/client_example/main.go:132-194 | a stream of encoded messages is delivered completely: nothing lost, added or left over, counters equal |
| Stream.CutStream | go/examples/client_example/main.go:154-166 | a stream of encoded messages cut at any byte delivers exactly the messages whose frames arrived whole, then only asks for more; the receiver's counter is the sender's behind those frames, and one more exactly when the next header has arrived |
| Stream.CutFrame | src/codec/decoder.rs:111-123 | part of a frame delivers nothing; the counter is one ahead exactly from the whole header on |
| Stream.StopsAtFirst | go/examples/client_example/main.go:177-187 | reading stops right behind the first message that asks for it; later bytes stay unread |
| DriveLoops.ReadExactly | go/examples/client_example/main.go:154-166 | partial reads of any sizes add up to exactly the bytes asked for, or the stream is exhausted |
| DriveLoops.ReportedStep | go/examples/client_example/main.go:168-193 | one full read accounts for exactly its part of the stream, in each of the four outcomes the caller sees |
| DriveLoops.ExchangeMessages | go/examples/client_example/main.go:104-196 | the client sends one encoded frame and then delivers exactly what `Parse` finds in the incoming stream, for every stream and every read split; the loop terminates by unread bytes and then by whether the size is 0 |
| DriveLoops.HandleConn | go/examples/server_example/main.go:98-163 | the server receives exactly what `Parse` finds and writes exactly the answers, encoded in order with the shared state |
| DriveLoops.SentAfter | go/examples/server_example/main.go:141-157 | one more received message extends what was written by its encoded answer, or by nothing |
| DriveLoops.AnswersInOrder | go/examples/server_example/main.go:103-163 | the answers to two runs of messages are the answers to the first followed by those to the second |
| DriveLoops.AnswerToOne | go/examples/server_example/main.go:141-161 | a SetupConnection is answered with its highest version and its flags, anything else not at all |
| DriveLoops.AnswerStep | go/examples/server_example/main.go:141-161 | answering fails exactly when the answer cannot be framed, and leaves what is still to be read untouched |
| DriveLoops.DecodeInMemory | python/tests/test_encoding_decoding.py:33-94 | any bytes are decided within three iterations, so the cap of ten is never the reason for failing, and the result agrees with `Parse`; an announced empty payload gives what its message type parses to, or a decoding error |
| DriveLoops.IterationReads | python/tests/test_encoding_decoding.py:41-90 | each iteration leaves the same stream to be read, or ends the way the stream says |
| Ffi.TryDecode | src/ffi.rs:227-262 | null handles change nothing; otherwise the decoder's step, its status code, and the new buffer size exactly when bytes are missing |
| Ffi.Encode | src/ffi.rs:193-222 | three variants encode, the others are refused, and no failure changes the state |
| Ffi.DecodingCodes | src/ffi.rs:239-261 | decoding ends with one of four statuses, each with its exact cause |
| Ffi.SetupConnectionCalls | src/ffi.rs:164-187 | a missing text is refused and nothing else is; the getter reads back what the constructor was given, and tells a missing message from one of another kind |
| Ffi.SupportedKinds | src/ffi.rs:202-217 | the messages that can be encoded are the common ones but for the two that come after setup |
| EndToEnd.SendableExactlyWhenItFits | src/ffi.rs:164-187 | a SetupConnection built from any bytes can be sent exactly when the protocol is known and each text fits after lossy conversion |
| EndToEnd.SetupConnectionArrives | src/ffi.rs:193-316 | it arrives in three calls with the protocol, versions and flags it was built from and its texts made well formed, and both missing-byte counts are positive and equal to the next size |
| EndToEnd.MissingIsNextBufferSize | src/ffi.rs:242-245 | every missing-bytes report equals the next buffer size, and is zero exactly when the call gets a sealed header that opens and announces an empty payload |
| EndToEnd.EmptyPayloadReportsZero | src/codec/decoder.rs:111-123 | every sealed header of length zero makes the decoder ask for zero bytes |
| EndToEnd.WholeExchange | go/examples/server_example/main.go:103-163 | client loop and server loop together: one SetupConnection read, one answer written, the client stops at it with the offered version and flags, and the two states are a pair again |
| EndToEnd.ClientSkipsOthers | go/examples/client_example/main.go:177-193 | the client reads past any other messages and stops right behind the first SetupConnectionSuccess |
| EndToEnd.ServerReadsAll | go/examples/server_example/main.go:103-163 | the server reads every message sent to it and never gives up on an answer |
| Noise.Sv2CodecState.StepZero | src/codec/state.rs:57-63 | only an initiator before completion gets a hello; otherwise nothing changes |
| Noise.Sv2CodecState.StepOne | src/codec/state.rs:65-78 | wrong length, wrong role and a failed computation each report their error and change nothing; success replaces the state |
| Noise.Sv2CodecState.StepTwo | src/codec/state.rs:80-93 | the same for the initiator's last step |
| Noise.Sv2CodecState.HandshakeComplete | src/codec/state.rs:95-101 | complete means the state is a session |
| Handshake.InitiatorCompletesLast | src/codec/state.rs:57-101 | in every reachable state of the two parties, frames lost, repeated, reordered or mis-sized, a complete initiator has a complete responder |
| Handshake.CompletionIsFinal | src/codec/state.rs:65-101 | no later run of handshake calls changes a completed session |
| Handshake.CompletedPartiesArePaired | src/codec/state.rs:57-93 | in any run, with any number of hellos, two completed parties hold mirrored keys and equal counters |
| Handshake.WrongLengthChangesNothing | src/codec/state.rs:65-83 | frames of the wrong length can be left out of any run of the two parties without changing how it ends |
| Handshake.StepResults | src/codec/state.rs:57-93 | which error each step reports and when, in the order of its checks, that a failing step changes nothing, and the session and frame a successful one gives |
| Handshake.StraightRunCompletes | go/examples/client_example/main.go:75-98 | hello, answer and last step delivered once complete both parties as a pair |
| Schedule.IsolatedIsSerial | src/codec/decoder.rs:62-117 | for any clone/compute/commit calls: no call that may write ending inside another's window means the same state and outputs as running in place in commit order |
| Schedule.NothingLostIffIsolated | src/codec/encoder.rs:48-67 | for calls that either move a counter or write nothing back: the full total is reached exactly when no committing call ends inside a committing call's window |
| Schedule.IsolatedByPositions | src/codec/encoder.rs:48-67 | isolation, said with positions in the schedule: no writer's end between a reader's copy and its end |
| Schedule.CodecCallsSerial | src/codec/decoder.rs:56-117 | isolated encode and decode calls on one shared state and any decoders, each decoder carried from call to call, act as if run in place |
| Delivery.CallAlone | src/codec/decoder.rs:99-117 | a scheduled call run alone writes back, leaves in its decoder and returns what the codec does, on every exit |
| Delivery.DecodersInOrder | src/codec/decoder.rs:51-129 | three decoding calls per frame, one after the other, return every message and keep receiver and sender in step |
| Delivery.IsolatedCallsDeliver | src/codec/decoder.rs:62-117 | encoders on one session and a decoder on its peer, in any isolated schedules that end the calls in order, deliver every message with equal counters at the end |
| Schedule.NoCounterLostIffIsolated | src/codec/encoder.rs:38-67 | concurrent encoders, refused messages included, never move the counter too far, and move it by every frame sealed exactly when isolated |
| Schedule.CountersAddUp | src/codec/decoder.rs:62-117 | for any calls that never turn a counter back: it moves by all that was gained exactly when every update is kept, which depends only on the order of events and the label of each call's end |
| Schedule.LabelsKnownBefore | src/codec/encoder.rs:38-67 | where each call's label is known beforehand, so is whether every update is kept |
| Schedule.CodecCountersAddUp | src/codec/decoder.rs:62-117 | the same for encode and decode calls of every outcome on one session: refused, polling, undecodable, successful |
| Schedule.EncoderLabels | src/codec/encoder.rs:38-67 | for concurrent encoders the labels follow from the messages alone |
| Schedule.OverlappingEncodersLose | src/codec/encoder.rs:48-67 | two overlapping encoders leave the counter short by the first one's frame |
| Schedule.PollAndEncoder | src/codec/decoder.rs:62-117 | a poll overlapping an encoder is harmless when it ends first, and undoes the encoder's counter when it ends last |
| MessageTheorems.MessageRoundTrip | src/messages/mod.rs:112-850 | every message of the 41 variants that converts comes back unchanged |
| FieldTheorems.InwardIsFieldwise | src/messages/mod.rs:112-850 | a message converts to a wire message exactly when both are of the same variant and every field has the value of the field of the same name, request ids as little-endian bytes and protocols by name |
| FieldTheorems.OutwardIsFieldwise | src/messages/mod.rs:853-1427 | the message that goes out is the one of the same variant with the same fields, texts converted lossily |
| MessageTheorems.ConversionInjective | src/messages/mod.rs:112-850 | distinct messages never convert to the same wire message |
| MessageTheorems.ConversionReportsFirstFailure | src/messages/mod.rs:112-850 | conversion fails exactly when a check fails, with the error of the first failing check in the code's order |
| MessageTheorems.AcceptedExactlyImages | src/messages/mod.rs:112-1427 | a message converts exactly when it is the outward form of some wire message with well-formed texts |
| MessageTheorems.OutThenInIsIdentity | src/messages/mod.rs:853-1427 | a wire message goes out and back in exactly when its texts still fit, and unchanged exactly when its texts are well formed |
| MessageTheorems.OutThenInNormalises | src/messages/mod.rs:853-1427 | one pass that succeeds reaches a fixed point |
| MessageTheorems.ShortTextsFit | src/messages/mod.rs:855-877 | texts of at most 85 bytes always make it back |
| MessageTheorems.EightySixBytesStayOut | src/messages/mod.rs:124-144 | 85 is the limit: a text of 86 such bytes is refused on the way back in |
| Conversion.CollectU256 | src/messages/mod.rs:417-447 | all elements convert, unchanged, exactly when each has 32 bytes |
| Conversion.CollectB016M | src/messages/mod.rs:634-644 | all elements convert, unchanged, exactly when each fits its length prefix |
| Utf8.LossyFixesExactlyValid | src/ffi.rs:176-177 | lossy conversion leaves exactly the well-formed strings alone |
| Utf8.LossyIdempotent | src/ffi.rs:176-177 | converting twice changes nothing more |
| Utf8.LossyLength | src/ffi.rs:176-177 | the result is at most three times as long |
| Utf8.NoncharactersTriple | src/ffi.rs:176-177 | the bound is sharp: bytes that start no character expand exactly threefold |
| Utf8.ValidIsEncoded | src/messages/mod.rs:855-877 | the byte grammar used describes exactly the encodings of RFC 3629 section 3 |
| Utf8.AgreeingIsMaximal | src/messages/mod.rs:855-877 | the part of an ill-formed string judged to agree with a character is the longest start shared with any encoding |
| Utf8.LossyKeepsCharacter | src/messages/mod.rs:855-877 | lossy conversion keeps an encoded character in front as it is |
| Utf8.LossyReplacesLongestStart | src/messages/mod.rs:855-877 | where no character is in front, one replacement character stands for the longest start of some encoding, or for one byte where there is none |
| Utf8.Rfc3629Examples | src/ffi.rs:176-177 | encodings from section 7 of RFC 3629, and one replacement character for a truncated one |
| Base58.Base58.constructor | go/examples/client_example/main.go:20-27 | the filled table maps each byte to its place in the alphabet or to -1 |
| Base58.Base58.DecodeClient | go/examples/client_example/main.go:30-55 | the client's loops compute `Decoded`, errors included |
| Base58.Base58.DecodeServer | go/examples/server_example/main.go:25-47 | the server's loops compute the same `Decoded`, so both decoders agree on every input |
| Base58.Bijection | go/examples/client_example/main.go:30-55 | a text decodes to given bytes exactly when it is the encoding of those bytes |
| Base58.DecodedIsNumber | go/examples/client_example/main.go:34-45 | the decoded bytes are the same number in base 256 as the characters' places in the alphabet are in base 58 |
| Base58.FailsOutsideAlphabet | go/examples/client_example/main.go:35-40 | decoding fails exactly when some byte is no symbol of the alphabet, and names the first |
| Base58.LeadingOnesAreLeadingZeros | go/examples/client_example/main.go:46-53 | leading ones become leading zero bytes one for one |
| Base58.LengthBounds | go/examples/client_example/main.go:30-55 | n characters without a leading one give floor(8(n-1)/11)+1 to ceil(11n/15) bytes |
| Base58.KeyTextLength | go/examples/client_example/main.go:61-68 | every such 51-character text gives 37 or 38 bytes |
| Base58.AuthorityPublicKey | go/examples/client_example/main.go:58-73 | bytes 2 to 34 of the decoded key, or the error that applies |
| Base58.AuthorityKeypair | go/examples/server_example/main.go:49-64 | both slices exactly when both texts decode to enough bytes; otherwise the public text's decoding error, then the private one's, then the size error |
| Base58.ShippedKeysDecode | go/examples/server_example/main.go:50-63 | the two keys in the source always pass the length checks |
| Extranonce.Sv2ExtranoncePrefixFactoryExtended.New | src/channels/server/extranonce_prefix.rs:23-43 | the ranges given, with 32-bit addition |
| Extranonce.Sv2ExtranoncePrefixFactoryExtended.NextExtranoncePrefix | src/channels/server/extranonce_prefix.rs:51-63 | a prefix and the advanced counter, or an error and no change |
| Extranonce.Sv2ExtranoncePrefixFactoryStandard.New | src/channels/server/extranonce_prefix.rs:82-91 | the fixed ranges 0-16-32 |
| Extranonce.Sv2ExtranoncePrefixFactoryStandard.NextExtranoncePrefix | src/channels/server/extranonce_prefix.rs:94-103 | a prefix and the advanced counter, or an error and no change |
| Extranonce.NewFactory | src/channels/server/extranonce_prefix.rs:23-43 | construction succeeds exactly when the static prefix fits the allocation and all fits 32 bytes; the counter starts at zero |
| Extranonce.NewFactoryPrefixes | python/examples/extranonce_prefix_factory_example.py:52-142 | the j-th prefix of a new factory is the static prefix, zeros up to the counter, and the number j |
| Extranonce.DocumentedPrefix | python/examples/extranonce_prefix_factory_example.py:66-71 | the first standard prefix of the second server is 01, thirty zero bytes, 01 |
| Extranonce.IncrementAddsOne | src/channels/server/extranonce_prefix.rs:59-61 | the byte counter adds one as a number, and stops exactly at its largest value |
| Extranonce.NextPrefix | src/channels/server/extranonce_prefix.rs:51-63 | a call succeeds exactly when the request fits and the counter is not exhausted; every byte of the prefix: the fixed ones as they were, then the next counter value; and the one error |
| Extranonce.IssuedInOrder | src/channels/server/extranonce_prefix.rs:51-103 | over any sequence of calls, refused ones included, serials are consecutive |
| Extranonce.PrefixesNeverRepeat | python/tests/extranonce_prefix_factory_test.py:23-44 | no two prefixes of a factory are equal, each has its length and static start |
| Extranonce.Capacity | src/channels/server/extranonce_prefix.rs:51-103 | over any requests, too large ones among them, those that fit are served until exactly the values left in the counter are handed out |
| Extranonce.ServersNeverCollide | python/examples/extranonce_prefix_factory_example.py:47-142 | factories with different static prefixes of equal length share no prefix |
| Bootstrap.ConnectionContext.New | python/examples/bootstrap_standard_group_channel_server_example.py:128-170 | a group channel takes the first id unless a flag rules it out; if it cannot be set up there is no connection |
| Bootstrap.ConnectionContext.BootstrapStandardChannelServer | python/examples/bootstrap_standard_group_channel_server_example.py:173-308 | the server's factory, the connection's registry and group and the returned lists or exception are those of `OpenStandard` |
| Bootstrap.ConnectionContext.BootstrapExtendedChannelServer | python/examples/bootstrap_extended_channel_server_example.py:145-277 | the same for `OpenExtended` |
| BootstrapTheorems.OpenOutcome | python/examples/bootstrap_standard_group_channel_server_example.py:189-248 | a request takes no prefix and no id or one of each; exactly the accepted ones register a channel, with that id, prefix and target, and a standard one joins the group |
| BootstrapTheorems.NewConnectionRegistered | python/examples/bootstrap_standard_group_channel_server_example.py:135-170 | a connection exists exactly when it needs no group or the cached messages are coherent; its flags are in their own places, its next id is 1 with group 0 or 0 without, and a group starts with its job active and no members |
| BootstrapTheorems.ConnectedWith | python/examples/bootstrap_standard_group_channel_server_example.py:136-137 | over every later run a connection has the flags its client connected with |
| BootstrapTheorems.FlagsKept | python/examples/bootstrap_extended_channel_server_example.py:134-137 | no run changes a connection's flags |
| BootstrapTheorems.OpenKeepsRegistry | python/examples/bootstrap_standard_group_channel_server_example.py:201-248 | every request keeps: keys are channel ids below the counter, all distinct; group members are the standard channels, never the group itself; the group exists exactly when neither flag is set |
| BootstrapTheorems.IdsNeverReissued | python/examples/bootstrap_extended_channel_server_example.py:172-207 | over any sequence of standard and extended requests on a connection of either program (python/examples/bootstrap_standard_group_channel_server_example.py:201-235 for the standard one), attempts take consecutive ids, failed ones are never used again, and the registered channels are exactly the old ones and those of successful attempts |
| BootstrapTheorems.RunKeepsWorld | python/examples/bootstrap_extended_channel_server_example.py:145-207 | every registry and the distinctness of prefixes survive every interleaving of connections, cache updates and requests |
| BootstrapTheorems.PrefixesDistinctAcrossConnections | python/examples/bootstrap_extended_channel_server_example.py:161-207 | two channels of a kind with the same prefix, on any connections of a server, are the same channel |
| BootstrapTheorems.ReturnedExactly | python/examples/bootstrap_standard_group_channel_server_example.py:189-308 | each of the outcomes (success, nested error, unset error code, factory error, missing group, failed activation) has its exact condition, and a failed job lookup is impossible |
| BootstrapTheorems.RefusalReplies | python/examples/bootstrap_standard_group_channel_server_example.py:191-230 | refusals carry the request id and one code; which of the codes, for which reason, and nested or flat |
| BootstrapTheorems.CodesAgree | python/examples/bootstrap_standard_group_channel_server_example.py:215-220 | both functions choose the same code for the names both list |
| BootstrapTheorems.StrandedExactly | python/examples/bootstrap_extended_channel_server_example.py:225-263 | what a request raises after registering its channel, and in which state the channel stays: as created, or with the template's job still in the future |
| BootstrapTheorems.SuccessReplies | python/examples/bootstrap_extended_channel_server_example.py:209-277 | success, future job and previous hash in that order, with the stored channel's id, target, prefix and extranonce size; the id looked up by template, the id in the job's own message and the id of the job active on the server are one; success alone for work selection |
| BootstrapTheorems.RepliesMirrorServer | python/examples/bootstrap_standard_group_channel_server_example.py:251-308 | after one request the client's picture equals the server's exactly unless a registered channel's activation raised |
| BootstrapTheorems.ClientMirrorsServer | python/examples/bootstrap_extended_channel_server_example.py:209-277 | over every run of one server, connections and cache updates interleaved, all clients know exactly the server's channels, group and active jobs exactly when no request leaves a channel whose activation raised |
| BootstrapTheorems.CoherentCacheStrandsNothing | python/examples/bootstrap_standard_group_channel_server_example.py:251-308 | that never happens when at every request the group, if needed, is there and the cached messages belong together |
| BootstrapTheorems.GroupRuleKept | python/examples/bootstrap_standard_group_channel_server_example.py:141-170 | no run of the server makes a connection gain or lose its group channel |
| BootstrapTheorems.StandardProgramHasGroups | python/examples/bootstrap_standard_group_channel_server_example.py:141-243 | over every run of the standard program a group exists exactly when neither flag is set, and is never missing when dereferenced |
| BootstrapTheorems.StaleCacheStrands | python/examples/bootstrap_extended_channel_server_example.py:238-263 | with a previous hash for another template, an accepted request registers a channel, raises, and the client never learns of it in any later run |
| BootstrapTheorems.OneStrandedChannel | python/examples/bootstrap_extended_channel_server_example.py:238-263 | a concrete server, connection and request for which this happens |

## Left out

- Cryptography, certificates and key validation: libraries, represented by the contracts above.
- Handle allocation, freeing and pointer reconstruction in the C interface: handles are object references.
- The Go wrapper takes the address of each text's first byte (go/sv2/ffi.go:190-194), so it panics on an empty text before the C interface is reached; the model starts at the C interface, where an empty text is accepted.
- Lock poisoning (`LockError`) and `FailedToGetFrameHeader`: never produced by the model.
- Sockets, timeouts, sleeps and printing; the server's single 64-byte handshake read, which may be short, is not modelled.
- Values of message counters are unbounded; the Noise limit on the number of messages is not modelled.
- Codec.Sv2Decoder.TryDecode: after a failed decryption the inner decoder is modelled as reset, since the library's code is not shown; every theorem about what follows such a failure stops there.
- Share validation, targets, vardiff and job contents in the channel library: a request's acceptance is a parameter and a job is its three ids.
- Bootstrap.ConnectionContext.BootstrapStandardChannelServer: channels are values in the registry's maps, so two references to one channel object are not distinguished; user identity, pool tags and coinbase outputs are not carried.
- Hashrates are opaque bit patterns.
- Packaging, binding generation and the remaining example programs.
