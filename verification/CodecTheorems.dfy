/** What every call of the streaming codec keeps, and how sender and receiver stay in step. */
module CodecTheorems {
  import opened Bytes
  import opened Sv2Messages
  import opened InnerMessages
  import opened Conversion
  import opened MessageTheorems
  import opened CodecErrors
  import opened Noise
  import opened Framing
  import opened Codec

  // ----- errors -----

  /** Encoding reports the first thing in its way: conversion, then the frame size and the missing session. */
  lemma EncodedExactly(env: Env, st: NoiseState, m: Sv2Message)
    ensures forall e :: Encoded(env, st, m) == Err(Sv2MessagesError(e)) <==> MessageToInner(m) == Err(e)
    ensures Encoded(env, st, m) == Err(FailedToConvertMessageToFrame) <==>
            MessageToInner(m).Ok?
            && (st.HandShake? || |env.wire.serialize(MessageToInner(m).value)| > MAX_PAYLOAD)
    ensures Encoded(env, st, m).Err? ==>
            Encoded(env, st, m).error.Sv2MessagesError? || Encoded(env, st, m).error == FailedToConvertMessageToFrame
  {
    hide MessageToInner, SealFrame;
  }

  /** Data of a size not asked for is refused with both sizes, and changes nothing; any other call is not refused so. */
  lemma WrongSizeRefused(env: Env, d: DecoderState, st: NoiseState, data: seq<byte>)
    ensures var a := Attempted(env, d, st, data);
            if data != [] && |data| != d.inner.missing then
              a.result == Err(InvalidDataSize(AsU32(d.inner.missing), AsU32(|data|))) && a.decoder == d && a.noise == st
            else a.result.Err? ==> !a.result.error.InvalidDataSize?
  {
    hide MessageToInner, InnerToMessage, OpenChunks, ParseHeader;
  }

  // ----- the byte count the decoder reports -----

  /** The reported buffer size is the inner decoder's writable length, and no partial data is held. */
  ghost predicate InStep(d: DecoderState) {
    && d.bufferSize == d.inner.missing
    && d.inner.noise == []
    && (d.inner == IDLE || d.inner.missing == PhaseLen(d.inner.phase))
  }

  /** The caller supplies nothing, or exactly what was asked for. */
  ghost predicate Abides(d: DecoderState, data: seq<byte>) {
    data == [] || |data| == d.bufferSize
  }

  /** An abiding call is never refused for its size and, unless decoding fails for good, keeps the count right. */
  lemma CallKeepsStep(env: Env, d: DecoderState, st: NoiseState, data: seq<byte>)
    requires InStep(d) && Abides(d, data)
    ensures var a := Attempted(env, d, st, data);
            && (a.result.Err? ==> a.result.error in {MissingBytes, FailedToDecodeFrame})
            && (a.result != Err(FailedToDecodeFrame) ==> InStep(a.decoder))
            && (a.result.Ok? ==> a.decoder == DecoderState(IDLE, 0))
            && (a.result == Err(MissingBytes) ==>
                 a.decoder.bufferSize == PhaseLen(a.decoder.inner.phase)
                 && (a.decoder.bufferSize == 0 <==> a.decoder.inner.phase.AwaitPayload? && a.decoder.inner.phase.header.length == 0))
  {
    hide MessageToInner, InnerToMessage, OpenChunks;
    match d.inner.phase {
      case AwaitHeader =>
      case AwaitPayload(h) => SealedLenFits(h.length);
    }
    match Attempted(env, d, st, data).decoder.inner.phase {
      case AwaitHeader =>
      case AwaitPayload(h) => SealedLenFits(h.length);
    }
  }

  /** The results of a sequence of calls, up to and including the first that fails for good. */
  ghost function Results(env: Env, d: DecoderState, st: NoiseState, datas: seq<seq<byte>>): seq<Result<Sv2Message, Sv2CodecError>>
    decreases |datas|
  {
    if datas == [] then [] else
    var a := Attempted(env, d, st, datas[0]);
    [a.result] + if a.result == Err(FailedToDecodeFrame) then [] else Results(env, a.decoder, a.noise, datas[1..])
  }

  ghost predicate AllAbide(env: Env, d: DecoderState, st: NoiseState, datas: seq<seq<byte>>)
    decreases |datas|
  {
    datas == [] ||
    var a := Attempted(env, d, st, datas[0]);
    Abides(d, datas[0]) && (a.result == Err(FailedToDecodeFrame) || AllAbide(env, a.decoder, a.noise, datas[1..]))
  }

  /** Whatever the bytes are, a caller that abides by `buffer_size` never sees `InvalidDataSize`. */
  lemma {:induction false} AbidingCallerNeverRefused(env: Env, d: DecoderState, st: NoiseState, datas: seq<seq<byte>>)
    requires InStep(d) && AllAbide(env, d, st, datas)
    ensures forall r :: r in Results(env, d, st, datas) ==> r.Ok? || r.error in {MissingBytes, FailedToDecodeFrame}
    decreases |datas|
  {
    hide Attempted;
    if datas != [] {
      var a := Attempted(env, d, st, datas[0]);
      CallKeepsStep(env, d, st, datas[0]);
      if a.result != Err(FailedToDecodeFrame) {
        AbidingCallerNeverRefused(env, a.decoder, a.noise, datas[1..]);
      }
    }
  }

  // ----- the counters of sender and receiver -----

  lemma {:induction false} SealedChunksCounted(len: nat)
    ensures SealedChunkCount(SealedLen(len)) == ChunkCount(len)
  {
    ChunkCountStep(len);
    if len > CHUNK_LEN {
      SealedChunksCounted(len - CHUNK_LEN);
      SealedChunkStep(SealedLen(len - CHUNK_LEN));
      assert SealedLen(len) == SealedLen(len - CHUNK_LEN) + NOISE_FRAME_MAX;
    }
  }

  lemma SealedChunkStep(n: nat)
    ensures SealedChunkCount(n + NOISE_FRAME_MAX) == SealedChunkCount(n) + 1
  {
  }

  /** A receiver whose key and counter are the ones the sender will use next. */
  ghost predicate Listening(sender: NoiseState, receiver: NoiseState) {
    sender.Transport? && receiver.Transport? && receiver.recvKey == sender.sendKey && receiver.recvNonce == sender.sendNonce
  }

  ghost predicate Sendable(env: Env, sender: NoiseState, m: Sv2Message) {
    Encoded(env, sender, m).Ok? && WithinCounts(MessageToInner(m).value)
  }

  /** The decoder after a header has been read, waiting for its payload. */
  function Awaiting(h: Header): DecoderState {
    DecoderState(InnerDecoder(AwaitPayload(h), [], SealedLen(h.length)), AsU32(SealedLen(h.length)))
  }

  lemma HeaderCall(env: Env, st: NoiseState, h: Header)
    requires env.aead.Sound() && st.Transport?
    ensures var sealed := env.aead.seal(st.recvKey, st.recvNonce, HeaderBytes(h));
            |sealed| == SEALED_HEADER_LEN
            && Attempted(env, Polled(), st, sealed)
               == Attempt(Awaiting(h), st.(recvNonce := st.recvNonce + 1), Err(MissingBytes))
  {
    HeaderRoundTrip(h);
    var sealed := env.aead.seal(st.recvKey, st.recvNonce, HeaderBytes(h));
    assert env.aead.open(st.recvKey, st.recvNonce, sealed) == Some(HeaderBytes(h));
    assert [] + sealed == sealed;
  }

  lemma PayloadCall(env: Env, st: NoiseState, h: Header, payload: seq<byte>)
    requires env.aead.Sound() && st.Transport? && payload != [] && h.length == |payload|
    ensures var sealed := SealChunks(env.aead, st.recvKey, st.recvNonce, payload);
            && |sealed| == SealedLen(h.length) > 0
            && Attempted(env, Awaiting(h), st, sealed) ==
               match env.wire.parse(h.msgType, payload)
               case None => Attempt(DecoderState(IDLE, AsU32(SealedLen(h.length))), st, Err(FailedToDecodeFrame))
               case Some(m) =>
                 Attempt(DecoderState(IDLE, 0), st.(recvNonce := st.recvNonce + ChunkCount(|payload|)), Ok(InnerToMessage(m)))
  {
    hide MessageToInner, InnerToMessage, SealChunks, OpenChunks;
    ChunksRoundTrip(env.aead, st.recvKey, st.recvNonce, payload);
    SealedLenFits(h.length);
    SealedChunksCounted(h.length);
    var sealed := SealChunks(env.aead, st.recvKey, st.recvNonce, payload);
    assert [] + sealed == sealed;
  }

  /**
   * The state is committed only when the frame parses. So after a payload the sender sealed,
   * the receiver's counter is the sender's, and the reported size is the writable length,
   * exactly when the payload parses.
   */
  lemma InStepIffFrameParses(env: Env, st: NoiseState, h: Header, payload: seq<byte>)
    requires env.aead.Sound() && st.Transport? && payload != [] && h.length == |payload|
    ensures var a := Attempted(env, Awaiting(h), st, SealChunks(env.aead, st.recvKey, st.recvNonce, payload));
            var parses := env.wire.parse(h.msgType, payload).Some?;
            && (parses <==> a.result.Ok?)
            && (parses <==> a.noise == st.(recvNonce := st.recvNonce + ChunkCount(|payload|)))
            && (parses <==> InStep(a.decoder))
  {
    hide Attempted, SealChunks, SealedLen;
    PayloadCall(env, st, h, payload);
    SealedLenFits(h.length);
    ChunkCountStep(h.length);
  }

  /**
   * A frame is decoded in exactly three calls: one to learn the header size, one with the
   * header, one with the payload. The receiver's counter is the sender's at the start, one
   * ahead after the header, and the sender's next one at the end.
   */
  lemma FrameTakesThreeCalls(env: Env, sender: NoiseState, receiver: NoiseState, m: Sv2Message)
    requires env.Sound() && Sendable(env, sender, m) && Listening(sender, receiver)
    ensures var e := Encoded(env, sender, m).value;
            var a0 := Attempted(env, DecoderState(IDLE, 0), receiver, []);
            && |e.frame| > SEALED_HEADER_LEN
            && a0 == Attempt(Polled(), receiver, Err(MissingBytes))
            && var a1 := Attempted(env, a0.decoder, a0.noise, e.frame[..SEALED_HEADER_LEN]);
            && a1.result == Err(MissingBytes) && a1.decoder.bufferSize == |e.frame| - SEALED_HEADER_LEN
            && a1.noise == receiver.(recvNonce := sender.sendNonce + 1)
            && var a2 := Attempted(env, a1.decoder, a1.noise, e.frame[SEALED_HEADER_LEN..]);
            && a2.result == Ok(m) && a2.decoder == DecoderState(IDLE, 0)
            && a2.noise == receiver.(recvNonce := e.noise.sendNonce)
  {
    hide Attempted, MessageToInner, InnerToMessage, SealChunks, HeaderBytes, ParseHeader;
    var inner := MessageToInner(m).value;
    var payload := env.wire.serialize(inner);
    var h := Header(env.wire.extension(inner), env.wire.msgType(inner), |payload|);
    MessageRoundTrip(m);
    FrameParts(env, sender.sendKey, sender.sendNonce, inner);
    PollCall(env, receiver);
    HeaderCall(env, receiver, h);
    PayloadCall(env, receiver.(recvNonce := receiver.recvNonce + 1), h, payload);
    SealedLenFits(h.length);
  }

  /** The decoder once it has announced that it wants a header. */
  function Polled(): DecoderState {
    DecoderState(IDLE.(missing := SEALED_HEADER_LEN), SEALED_HEADER_LEN)
  }

  lemma PollCall(env: Env, st: NoiseState)
    requires st.Transport?
    ensures Attempted(env, DecoderState(IDLE, 0), st, []) == Attempt(Polled(), st, Err(MissingBytes))
  {
  }

  /** What goes over the wire: the header of section 3.2 under the next counter value, the payload behind it. */
  lemma EncodedFrame(env: Env, st: NoiseState, m: Sv2Message)
    requires env.aead.Sound() && Encoded(env, st, m).Ok?
    ensures st.Transport?
    ensures var inner, frame := MessageToInner(m).value, Encoded(env, st, m).value.frame;
            && |frame| >= SEALED_HEADER_LEN
            && var b := env.aead.open(st.sendKey, st.sendNonce, frame[..SEALED_HEADER_LEN]);
            && b.Some? && |b.value| == HEADER_LEN
            && var e0: int, e1: int := b.value[0], b.value[1];
               var l0: int, l1: int, l2: int := b.value[3], b.value[4], b.value[5];
            && e0 + 256 * e1 == env.wire.extension(inner) && b.value[2] == env.wire.msgType(inner)
            && l0 + 256 * l1 + 65536 * l2 == |env.wire.serialize(inner)|
            && OpenChunks(env.aead, st.sendKey, st.sendNonce + 1, frame[SEALED_HEADER_LEN..]) == Some(env.wire.serialize(inner))
  {
    hide MessageToInner, HeaderBytes, SealChunks, OpenChunks;
    var inner := MessageToInner(m).value;
    var payload := env.wire.serialize(inner);
    FrameParts(env, st.sendKey, st.sendNonce, inner);
    HeaderLayout(Header(env.wire.extension(inner), env.wire.msgType(inner), |payload|));
    ChunksRoundTrip(env.aead, st.sendKey, st.sendNonce + 1, payload);
  }

  lemma FrameParts(env: Env, k: Key, n: nat, inner: InnerMessage)
    requires env.aead.Sound() && |env.wire.serialize(inner)| <= MAX_PAYLOAD
    ensures var payload := env.wire.serialize(inner);
            var h := Header(env.wire.extension(inner), env.wire.msgType(inner), |payload|);
            var frame := SealFrame(env, k, n, inner);
            && |frame| == SEALED_HEADER_LEN + SealedLen(h.length)
            && frame[..SEALED_HEADER_LEN] == env.aead.seal(k, n, HeaderBytes(h))
            && frame[SEALED_HEADER_LEN..] == SealChunks(env.aead, k, n + 1, payload)
  {
    ChunksRoundTrip(env.aead, k, n + 1, env.wire.serialize(inner));
  }
}
