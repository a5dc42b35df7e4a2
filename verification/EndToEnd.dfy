/** The path the two Go programs take together: handshake, SetupConnection, answer. */
module EndToEnd {
  import opened Bytes
  import opened Utf8
  import opened Sv2Messages
  import opened Noise
  import opened Handshake
  import opened Framing
  import opened Codec
  import opened CodecTheorems
  import opened Stream
  import opened DriveLoops
  import Ffi

  /** What the caller of `sv2_setup_connection_new` passes: five texts as arbitrary bytes. */
  datatype SetupArgs = SetupArgs(
    protocol: byte, minVersion: u16, maxVersion: u16, flags: u32,
    endpointHost: seq<byte>, vendor: seq<byte>, hardwareVersion: seq<byte>, firmware: seq<byte>, deviceId: seq<byte>)

  function Built(a: SetupArgs): (m: Sv2Message)
    ensures m.SetupConnection?
  {
    Ffi.SetupConnectionNew(a.protocol, a.minVersion, a.maxVersion, a.flags, Some(a.endpointHost), Some(a.vendor),
                           Some(a.hardwareVersion), Some(a.firmware), Some(a.deviceId)).1.value
  }

  predicate Fits(a: SetupArgs) {
    && a.protocol <= 2
    && |Lossy(a.endpointHost)| <= 255 && |Lossy(a.vendor)| <= 255 && |Lossy(a.hardwareVersion)| <= 255
    && |Lossy(a.firmware)| <= 255 && |Lossy(a.deviceId)| <= 255
  }

  /** In a session, a SetupConnection built from any bytes can be sent exactly when it fits. */
  lemma SendableExactlyWhenItFits(env: Env, st: NoiseState, a: SetupArgs)
    requires env.Sound() && st.Transport?
    ensures Encoded(env, st, Built(a)).Ok? <==> Fits(a)
    ensures Fits(a) ==> Sendable(env, st, Built(a))
  {
    hide Lossy, SealFrame;
  }

  /** The answer to a SetupConnection can always be sent. */
  lemma AnswerSendable(env: Env, st: NoiseState, m: Sv2Message)
    requires env.Sound() && st.Transport? && m.SetupConnection?
    ensures Sendable(env, st, Answer(m)) && !CannotAnswer(env, m)
  {
    hide SealFrame;
  }

  /** The bytes are a sealed header that opens under the receiver's counter and announces an empty payload. */
  predicate AnnouncesEmpty(env: Env, d: DecoderState, st: NoiseState, data: seq<byte>)
    requires st.Transport?
  {
    && d.inner.phase.AwaitHeader? && |data| == SEALED_HEADER_LEN
    && match env.aead.open(st.recvKey, st.recvNonce, data)
       case None => false
       case Some(b) => |b| == HEADER_LEN && ParseHeader(b).length == 0
  }

  /**
   * Missing bytes are always reported as the next buffer size. It is zero exactly when the
   * call is given a header that announces an empty payload.
   */
  lemma MissingIsNextBufferSize(env: Env, d: DecoderState, st: NoiseState, data: seq<byte>)
    requires InStep(d) && Abides(d, data) && st.Transport?
    ensures var a := Attempted(env, d, st, data);
            var reported := Ffi.Reported(a.result, a.decoder.bufferSize);
            && (Ffi.IsMissingBytes(reported.code) ==> InStep(a.decoder) && reported.missing == a.decoder.bufferSize)
            && (Ffi.IsMissingBytes(reported.code) && reported.missing == 0 <==> AnnouncesEmpty(env, d, st, data))
  {
    hide ParseHeader, OpenChunks;
    CallKeepsStep(env, d, st, data);
    match d.inner.phase
    case AwaitPayload(h) => SealedLenFits(h.length);
    case AwaitHeader =>
      if |data| == SEALED_HEADER_LEN {
        assert d.inner.noise + data == data;
        match env.aead.open(st.recvKey, st.recvNonce, data)
        case None =>
        case Some(b) => if |b| == HEADER_LEN { SealedLenFits(ParseHeader(b).length); }
      }
  }

  /** Any sealed header of length zero is one: the decoder then asks for nothing. */
  lemma EmptyPayloadReportsZero(env: Env, st: NoiseState, h: Header)
    requires env.aead.Sound() && st.Transport? && h.length == 0
    ensures var sealed := env.aead.seal(st.recvKey, st.recvNonce, HeaderBytes(h));
            var a := Attempted(env, Polled(), st, sealed);
            && AnnouncesEmpty(env, Polled(), st, sealed)
            && Ffi.Reported(a.result, a.decoder.bufferSize) == Ffi.Decoding(Ffi.ERR_MISSING_BYTES, None, 0)
  {
    hide Attempted, HeaderBytes, ParseHeader;
    HeaderCall(env, st, h);
    HeaderRoundTrip(h);
    SealedLenFits(h.length);
  }

  /** A SetupConnection that fits arrives in three decoder calls with every field it was built from. */
  lemma SetupConnectionArrives(env: Env, sender: NoiseState, receiver: NoiseState, a: SetupArgs)
    requires env.Sound() && Paired(sender, receiver) && Fits(a)
    ensures Encoded(env, sender, Built(a)).Ok?
    ensures var e := Encoded(env, sender, Built(a)).value;
            |e.frame| > SEALED_HEADER_LEN
            && var a0 := Attempted(env, DecoderState(IDLE, 0), receiver, []);
            var a1 := Attempted(env, a0.decoder, a0.noise, e.frame[..SEALED_HEADER_LEN]);
            var a2 := Attempted(env, a1.decoder, a1.noise, e.frame[SEALED_HEADER_LEN..]);
            && Ffi.Reported(a0.result, a0.decoder.bufferSize) == Ffi.Decoding(Ffi.ERR_MISSING_BYTES, None, SEALED_HEADER_LEN)
            && Ffi.Reported(a1.result, a1.decoder.bufferSize)
               == Ffi.Decoding(Ffi.ERR_MISSING_BYTES, None, a1.decoder.bufferSize)
            && a1.decoder.bufferSize == |e.frame| - SEALED_HEADER_LEN > 0
            && a2.result == Ok(Sv2Message.SetupConnection(
                 a.protocol, a.minVersion, a.maxVersion, a.flags, Lossy(a.endpointHost), 0, Lossy(a.vendor),
                 Lossy(a.hardwareVersion), Lossy(a.firmware), Lossy(a.deviceId)))
            && Ffi.GetSetupConnection(Some(a2.result.value))
               == (Ffi.ERR_OK, Some(Ffi.Fields(a.protocol, a.minVersion, a.maxVersion, a.flags)))
            && Paired(e.noise, a2.noise)
  {
    hide Attempted, Encoded, Lossy;
    SendableExactlyWhenItFits(env, sender, a);
    FrameTakesThreeCalls(env, sender, receiver, Built(a));
    EncodedInSession(env, sender, Built(a));
  }

  /**
   * The client's loop and the server's loop together, on a completed pair: the server reads
   * exactly the SetupConnection, writes one answer, the client stops at it with the version
   * and flags it offered, and the two states are a pair again.
   */
  lemma WholeExchange(env: Env, client: NoiseState, server: NoiseState, a: SetupArgs)
    requires env.Sound() && Paired(client, server) && Fits(a)
    ensures Encoded(env, client, Built(a)).Ok?
    ensures var e := Encoded(env, client, Built(a)).value;
            var atServer := Parse(env, server.recvKey, server.recvNonce, e.frame, m => CannotAnswer(env, m));
            && atServer == Outcome([Built(a)], Starved, [], e.noise.sendNonce)
            && var replies := EncodeAll(env, server, Answers(env, atServer.delivered));
            && replies.Ok? && replies.value.noise.Transport? && e.noise.Transport?
            && var atClient := Parse(env, e.noise.recvKey, e.noise.recvNonce, replies.value.frame, IsSetupConnectionSuccess);
            && atClient == Outcome([Sv2Message.SetupConnectionSuccess(a.maxVersion, a.flags)], Stopped, [], replies.value.noise.sendNonce)
            && Paired(e.noise.(recvNonce := atClient.nonce), replies.value.noise.(recvNonce := atServer.nonce))
  {
    hide Encoded, Parse, Lossy, CannotAnswer;
    var m := Built(a);
    SendableExactlyWhenItFits(env, client, a);
    AnswerSendable(env, server, m);
    EncodedInSession(env, client, m);
    EncodedInSession(env, server, Answer(m));
    var e := Encoded(env, client, m).value;
    var f := Encoded(env, server, Answer(m)).value;
    OneMessage(env, client, m);
    WholeStreamRoundTrip(env, client, [m], x => CannotAnswer(env, x));
    assert Answers(env, [m]) == [Answer(m)] by { assert [m][..0] == []; }
    OneMessage(env, server, Answer(m));
    StopsAtFirst(env, server, [], Answer(m), [], IsSetupConnectionSuccess);
    assert [] + (f.frame + []) == f.frame;
    assert [] + [Answer(m)] == [Answer(m)];
  }

  /** The client's loop reads past everything that is not a SetupConnectionSuccess, and stops at the first one. */
  lemma ClientSkipsOthers(env: Env, server: NoiseState, before: seq<Sv2Message>, usedVersion: u16, flags: u32, tail: seq<byte>)
    requires env.Sound() && server.Transport? && EncodeAll(env, server, before).Ok? && AllWithinCounts(before)
    requires forall m :: m in before ==> !m.SetupConnectionSuccess?
    ensures var last, e := Sv2Message.SetupConnectionSuccess(usedVersion, flags), EncodeAll(env, server, before).value;
            && Encoded(env, e.noise, last).Ok?
            && var f := Encoded(env, e.noise, last).value;
            && f.noise.Transport?
            && Parse(env, server.sendKey, server.sendNonce, e.frame + (f.frame + tail), IsSetupConnectionSuccess)
               == Outcome(before + [last], Stopped, tail, f.noise.sendNonce)
  {
    hide Encoded, Parse, EncodeAll;
    var last := Sv2Message.SetupConnectionSuccess(usedVersion, flags);
    EncodeKeepsKey(env, server, before);
    SuccessSendable(env, EncodeAll(env, server, before).value.noise, usedVersion, flags);
    StopsAtFirst(env, server, before, last, tail, IsSetupConnectionSuccess);
  }

  lemma SuccessSendable(env: Env, st: NoiseState, usedVersion: u16, flags: u32)
    requires env.Sound() && st.Transport?
    ensures Sendable(env, st, Sv2Message.SetupConnectionSuccess(usedVersion, flags))
  {
    hide SealFrame;
  }

  /** The server's loop reads every message sent to it, whatever they are, and never gives up on an answer. */
  lemma ServerReadsAll(env: Env, client: NoiseState, ms: seq<Sv2Message>)
    requires env.Sound() && client.Transport? && EncodeAll(env, client, ms).Ok? && AllWithinCounts(ms)
    ensures var e := EncodeAll(env, client, ms).value;
            && e.noise.Transport?
            && Parse(env, client.sendKey, client.sendNonce, e.frame, m => CannotAnswer(env, m)) == Outcome(ms, Starved, [], e.noise.sendNonce)
  {
    hide Encoded, Parse, EncodeAll, CannotAnswer;
    forall m | m in ms
      ensures !CannotAnswer(env, m)
    {
      OnlySetupUnanswerable(env, m);
      if m.SetupConnection? {
        AnswerSendable(env, client, m);
      }
    }
    WholeStreamRoundTrip(env, client, ms, m => CannotAnswer(env, m));
  }

  lemma OneMessage(env: Env, st: NoiseState, m: Sv2Message)
    requires Encoded(env, st, m).Ok?
    ensures EncodeAll(env, st, [m]) == Encoded(env, st, m)
  {
    hide Encoded;
    var e := Encoded(env, st, m).value;
    assert e.frame + [] == e.frame;
    assert EncodeAll(env, e.noise, []) == Ok(Encoding([], e.noise));
  }
}
