/**
 * The streaming encoder and decoder. Each works on a copy of the shared codec state and
 * writes the copy back only on some exits.
 */
module Codec {
  import opened Bytes
  import opened Sv2Messages
  import opened Conversion
  import opened CodecErrors
  import opened Noise
  import opened Framing

  /** Rust's `as u32`. */
  function AsU32(n: nat): u32 {
    n % 0x1_0000_0000
  }

  // ----- the inner decoder: a header, then a payload as long as the header says -----

  datatype Phase = AwaitHeader | AwaitPayload(header: Header)

  /** `noise` holds the sealed bytes received so far, `missing` the size of the writable window. */
  datatype InnerDecoder = InnerDecoder(phase: Phase, noise: seq<byte>, missing: nat)

  datatype FrameEvent = Frame(msgType: byte, payload: seq<byte>) | NeedMore(count: nat) | Broken

  datatype Step = Step(inner: InnerDecoder, noise: NoiseState, event: FrameEvent)

  const IDLE: InnerDecoder := InnerDecoder(AwaitHeader, [], 0)

  function PhaseLen(phase: Phase): nat {
    match phase
    case AwaitHeader => SEALED_HEADER_LEN
    case AwaitPayload(h) => SealedLen(h.length)
  }

  /** One attempt to make progress with the bytes at hand. */
  function NextFrame(env: Env, d: InnerDecoder, st: NoiseState): Step {
    var needed := PhaseLen(d.phase);
    if st.HandShake? then
      Step(IDLE, st, Broken)
    else if |d.noise| < needed then
      Step(d.(missing := needed - |d.noise|), st, NeedMore(needed - |d.noise|))
    else
      match d.phase
      case AwaitHeader => OpenHeader(env, d.noise, st)
      case AwaitPayload(h) =>
        match OpenChunks(env.aead, st.recvKey, st.recvNonce, d.noise)
        case None => Step(IDLE, st, Broken)
        case Some(payload) =>
          Step(IDLE, st.(recvNonce := st.recvNonce + SealedChunkCount(|d.noise|)), Frame(h.msgType, payload))
  }

  function OpenHeader(env: Env, sealed: seq<byte>, st: NoiseState): Step
    requires st.Transport?
  {
    match env.aead.open(st.recvKey, st.recvNonce, sealed)
    case None => Step(IDLE, st, Broken)
    case Some(b) =>
      if |b| != HEADER_LEN then Step(IDLE, st, Broken) else
      var h := ParseHeader(b);
      Step(InnerDecoder(AwaitPayload(h), [], SealedLen(h.length)),
           st.(recvNonce := st.recvNonce + 1),
           NeedMore(SealedLen(h.length)))
  }

  /** How many counter values opening `len` sealed payload bytes uses. */
  function SealedChunkCount(len: nat): nat {
    (len + NOISE_FRAME_MAX - 1) / NOISE_FRAME_MAX
  }

  // ----- Sv2Decoder -----

  datatype DecoderState = DecoderState(inner: InnerDecoder, bufferSize: u32)

  datatype Attempt = Attempt(decoder: DecoderState, noise: NoiseState, result: Result<Sv2Message, Sv2CodecError>)

  /** What one call of `try_decode` leaves in the decoder and the shared state, and what it returns. */
  function Attempted(env: Env, d: DecoderState, st: NoiseState, data: seq<byte>): Attempt {
    if data != [] && |data| != d.inner.missing then
      Attempt(d, st, Err(InvalidDataSize(AsU32(d.inner.missing), AsU32(|data|))))
    else
      var step := NextFrame(env, d.inner.(noise := d.inner.noise + data), st);
      match step.event
      case Frame(msgType, payload) =>
        (match env.wire.parse(msgType, payload)
         case None => Attempt(d.(inner := step.inner), st, Err(FailedToDecodeFrame))
         case Some(m) => Attempt(DecoderState(step.inner, 0), step.noise, Ok(InnerToMessage(m))))
      case NeedMore(count) => Attempt(DecoderState(step.inner, AsU32(count)), step.noise, Err(MissingBytes))
      case Broken => Attempt(d.(inner := step.inner), st, Err(FailedToDecodeFrame))
  }

  class Sv2Decoder {
    var inner: InnerDecoder
    var bufferSize: u32

    function State(): DecoderState
      reads this
    {
      DecoderState(inner, bufferSize)
    }

    constructor ()
      ensures State() == DecoderState(IDLE, 0)
    {
      inner := IDLE;
      bufferSize := AsU32(IDLE.missing);
    }

    method BufferSize() returns (n: u32)
      ensures n == bufferSize
    {
      n := bufferSize;
    }

    method TryDecode(env: Env, data: seq<byte>, state: Sv2CodecState) returns (r: Result<Sv2Message, Sv2CodecError>)
      modifies this, state
      ensures Attempt(State(), state.inner, r) == Attempted(env, old(State()), old(state.inner), data)
    {
      var innerState := state.inner;

      if data != [] {
        var window := inner.missing;
        if window != |data| {
          return Err(InvalidDataSize(AsU32(window), AsU32(|data|)));
        }
        inner := inner.(noise := inner.noise + data);
      } else {
        assert inner.noise + data == inner.noise;
      }

      var step := NextFrame(env, inner, innerState);
      inner := step.inner;
      innerState := step.noise;
      match step.event {
        case Frame(msgType, payload) =>
          var parsed := env.wire.parse(msgType, payload);
          if parsed.None? {
            return Err(FailedToDecodeFrame);
          }
          state.inner := innerState;
          bufferSize := 0;
          r := Ok(InnerToMessage(parsed.value));
        case NeedMore(count) =>
          state.inner := innerState;
          bufferSize := AsU32(count);
          r := Err(MissingBytes);
        case Broken =>
          r := Err(FailedToDecodeFrame);
      }
    }
  }

  // ----- Sv2Encoder -----

  datatype Encoding = Encoding(frame: seq<byte>, noise: NoiseState)

  /** The frame `encode` returns for a message and the state it leaves, or the error it reports. */
  function Encoded(env: Env, st: NoiseState, m: Sv2Message): Result<Encoding, Sv2CodecError> {
    match MessageToInner(m)
    case Err(e) => Err(Sv2MessagesError(e))
    case Ok(inner) =>
      if |env.wire.serialize(inner)| > MAX_PAYLOAD || st.HandShake? then Err(FailedToConvertMessageToFrame) else
      Ok(Encoding(SealFrame(env, st.sendKey, st.sendNonce, inner),
                  st.(sendNonce := st.sendNonce + FrameNonces(env, inner))))
  }

  class Sv2Encoder {
    constructor () {
    }

    method Encode(env: Env, message: Sv2Message, state: Sv2CodecState) returns (r: Result<seq<byte>, Sv2CodecError>)
      modifies state
      ensures match Encoded(env, old(state.inner), message)
              case Ok(e) => r == Ok(e.frame) && state.inner == e.noise
              case Err(error) => r == Err(error) && state.inner == old(state.inner)
    {
      var converted := MessageToInner(message);
      if converted.Err? {
        return Err(Sv2MessagesError(converted.error));
      }
      var payload := env.wire.serialize(converted.value);
      if |payload| > MAX_PAYLOAD {
        return Err(FailedToConvertMessageToFrame);
      }
      var innerState := state.inner;
      if innerState.HandShake? {
        return Err(FailedToConvertMessageToFrame);
      }
      var frame := SealFrame(env, innerState.sendKey, innerState.sendNonce, converted.value);
      innerState := innerState.(sendNonce := innerState.sendNonce + FrameNonces(env, converted.value));
      state.inner := innerState;
      r := Ok(frame);
    }
  }
}
