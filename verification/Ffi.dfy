/** The C interface the Go programs use: status codes, constructors, getters, encode and decode. */
module Ffi {
  import opened Bytes
  import opened Utf8
  import opened Sv2Messages
  import opened InnerMessages
  import opened Conversion
  import opened CodecErrors
  import opened Noise
  import opened Framing
  import opened Codec

  const ERR_OK := 0
  const ERR_GENERIC := 1
  const ERR_CODEC := 2
  const ERR_MESSAGE := 3
  const ERR_MISSING_BYTES := 23

  /** The status `sv2_try_decode` returns for each decoding error. */
  function ErrorCode(e: Sv2CodecError): int {
    match e
    case LockError => 10
    case BadKey => 11
    case FailedToCreateInitiator => 12
    case FailedToCreateResponder => 13
    case FailedHandshakeStep0 => 14
    case FailedHandshakeStep1 => 15
    case FailedHandshakeStep2 => 16
    case BadInitiatorFrame => 17
    case BadResponderFrame => 18
    case FailedToConvertMessageToFrame => 19
    case FailedToDecodeFrame => 20
    case FailedToGetFrameHeader => 21
    case Sv2MessagesError(_) => 22
    case MissingBytes => ERR_MISSING_BYTES
    case InvalidDataSize(_, _) => 24
  }

  predicate IsMissingBytes(code: int) {
    code == ERR_MISSING_BYTES
  }

  /** What the caller learns from a decoding call; `missing` keeps its initial zero unless bytes are missing. */
  datatype Decoding = Decoding(code: int, message: Option<Sv2Message>, missing: u32)

  function Reported(r: Result<Sv2Message, Sv2CodecError>, bufferSize: u32): Decoding {
    match r
    case Ok(m) => Decoding(ERR_OK, Some(m), 0)
    case Err(e) => Decoding(ErrorCode(e), None, if e.MissingBytes? then bufferSize else 0)
  }

  method TryDecode(env: Env, dec: Sv2Decoder?, state: Sv2CodecState?, data: seq<byte>) returns (r: Decoding)
    modifies dec, state
    ensures dec == null || state == null ==> r == Decoding(ERR_GENERIC, None, 0)
    ensures dec != null && state != null ==>
      var a := Attempted(env, old(dec.State()), old(state.inner), data);
      dec.State() == a.decoder && state.inner == a.noise && r == Reported(a.result, a.decoder.bufferSize)
  {
    if dec == null || state == null {
      return Decoding(ERR_GENERIC, None, 0);
    }
    var res := dec.TryDecode(env, data, state);
    match res {
      case Ok(m) => r := Decoding(ERR_OK, Some(m), 0);
      case Err(MissingBytes) =>
        var size := dec.BufferSize();
        r := Decoding(ERR_MISSING_BYTES, None, size);
      case Err(e) => r := Decoding(ErrorCode(e), None, 0);
    }
  }

  /** The three variants the C interface can encode. */
  predicate Supported(m: Sv2Message) {
    m.SetupConnection? || m.SetupConnectionSuccess? || m.SetupConnectionError?
  }

  method Encode(env: Env, enc: Sv2Encoder?, m: Option<Sv2Message>, state: Sv2CodecState?) returns (code: int, frame: seq<byte>)
    modifies state
    ensures enc == null || m.None? || state == null ==> code == ERR_GENERIC && frame == []
    ensures state != null && code != ERR_OK ==> state.inner == old(state.inner)
    ensures enc != null && m.Some? && state != null ==>
      if !Supported(m.value) then code == ERR_MESSAGE
      else match Encoded(env, old(state.inner), m.value)
           case Ok(e) => code == ERR_OK && frame == e.frame && state.inner == e.noise
           case Err(_) => code == ERR_CODEC
  {
    frame := [];
    if enc == null || m.None? || state == null {
      return ERR_GENERIC, [];
    }
    if !Supported(m.value) {
      return ERR_MESSAGE, [];
    }
    var res := enc.Encode(env, m.value, state);
    if res.Err? {
      return ERR_CODEC, [];
    }
    return ERR_OK, res.value;
  }

  /** `sv2_setup_connection_new`: a null pointer is refused, any bytes become text. */
  function SetupConnectionNew(protocol: byte, minVersion: u16, maxVersion: u16, flags: u32,
                              endpointHost: Option<seq<byte>>, vendor: Option<seq<byte>>,
                              hardwareVersion: Option<seq<byte>>, firmware: Option<seq<byte>>,
                              deviceId: Option<seq<byte>>): (int, Option<Sv2Message>)
  {
    if endpointHost.None? || vendor.None? || hardwareVersion.None? || firmware.None? || deviceId.None? then
      (ERR_MESSAGE, None)
    else
      (ERR_OK, Some(Sv2Message.SetupConnection(protocol, minVersion, maxVersion, flags, Lossy(endpointHost.value), 0,
                                    Lossy(vendor.value), Lossy(hardwareVersion.value), Lossy(firmware.value),
                                    Lossy(deviceId.value))))
  }

  function SetupConnectionSuccessNew(usedVersion: u16, flags: u32): (int, Option<Sv2Message>) {
    (ERR_OK, Some(Sv2Message.SetupConnectionSuccess(usedVersion, flags)))
  }

  datatype SetupConnectionFields = Fields(protocol: byte, minVersion: u16, maxVersion: u16, flags: u32)

  function GetSetupConnection(m: Option<Sv2Message>): (int, Option<SetupConnectionFields>) {
    match m
    case None => (ERR_GENERIC, None)
    case Some(SetupConnection(p, lo, hi, flags, _, _, _, _, _, _)) => (ERR_OK, Some(Fields(p, lo, hi, flags)))
    case Some(_) => (ERR_MESSAGE, None)
  }

  /** The statuses decoding can end with: success, and one for each of the three errors the decoder can report. */
  lemma DecodingCodes(env: Env, d: DecoderState, st: NoiseState, data: seq<byte>)
    ensures var a := Attempted(env, d, st, data);
            var code := Reported(a.result, a.decoder.bufferSize).code;
            && code in {0, 20, 23, 24}
            && (code == 0 <==> a.result.Ok?)
            && (code == 20 <==> a.result == Err(FailedToDecodeFrame))
            && (code == 23 <==> a.result == Err(MissingBytes))
            && (code == 24 <==> data != [] && |data| != d.inner.missing)
  {
    hide OpenChunks, ParseHeader;
  }

  /** A missing text is refused, and nothing else is; what the getter accepts is exactly what the constructor makes. */
  lemma SetupConnectionCalls(protocol: byte, minVersion: u16, maxVersion: u16, flags: u32, texts: seq<Option<seq<byte>>>,
                             m: Option<Sv2Message>)
    requires |texts| == 5
    ensures var (code, made) :=
              SetupConnectionNew(protocol, minVersion, maxVersion, flags, texts[0], texts[1], texts[2], texts[3], texts[4]);
            && (code == ERR_MESSAGE <==> None in texts) && (code == ERR_OK <==> made.Some?) && code in {ERR_OK, ERR_MESSAGE}
            && (made.Some? ==> GetSetupConnection(made) == (ERR_OK, Some(Fields(protocol, minVersion, maxVersion, flags))))
    ensures var (code, fields) := GetSetupConnection(m);
            && (code == ERR_GENERIC <==> m.None?) && (code == ERR_OK <==> m.Some? && m.value.SetupConnection?)
            && (code != ERR_OK ==> fields == None && code in {ERR_GENERIC, ERR_MESSAGE})
  {
    hide Lossy;
    assert forall i :: 0 <= i < 5 ==> (texts[i] == None ==> None in texts);
  }

  /** Of the messages that go out, those supported are the common ones but for the two that come after setup. */
  lemma SupportedKinds(i: InnerMessage)
    ensures Supported(InnerToMessage(i)) <==> i.Common? && !i.common.ChannelEndpointChanged? && !i.common.Reconnect?
  {
    hide Lossy;
  }
}
