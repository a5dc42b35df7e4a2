/** The errors every codec operation can report. */
module CodecErrors {
  import opened Bytes
  import opened Conversion

  datatype Sv2CodecError =
    | LockError
    | BadKey
    | FailedToCreateInitiator
    | FailedToCreateResponder
    | FailedHandshakeStep0
    | FailedHandshakeStep1
    | FailedHandshakeStep2
    | BadInitiatorFrame
    | BadResponderFrame
    | FailedToConvertMessageToFrame
    | FailedToDecodeFrame
    | FailedToGetFrameHeader
    | Sv2MessagesError(message: Sv2MessageError)
    | MissingBytes
    | InvalidDataSize(expected: u32, actual: u32)
}

/**
 * The encrypted session as the codec sees it. The cryptography itself is not part of this
 * repository: it enters as records of functions, each with one contract.
 */
module Noise {
  import opened Bytes
  import opened CodecErrors

  const MAC_LEN := 16
  const INITIATOR_FRAME_LEN := 64
  const RESPONDER_FRAME_LEN := 234

  type Key = nat

  /** Authenticated encryption under a key and a message counter. */
  datatype Aead = Aead(
    seal: (Key, nat, seq<byte>) -> seq<byte>,
    open: (Key, nat, seq<byte>) -> Option<seq<byte>>)
  {
    /** Sealing adds an authentication tag, opening removes it, and opening undoes sealing. */
    ghost predicate Sound() {
      && (forall k, n, b :: |seal(k, n, b)| == |b| + MAC_LEN)
      && (forall k, n, b :: open(k, n, seal(k, n, b)) == Some(b))
      && (forall k, n, c :: open(k, n, c).Some? ==> |c| == |open(k, n, c).value| + MAC_LEN)
    }
  }

  datatype Session = Session(sendKey: Key, recvKey: Key)

  function Mirror(s: Session): Session {
    Session(s.recvKey, s.sendKey)
  }

  /** The three key-exchange computations. `hash` is the initiator's running transcript. */
  datatype KeyExchange = KeyExchange(
    hello: (nat, nat) -> (seq<byte>, nat),
    respond: (nat, seq<byte>) -> Option<(seq<byte>, Session)>,
    finish: (nat, nat, seq<byte>) -> Option<Session>)
  {
    ghost predicate Sound() {
      && (forall i, r :: Agree(i, r))
      && forall i, r, said, hash :: NeverMistaken(i, r, said, hash)
    }

    /**
     * An initiator, however often it has said hello, that accepts an answer to one of its own
     * hellos gets the responder's session mirrored; it may also reject the answer.
     */
    ghost predicate NeverMistaken(i: nat, r: nat, said: nat, hash: nat) {
      var answer := respond(r, hello(i, said).0);
      answer.Some? && finish(i, hash, answer.value.0).Some? ==>
        finish(i, hash, answer.value.0) == Some(Mirror(answer.value.1))
    }

    /** An initiator that says hello once and finishes with the answer agrees with the responder. */
    ghost predicate Agree(i: nat, r: nat) {
      var (frame, hash) := hello(i, FRESH);
      && |frame| == INITIATOR_FRAME_LEN
      && respond(r, frame).Some?
      && var (reply, session) := respond(r, frame).value;
      && |reply| == RESPONDER_FRAME_LEN
      && finish(i, hash, reply) == Some(Mirror(session))
    }
  }

  const FRESH := 0

  datatype Role = Initiator(secret: nat, hash: nat) | Responder(secret: nat)

  /** A codec state: still shaking hands, or a session with a key and a counter for each direction. */
  datatype NoiseState =
    | HandShake(role: Role)
    | Transport(sendKey: Key, sendNonce: nat, recvKey: Key, recvNonce: nat)

  function Begin(s: Session): NoiseState {
    Transport(s.sendKey, 0, s.recvKey, 0)
  }

  // ----- the handshake steps, as functions of the state -----

  datatype Stepped<T> = Stepped(state: NoiseState, result: Result<T, Sv2CodecError>)

  function Step0(kx: KeyExchange, st: NoiseState): Stepped<seq<byte>> {
    if st.HandShake? && st.role.Initiator? then
      var (frame, hash) := kx.hello(st.role.secret, st.role.hash);
      Stepped(HandShake(Initiator(st.role.secret, hash)), Ok(frame))
    else Stepped(st, Err(FailedHandshakeStep0))
  }

  function Step1(kx: KeyExchange, st: NoiseState, frame: seq<byte>): Stepped<seq<byte>> {
    if |frame| != INITIATOR_FRAME_LEN then Stepped(st, Err(BadInitiatorFrame))
    else if st.HandShake? && st.role.Responder? && kx.respond(st.role.secret, frame).Some? then
      var (reply, session) := kx.respond(st.role.secret, frame).value;
      Stepped(Begin(session), Ok(reply))
    else Stepped(st, Err(FailedHandshakeStep1))
  }

  function Step2(kx: KeyExchange, st: NoiseState, frame: seq<byte>): Stepped<()> {
    if |frame| != RESPONDER_FRAME_LEN then Stepped(st, Err(BadResponderFrame))
    else if st.HandShake? && st.role.Initiator? && kx.finish(st.role.secret, st.role.hash, frame).Some? then
      Stepped(Begin(kx.finish(st.role.secret, st.role.hash, frame).value), Ok(()))
    else Stepped(st, Err(FailedHandshakeStep2))
  }

  /** The shared, lockable state object handed to encoders and decoders. */
  class Sv2CodecState {
    var inner: NoiseState

    constructor (initial: NoiseState)
      ensures inner == initial
    {
      inner := initial;
    }

    method StepZero(kx: KeyExchange) returns (r: Result<seq<byte>, Sv2CodecError>)
      modifies this
      ensures Stepped(inner, r) == Step0(kx, old(inner))
    {
      match inner {
        case HandShake(Initiator(secret, hash)) =>
          var (frame, after) := kx.hello(secret, hash);
          inner := HandShake(Initiator(secret, after));
          r := Ok(frame);
        case _ => r := Err(FailedHandshakeStep0);
      }
    }

    method StepOne(kx: KeyExchange, initiatorFrame: seq<byte>) returns (r: Result<seq<byte>, Sv2CodecError>)
      modifies this
      ensures Stepped(inner, r) == Step1(kx, old(inner), initiatorFrame)
    {
      if |initiatorFrame| != INITIATOR_FRAME_LEN {
        return Err(BadInitiatorFrame);
      }
      match inner {
        case HandShake(Responder(secret)) =>
          var answer := kx.respond(secret, initiatorFrame);
          if answer.None? {
            return Err(FailedHandshakeStep1);
          }
          inner := Begin(answer.value.1);
          r := Ok(answer.value.0);
        case _ => r := Err(FailedHandshakeStep1);
      }
    }

    method StepTwo(kx: KeyExchange, responderFrame: seq<byte>) returns (r: Result<(), Sv2CodecError>)
      modifies this
      ensures Stepped(inner, r) == Step2(kx, old(inner), responderFrame)
    {
      if |responderFrame| != RESPONDER_FRAME_LEN {
        return Err(BadResponderFrame);
      }
      match inner {
        case HandShake(Initiator(secret, hash)) =>
          var session := kx.finish(secret, hash, responderFrame);
          if session.None? {
            return Err(FailedHandshakeStep2);
          }
          inner := Begin(session.value);
          r := Ok(());
        case _ => r := Err(FailedHandshakeStep2);
      }
    }

    method HandshakeComplete() returns (done: bool)
      ensures done <==> inner.Transport?
    {
      match inner {
        case Transport(_, _, _, _) => done := true;
        case _ => done := false;
      }
    }
  }
}
