/**
 * The loops that feed a decoder from a connection: the Go client, the Go server and the
 * in-memory loop of the Python test. Each is proved to deliver what the whole stream
 * contains, however the connection splits it into reads.
 */
module DriveLoops {
  import opened Bytes
  import opened Sv2Messages
  import opened Conversion
  import opened CodecErrors
  import opened Noise
  import opened Framing
  import opened Codec
  import opened CodecTheorems
  import opened Stream
  import Ffi

  /** A TCP connection: bytes that will arrive, in pieces of any size, and bytes written so far. */
  class Conn {
    var incoming: seq<byte>
    var outgoing: seq<byte>

    constructor (incoming: seq<byte>)
      ensures this.incoming == incoming && outgoing == []
    {
      this.incoming := incoming;
      outgoing := [];
    }

    /** One read: an arbitrary non-empty part of what fits and is there, or nothing once the peer is done. */
    method Read(buf: array<byte>, offset: nat) returns (n: nat, failed: bool)
      requires offset < buf.Length
      modifies this`incoming, buf
      ensures n <= |old(incoming)| && n <= buf.Length - offset
      ensures n > 0 <==> old(incoming) != []
      ensures failed ==> n == 0
      ensures incoming == old(incoming)[n..]
      ensures buf[..offset + n] == old(buf[..offset]) + old(incoming)[..n]
    {
      if incoming == [] {
        failed := *;
        n := 0;
        return;
      }
      failed := false;
      var room := buf.Length - offset;
      var limit := if |incoming| < room then |incoming| else room;
      assert 1 <= limit;
      n :| 1 <= n <= limit;
      for i := 0 to n
        invariant incoming == old(incoming)
        invariant buf[..offset] == old(buf[..offset])
        invariant buf[offset..offset + i] == incoming[..i]
      {
        buf[offset + i] := incoming[i];
      }
      assert buf[..offset + n] == buf[..offset] + buf[offset..offset + n];
      incoming := incoming[n..];
    }

    method Write(bytes: seq<byte>)
      modifies this`outgoing
      ensures outgoing == old(outgoing) + bytes
    {
      outgoing := outgoing + bytes;
    }
  }

  /** Reads exactly `need` bytes through partial reads, or everything there is when that is too little. */
  method ReadExactly(conn: Conn, need: nat) returns (ok: bool, data: seq<byte>)
    modifies conn`incoming
    ensures ok <==> need <= |old(conn.incoming)|
    ensures ok ==> data == old(conn.incoming)[..need] && conn.incoming == old(conn.incoming)[need..]
    ensures !ok ==> conn.incoming == []
  {
    var buf := new byte[need](_ => 0);
    var readTotal := 0;
    while readTotal < need
      invariant readTotal <= need && readTotal <= |old(conn.incoming)|
      invariant buf[..readTotal] == old(conn.incoming)[..readTotal]
      invariant conn.incoming == old(conn.incoming)[readTotal..]
    {
      var n, failed := conn.Read(buf, readTotal);
      if failed {
        return false, [];
      }
      if n == 0 {
        return false, [];
      }
      readTotal := readTotal + n;
    }
    return true, buf[..need];
  }

  // ----- one iteration -----

  /** What remains to be read from a decoder in the middle of its work. */
  function FromState(env: Env, d: InnerDecoder, st: NoiseState, bytes: seq<byte>, stop: StopRule): Outcome
    requires st.Transport?
  {
    match d.phase
    case AwaitHeader => Parse(env, st.recvKey, st.recvNonce, bytes, stop)
    case AwaitPayload(h) => ParsePayload(env, st.recvKey, st.recvNonce, h, bytes, stop)
  }

  lemma FreshStart(env: Env, st: NoiseState, bytes: seq<byte>, stop: StopRule)
    requires st.Transport?
    ensures var all := Parse(env, st.recvKey, st.recvNonce, bytes, stop);
            all == Prepend([], FromState(env, IDLE, st, bytes, stop))
    ensures InLoop(DecoderState(IDLE, 0))
  {
  }

  /** An encoder succeeds only in a session, and moves only the sending counter. */
  lemma EncodedInSession(env: Env, st: NoiseState, m: Sv2Message)
    ensures Encoded(env, st, m).Ok? ==>
      var after := Encoded(env, st, m).value.noise;
      st.Transport? && after.Transport? && after == st.(sendNonce := after.sendNonce)
  {
  }

  lemma SendingKeepsReceiving(env: Env, d: InnerDecoder, st: NoiseState, after: NoiseState, bytes: seq<byte>, stop: StopRule)
    requires st.Transport? && after.Transport? && after == st.(sendNonce := after.sendNonce)
    ensures FromState(env, d, st, bytes, stop) == FromState(env, d, after, bytes, stop)
  {
  }

  /** Between iterations the decoder is in step and does not wait for an empty payload. */
  ghost predicate InLoop(d: DecoderState) {
    InStep(d) && (d.inner.phase.AwaitPayload? ==> d.inner.phase.header.length > 0)
  }

  /** The state differs from `st` at most in the receiving counter. */
  ghost predicate OnlyReceived(st: NoiseState, after: NoiseState) {
    st.Transport? && after.Transport? && after == st.(recvNonce := after.recvNonce)
  }

  lemma NotEnoughBytes(env: Env, d: DecoderState, st: NoiseState, bytes: seq<byte>, stop: StopRule)
    requires InLoop(d) && st.Transport? && |bytes| < d.bufferSize
    ensures FromState(env, d.inner, st, bytes, stop) == Outcome([], Starved, [], st.recvNonce)
  {
  }

  lemma EnoughBytes(env: Env, d: DecoderState, st: NoiseState, bytes: seq<byte>, stop: StopRule)
    requires InLoop(d) && st.Transport? && 0 < d.bufferSize <= |bytes|
    ensures var a := Attempted(env, d, st, bytes[..d.bufferSize]);
            var rest := bytes[d.bufferSize..];
            && OnlyReceived(st, a.noise)
            && FromState(env, d.inner, st, bytes, stop) ==
               match a.result
               case Ok(m) =>
                 if stop(m) then Outcome([m], Stopped, rest, a.noise.recvNonce)
                 else Prepend([m], FromState(env, IDLE, a.noise, rest, stop))
               case Err(MissingBytes) =>
                 if a.decoder.bufferSize == 0 then Outcome([], EmptyFrame, rest, a.noise.recvNonce)
                 else FromState(env, a.decoder.inner, a.noise, rest, stop)
               case Err(_) => Outcome([], Corrupt, rest, a.noise.recvNonce)
  {
    hide MessageToInner, InnerToMessage, OpenChunks, ParseHeader;
    var data := bytes[..d.bufferSize];
    assert d.inner.noise + data == data;
    match d.inner.phase {
      case AwaitHeader =>
        match env.aead.open(st.recvKey, st.recvNonce, data) {
          case None =>
          case Some(b) =>
            if |b| == HEADER_LEN {
              var h, n := ParseHeader(b), st.recvNonce + 1;
              SealedLenFits(h.length);
              assert Attempted(env, d, st, data) == Attempt(Awaiting(h), st.(recvNonce := n), Err(MissingBytes));
              assert FromState(env, d.inner, st, bytes, stop) == ParsePayload(env, st.recvKey, n, h, bytes[d.bufferSize..], stop);
            }
        }
      case AwaitPayload(h) =>
        SealedLenFits(h.length);
        match OpenChunks(env.aead, st.recvKey, st.recvNonce, data) {
          case None =>
          case Some(payload) =>
            match env.wire.parse(h.msgType, payload) {
              case None =>
              case Some(m) =>
            }
        }
    }
  }

  /** A successful or incomplete call leaves the decoder ready for the next iteration. */
  lemma ReadyAgain(env: Env, d: DecoderState, st: NoiseState, data: seq<byte>)
    requires InLoop(d) && st.Transport? && Abides(d, data)
    ensures var a := Attempted(env, d, st, data);
            && (a.result.Ok? ==> a.decoder.inner == IDLE && InLoop(a.decoder))
            && (a.result == Err(MissingBytes) && a.decoder.bufferSize > 0 ==> InLoop(a.decoder))
  {
    CallKeepsStep(env, d, st, data);
  }

  /** What the caller of the C interface learns from one full read, and what is left to be read. */
  lemma ReportedStep(env: Env, d: DecoderState, st: NoiseState, bytes: seq<byte>, stop: StopRule)
    requires InLoop(d) && st.Transport? && 0 < d.bufferSize <= |bytes|
    ensures var a := Attempted(env, d, st, bytes[..d.bufferSize]);
            var rest, reported := bytes[d.bufferSize..], Ffi.Reported(a.result, a.decoder.bufferSize);
            var whole := FromState(env, d.inner, st, bytes, stop);
            && OnlyReceived(st, a.noise)
            && if reported.code == Ffi.ERR_OK then
                 reported.message.Some? && a.decoder.inner == IDLE && InLoop(a.decoder)
                 && var m := reported.message.value;
                 whole == if stop(m) then Outcome([m], Stopped, rest, a.noise.recvNonce)
                          else Prepend([m], FromState(env, a.decoder.inner, a.noise, rest, stop))
               else if reported.missing > 0 then
                 InLoop(a.decoder) && whole == FromState(env, a.decoder.inner, a.noise, rest, stop)
               else
                 whole == Outcome([], if Ffi.IsMissingBytes(reported.code) then EmptyFrame else Corrupt, rest, a.noise.recvNonce)
  {
    hide Attempted, FromState, InLoop, Abides;
    EnoughBytes(env, d, st, bytes, stop);
    assert Abides(d, bytes[..d.bufferSize]) by { FullReadAbides(d, bytes); }
    ReadyAgain(env, d, st, bytes[..d.bufferSize]);
  }

  /** The same, for a loop that has delivered some messages already. */
  lemma DeliveredStep(env: Env, d: DecoderState, st: NoiseState, bytes: seq<byte>, stop: StopRule,
                      delivered: seq<Sv2Message>, total: Outcome)
    requires InLoop(d) && st.Transport? && 0 < d.bufferSize <= |bytes|
    requires total == Prepend(delivered, FromState(env, d.inner, st, bytes, stop))
    ensures var a := Attempted(env, d, st, bytes[..d.bufferSize]);
            var rest, reported := bytes[d.bufferSize..], Ffi.Reported(a.result, a.decoder.bufferSize);
            && OnlyReceived(st, a.noise)
            && if reported.code == Ffi.ERR_OK then
                 reported.message.Some? && a.decoder.inner == IDLE && InLoop(a.decoder)
                 && var all := delivered + [reported.message.value];
                 total == if stop(reported.message.value) then Outcome(all, Stopped, rest, a.noise.recvNonce)
                          else Prepend(all, FromState(env, a.decoder.inner, a.noise, rest, stop))
               else if reported.missing > 0 then
                 InLoop(a.decoder) && total == Prepend(delivered, FromState(env, a.decoder.inner, a.noise, rest, stop))
               else
                 total == Outcome(delivered, if Ffi.IsMissingBytes(reported.code) then EmptyFrame else Corrupt, rest,
                                  a.noise.recvNonce)
  {
    hide Attempted, FromState, InLoop, Ffi.Reported;
    ReportedStep(env, d, st, bytes, stop);
    assert delivered + [] == delivered;
  }

  lemma FullReadAbides(d: DecoderState, bytes: seq<byte>)
    requires d.bufferSize <= |bytes|
    ensures Abides(d, bytes[..d.bufferSize])
  {
  }

  // ----- the Go client -----

  predicate IsSetupConnectionSuccess(m: Sv2Message) {
    m.SetupConnectionSuccess?
  }

  /**
   * `exchangeMessages`: send one message, then read until a SetupConnectionSuccess arrives or
   * reading ends. Delivers exactly what the incoming stream contains up to that point.
   */
  method ExchangeMessages(env: Env, conn: Conn, state: Sv2CodecState, message: Sv2Message)
    returns (sent: bool, delivered: seq<Sv2Message>, ending: Ending)
    modifies conn, state
    ensures sent <==> Ffi.Supported(message) && Encoded(env, old(state.inner), message).Ok?
    ensures !sent ==> state.inner == old(state.inner) && conn.incoming == old(conn.incoming)
                      && conn.outgoing == old(conn.outgoing)
    ensures sent ==>
      var e := Encoded(env, old(state.inner), message).value;
      && conn.outgoing == old(conn.outgoing) + e.frame
      && OnlyReceived(e.noise, state.inner)
      && Outcome(delivered, ending, conn.incoming, state.inner.recvNonce)
         == Parse(env, e.noise.recvKey, e.noise.recvNonce, old(conn.incoming), IsSetupConnectionSuccess)
  {
    hide Parse, ParsePayload, FromState, Attempted, Encoded, InLoop, Ffi.Reported;
    delivered, ending := [], Starved;
    var enc := new Sv2Encoder();
    var dec := new Sv2Decoder();
    var code, encoded := Ffi.Encode(env, enc, Some(message), state);
    if code != Ffi.ERR_OK {
      return false, [], Starved;
    }
    EncodedInSession(env, old(state.inner), message);
    conn.Write(encoded);
    sent := true;

    ghost var start := state.inner;
    ghost var total := Parse(env, start.recvKey, start.recvNonce, conn.incoming, IsSetupConnectionSuccess);
    ghost var written := conn.outgoing;
    FreshStart(env, start, conn.incoming, IsSetupConnectionSuccess);
    while true
      invariant OnlyReceived(start, state.inner) && conn.outgoing == written
      invariant InLoop(dec.State())
      invariant total == Prepend(delivered, FromState(env, dec.inner, state.inner, conn.incoming, IsSetupConnectionSuccess))
      decreases |conn.incoming|, if dec.bufferSize == 0 then 1 else 0
    {
      var need := dec.BufferSize();
      if need == 0 {
        IdlePolls(env, dec.State(), state.inner, conn.incoming, IsSetupConnectionSuccess);
        var poll := Ffi.TryDecode(env, dec, state, []);
        if poll.code != Ffi.ERR_OK && poll.missing > 0 {
          continue;
        }
        // The call on no data always asks for a header.
        assert false;
      }

      ghost var before, noise, bytes := dec.State(), state.inner, conn.incoming;
      var ok, buf := ReadExactly(conn, need);
      if !ok {
        NotEnoughBytes(env, before, noise, bytes, IsSetupConnectionSuccess);
        ending := Starved;
        return;
      }
      DeliveredStep(env, before, noise, bytes, IsSetupConnectionSuccess, delivered, total);
      var resp := Ffi.TryDecode(env, dec, state, buf);
      if resp.code != Ffi.ERR_OK {
        if resp.missing > 0 {
          continue;
        }
        ending := if Ffi.IsMissingBytes(resp.code) then EmptyFrame else Corrupt;
        return;
      }
      var m := resp.message.value;
      delivered := delivered + [m];
      if IsSetupConnectionSuccess(m) {
        ending := Stopped;
        return;
      }
    }
  }

  /** An idle decoder given no data asks for a header and changes nothing else. */
  lemma IdlePolls(env: Env, d: DecoderState, st: NoiseState, bytes: seq<byte>, stop: StopRule)
    requires InLoop(d) && st.Transport? && d.bufferSize == 0
    ensures FromState(env, Polled().inner, st, bytes, stop) == FromState(env, d.inner, st, bytes, stop)
    ensures InLoop(Polled())
    ensures Attempted(env, d, st, []) == Attempt(Polled(), st, Err(MissingBytes))
    ensures Ffi.Reported(Err(MissingBytes), Polled().bufferSize) == Ffi.Decoding(Ffi.ERR_MISSING_BYTES, None, SEALED_HEADER_LEN)
  {
    if d.inner.phase.AwaitPayload? {
      SealedLenFits(d.inner.phase.header.length);
    }
    PollCall(env, st);
  }

  // ----- the Go server -----

  /** The server's answer to a SetupConnection: the highest version offered and the same flags. */
  function Answer(m: Sv2Message): Sv2Message
    requires m.SetupConnection?
  {
    var fields := Ffi.GetSetupConnection(Some(m)).1.value;
    Ffi.SetupConnectionSuccessNew(fields.maxVersion, fields.flags).1.value
  }

  /** The server gives up on a SetupConnection whose answer cannot be framed. */
  predicate CannotAnswer(env: Env, m: Sv2Message) {
    m.SetupConnection? && |env.wire.serialize(MessageToInner(Answer(m)).value)| > MAX_PAYLOAD
  }

  /** The answers to a list of received messages, in order; other messages are ignored. */
  function Answers(env: Env, ms: seq<Sv2Message>): seq<Sv2Message> {
    if ms == [] then [] else
    var last := ms[|ms| - 1];
    Answers(env, ms[..|ms| - 1]) + if last.SetupConnection? && !CannotAnswer(env, last) then [Answer(last)] else []
  }

  /**
   * The message loop of `handleConn`: answer every SetupConnection until reading ends. One
   * state serves both directions; what is written is exactly the answers, encoded in order.
   */
  method HandleConn(env: Env, conn: Conn, resp: Sv2CodecState) returns (received: seq<Sv2Message>, ending: Ending)
    requires resp.inner.Transport?
    modifies conn, resp
    ensures resp.inner.Transport?
    ensures Outcome(received, ending, conn.incoming, resp.inner.recvNonce)
            == Parse(env, old(resp.inner.recvKey), old(resp.inner.recvNonce), old(conn.incoming), m => CannotAnswer(env, m))
    ensures var sent := EncodeAll(env, old(resp.inner), Answers(env, received));
            sent.Ok? && conn.outgoing == old(conn.outgoing) + sent.value.frame && OnlyReceived(sent.value.noise, resp.inner)
  {
    hide Parse, ParsePayload, FromState, Attempted, Encoded, EncodeAll, InLoop, CannotAnswer, Answers, Ffi.Reported;
    ghost var stop: StopRule := m => CannotAnswer(env, m);
    var dec := new Sv2Decoder();
    var enc := new Sv2Encoder();
    received := [];
    ghost var start := resp.inner;
    ghost var total := Parse(env, start.recvKey, start.recvNonce, conn.incoming, stop);
    FreshStart(env, start, conn.incoming, stop);
    NothingSent(env, start, conn.outgoing);
    while true
      invariant InLoop(dec.State()) && resp.inner.Transport?
      invariant total == Prepend(received, FromState(env, dec.inner, resp.inner, conn.incoming, stop))
      invariant Sent(env, start, received, old(conn.outgoing), conn.outgoing, resp.inner)
      decreases |conn.incoming|, if dec.bufferSize == 0 then 1 else 0
    {
      var need := dec.BufferSize();
      if need == 0 {
        IdlePolls(env, dec.State(), resp.inner, conn.incoming, stop);
        var poll := Ffi.TryDecode(env, dec, resp, []);
        if poll.code != Ffi.ERR_OK && poll.missing > 0 {
          continue;
        }
        // The call on no data always asks for a header, so the server never sleeps and polls again.
        assert false;
      }

      ghost var before, noise, bytes := dec.State(), resp.inner, conn.incoming;
      var ok, rb := ReadExactly(conn, need);
      if !ok {
        NotEnoughBytes(env, before, noise, bytes, stop);
        ending := Starved;
        return;
      }
      DeliveredStep(env, before, noise, bytes, stop, received, total);
      var msg := Ffi.TryDecode(env, dec, resp, rb);
      StillSent(env, start, received, old(conn.outgoing), conn.outgoing, noise, resp.inner);
      if msg.code != Ffi.ERR_OK {
        if msg.missing > 0 {
          continue;
        }
        ending := if Ffi.IsMissingBytes(msg.code) then EmptyFrame else Corrupt;
        return;
      }
      var m := msg.message.value;
      AnswerStep(env, start, received, old(conn.outgoing), conn.outgoing, resp.inner, conn.incoming, m, stop);
      if m.SetupConnection? {
        var succ := Answer(m);
        var code, frame := Ffi.Encode(env, enc, Some(succ), resp);
        if code != Ffi.ERR_OK {
          received := received + [m];
          ending := Stopped;
          return;
        }
        conn.Write(frame);
      }
      received := received + [m];
    }
  }

  /** What the server has written and where its counters are, given what it has received. */
  ghost predicate Sent(env: Env, start: NoiseState, received: seq<Sv2Message>, first: seq<byte>, written: seq<byte>, now: NoiseState) {
    var sent := EncodeAll(env, start, Answers(env, received));
    sent.Ok? && written == first + sent.value.frame && OnlyReceived(sent.value.noise, now)
  }

  lemma NothingSent(env: Env, start: NoiseState, written: seq<byte>)
    requires start.Transport?
    ensures Sent(env, start, [], written, written, start)
  {
    assert written + [] == written;
  }

  lemma StillSent(env: Env, start: NoiseState, received: seq<Sv2Message>, first: seq<byte>, written: seq<byte>,
                  before: NoiseState, now: NoiseState)
    requires Sent(env, start, received, first, written, before) && OnlyReceived(before, now)
    ensures Sent(env, start, received, first, written, now)
  {
  }

  /** In a session, an answer fails to encode exactly when it cannot be framed. */
  lemma AnswerEncodes(env: Env, st: NoiseState, m: Sv2Message)
    requires st.Transport? && m.SetupConnection?
    ensures Encoded(env, st, Answer(m)).Err? <==> CannotAnswer(env, m)
    ensures Encoded(env, st, Answer(m)).Ok? ==> Encoded(env, st, Answer(m)).value.noise.Transport?
  {
    hide SealFrame, FrameNonces;
  }

  /** What the encoder does depends on the sending counter only. */
  lemma EncodingIgnoresReceiving(env: Env, st: NoiseState, now: NoiseState, m: Sv2Message)
    requires OnlyReceived(st, now)
    ensures match Encoded(env, st, m)
            case Ok(e) => Encoded(env, now, m).Ok? && Encoded(env, now, m).value.frame == e.frame
                          && OnlyReceived(e.noise, Encoded(env, now, m).value.noise)
            case Err(e) => Encoded(env, now, m) == Err(e)
  {
    hide MessageToInner, SealFrame, FrameNonces;
  }

  lemma OnlySetupUnanswerable(env: Env, m: Sv2Message)
    ensures CannotAnswer(env, m) ==> m.SetupConnection?
  {
  }

  lemma AnswersOneMore(env: Env, ms: seq<Sv2Message>, m: Sv2Message)
    ensures Answers(env, ms + [m]) ==
            if m.SetupConnection? && !CannotAnswer(env, m) then Answers(env, ms) + [Answer(m)] else Answers(env, ms)
  {
    assert (ms + [m])[..|ms|] == ms;
  }

  /** Answers are made message by message: one with the offered version and flags for a SetupConnection, none otherwise. */
  lemma {:induction false} AnswersInOrder(env: Env, before: seq<Sv2Message>, after: seq<Sv2Message>)
    ensures Answers(env, before + after) == Answers(env, before) + Answers(env, after)
    decreases |after|
  {
    hide CannotAnswer, Answers;
    if after == [] {
      NoAnswers(env);
      assert before + [] == before;
      assert Answers(env, before) + [] == Answers(env, before);
    } else {
      var n := |after| - 1;
      AnswersInOrder(env, before, after[..n]);
      assert before + after == (before + after[..n]) + [after[n]];
      assert after == after[..n] + [after[n]];
      AnswersOneMore(env, before + after[..n], after[n]);
      AnswersOneMore(env, after[..n], after[n]);
      if after[n].SetupConnection? && !CannotAnswer(env, after[n]) {
        Regroup(Answers(env, before), Answers(env, after[..n]), Answer(after[n]));
      }
    }
  }

  lemma Regroup(a: seq<Sv2Message>, b: seq<Sv2Message>, m: Sv2Message)
    ensures (a + b) + [m] == a + (b + [m])
  {
  }

  lemma NoAnswers(env: Env)
    ensures Answers(env, []) == []
  {
  }

  lemma AnswerToOne(env: Env, m: Sv2Message)
    ensures Answers(env, [m]) ==
            if m.SetupConnection? && !CannotAnswer(env, m) then [Sv2Message.SetupConnectionSuccess(m.maxVersion, m.flags)] else []
  {
    AnswersOneMore(env, [], m);
    assert [] + [m] == [m];
  }

  /** How receiving one more message extends what the server has written. */
  lemma SentAfter(env: Env, start: NoiseState, received: seq<Sv2Message>, first: seq<byte>, written: seq<byte>,
                  now: NoiseState, m: Sv2Message)
    requires Sent(env, start, received, first, written, now)
    ensures if m.SetupConnection? && !CannotAnswer(env, m) then
              Encoded(env, now, Answer(m)).Ok?
              && var e := Encoded(env, now, Answer(m)).value;
              Sent(env, start, received + [m], first, written + e.frame, e.noise)
            else Sent(env, start, received + [m], first, written, now)
  {
    hide EncodeAll, Encoded, Answers, CannotAnswer, MessageToInner;
    var e := EncodeAll(env, start, Answers(env, received)).value;
    AnswersOneMore(env, received, m);
    if m.SetupConnection? && !CannotAnswer(env, m) {
      AnswerEncodes(env, now, m);
      EncodingIgnoresReceiving(env, e.noise, now, Answer(m));
      EncodeOneMore(env, start, Answers(env, received), Answer(m));
      var f := Encoded(env, e.noise, Answer(m)).value;
      assert first + (e.frame + f.frame) == (first + e.frame) + f.frame;
    }
  }

  /** What answering a message, or having nothing to answer, does to what is written and what is left to be read. */
  lemma AnswerStep(env: Env, start: NoiseState, received: seq<Sv2Message>, first: seq<byte>, written: seq<byte>,
                   now: NoiseState, incoming: seq<byte>, m: Sv2Message, stop: StopRule)
    requires Sent(env, start, received, first, written, now)
    ensures if !m.SetupConnection? then !CannotAnswer(env, m) && Sent(env, start, received + [m], first, written, now)
            else match Encoded(env, now, Answer(m))
              case Err(_) => CannotAnswer(env, m) && Sent(env, start, received + [m], first, written, now)
              case Ok(e) =>
                && !CannotAnswer(env, m) && Sent(env, start, received + [m], first, written + e.frame, e.noise)
                && now.Transport? && e.noise.Transport? && e.noise.recvKey == now.recvKey && e.noise.recvNonce == now.recvNonce
                && FromState(env, IDLE, e.noise, incoming, stop) == FromState(env, IDLE, now, incoming, stop)
  {
    hide Encoded, Sent, FromState, CannotAnswer, MessageToInner;
    SessionOf(env, start, received, first, written, now);
    SentAfter(env, start, received, first, written, now, m);
    OnlySetupUnanswerable(env, m);
    if m.SetupConnection? {
      AnswerEncodes(env, now, m);
      EncodedInSession(env, now, Answer(m));
      if Encoded(env, now, Answer(m)).Ok? {
        SendingKeepsReceiving(env, IDLE, now, Encoded(env, now, Answer(m)).value.noise, incoming, stop);
      }
    }
  }

  lemma SessionOf(env: Env, start: NoiseState, received: seq<Sv2Message>, first: seq<byte>, written: seq<byte>, now: NoiseState)
    requires Sent(env, start, received, first, written, now)
    ensures now.Transport?
  {
  }

  lemma {:induction false} EncodeOneMore(env: Env, st: NoiseState, ms: seq<Sv2Message>, m: Sv2Message)
    requires EncodeAll(env, st, ms).Ok? && Encoded(env, EncodeAll(env, st, ms).value.noise, m).Ok?
    ensures var e := EncodeAll(env, st, ms).value;
            var f := Encoded(env, e.noise, m).value;
            EncodeAll(env, st, ms + [m]) == Ok(Encoding(e.frame + f.frame, f.noise))
    decreases |ms|
  {
    hide Encoded;
    if ms == [] {
      assert ms + [m] == [m];
      var f := Encoded(env, st, m).value;
      assert EncodeAll(env, f.noise, []) == Ok(Encoding([], f.noise));
      assert f.frame + [] == f.frame && [] + f.frame == f.frame;
    } else {
      var head := Encoded(env, st, ms[0]).value;
      EncodeOneMore(env, head.noise, ms[1..], m);
      assert (ms + [m])[1..] == ms[1..] + [m];
      var e := EncodeAll(env, head.noise, ms[1..]).value;
      var f := Encoded(env, e.noise, m).value;
      assert (head.frame + e.frame) + f.frame == head.frame + (e.frame + f.frame);
    }
  }

  // ----- the in-memory loop of the Python test -----

  datatype LoopResult = DecodedMessage(message: Sv2Message) | DecodingError | NotEnoughData

  const MAX_ITERATIONS := 10

  /** Where the decoder is after each iteration that asked for more bytes. */
  ghost predicate AtIteration(iteration: nat, d: DecoderState, offset: nat) {
    match iteration
    case 0 => d == DecoderState(IDLE, 0) && offset == 0
    case 1 => d == Polled() && offset == 0
    case 2 => d.inner.phase.AwaitPayload? && d == Awaiting(d.inner.phase.header) && offset == SEALED_HEADER_LEN
    case _ => false
  }

  /** One iteration: the next position after a request for more, and never a third request. */
  lemma IterationAdvances(env: Env, iteration: nat, d: DecoderState, offset: nat, st: NoiseState, data: seq<byte>)
    requires AtIteration(iteration, d, offset) && st.Transport? && |data| == d.bufferSize
    ensures var a := Attempted(env, d, st, data);
            && a.noise.Transport?
            && (a.result.Ok? ==> iteration == 2)
            && (a.result.Err? ==> a.result.error in {MissingBytes, FailedToDecodeFrame})
            && (a.result == Err(MissingBytes) ==> AtIteration(iteration + 1, a.decoder, offset + |data|))
  {
    hide MessageToInner, InnerToMessage, OpenChunks, ParseHeader;
    match iteration {
      case 0 => PollCall(env, st);
      case 1 =>
      case _ => SealedLenFits(d.inner.phase.header.length);
    }
  }

  predicate AwaitsEmpty(d: DecoderState) {
    d.inner.phase.AwaitPayload? && d.inner.phase.header.length == 0
  }

  /** What the decoder makes of a message type announced with an empty payload. */
  function OfEmptyPayload(env: Env, msgType: byte): Result<Sv2Message, Sv2CodecError> {
    match env.wire.parse(msgType, [])
    case None => Err(FailedToDecodeFrame)
    case Some(m) => Ok(InnerToMessage(m))
  }

  /** The header a stream starts with, if it can be opened. */
  function FirstHeader(env: Env, k: Key, n: nat, stream: seq<byte>): Option<Header> {
    if |stream| < SEALED_HEADER_LEN then None else
    match env.aead.open(k, n, stream[..SEALED_HEADER_LEN])
    case None => None
    case Some(b) => if |b| != HEADER_LEN then None else Some(ParseHeader(b))
  }

  /** The state is untouched until the header is read, and from then on the decoder holds that header. */
  ghost predicate HeaderRead(env: Env, start: NoiseState, stream: seq<byte>, iteration: nat, d: DecoderState, st: NoiseState)
    requires start.Transport?
  {
    if iteration < 2 then st == start
    else d.inner.phase.AwaitPayload? && FirstHeader(env, start.recvKey, start.recvNonce, stream) == Some(d.inner.phase.header)
  }

  lemma HeaderReadNext(env: Env, start: NoiseState, stream: seq<byte>, iteration: nat, d: DecoderState, offset: nat, st: NoiseState)
    requires start.Transport? && AtIteration(iteration, d, offset) && HeaderRead(env, start, stream, iteration, d, st)
    requires st.Transport? && offset + d.bufferSize <= |stream|
    ensures var a := Attempted(env, d, st, stream[offset..offset + d.bufferSize]);
            a.result == Err(MissingBytes) ==> HeaderRead(env, start, stream, iteration + 1, a.decoder, a.noise)
  {
    hide MessageToInner, InnerToMessage, OpenChunks, ParseHeader;
    match iteration {
      case 0 => PollCall(env, st);
      case 1 => assert [] + stream[..SEALED_HEADER_LEN] == stream[..SEALED_HEADER_LEN];
      case _ =>
        SealedLenFits(d.inner.phase.header.length);
        IterationAdvances(env, iteration, d, offset, st, stream[offset..offset + d.bufferSize]);
    }
  }

  /** One iteration leaves the same stream to be read, or ends reading the way the stream says. */
  lemma IterationReads(env: Env, iteration: nat, d: DecoderState, offset: nat, st: NoiseState, bytes: seq<byte>, stop: StopRule)
    requires AtIteration(iteration, d, offset) && st.Transport?
    ensures var o := FromState(env, d.inner, st, bytes, stop);
            if |bytes| < d.bufferSize then o.ending == Starved
            else
              var a := Attempted(env, d, st, bytes[..d.bufferSize]);
              var rest := bytes[d.bufferSize..];
              && a.noise.Transport?
              && if AwaitsEmpty(d) then
                   o.ending == EmptyFrame && a.result == OfEmptyPayload(env, d.inner.phase.header.msgType)
                 else
                   && (a.result == Err(MissingBytes) ==> o == FromState(env, a.decoder.inner, a.noise, rest, stop))
                   && (a.result == Err(FailedToDecodeFrame) ==> o.ending == Corrupt)
                   && (a.result.Ok? && stop(a.result.value) ==>
                        o == Outcome([a.result.value], Stopped, rest, a.noise.recvNonce))
  {
    hide MessageToInner, InnerToMessage, OpenChunks, ParseHeader, Parse;
    if iteration == 0 {
      IdlePolls(env, d, st, bytes, stop);
      assert bytes[..0] == [];
    } else if d.bufferSize > 0 {
      if iteration == 2 {
        SealedLenFits(d.inner.phase.header.length);
      }
      if |bytes| < d.bufferSize {
        NotEnoughBytes(env, d, st, bytes, stop);
      } else {
        IterationAdvances(env, iteration, d, offset, st, bytes[..d.bufferSize]);
        EnoughBytes(env, d, st, bytes, stop);
        var a := Attempted(env, d, st, bytes[..d.bufferSize]);
        if a.result == Err(MissingBytes) && a.decoder.bufferSize == 0 {
          EmptyPayload(env, a, bytes[d.bufferSize..], stop);
        }
      }
    } else {
      SealedLenFits(d.inner.phase.header.length);
      IterationAdvances(env, iteration, d, offset, st, bytes[..0]);
      EmptyPayloadCall(env, d.inner.phase.header, st);
    }
  }

  lemma EmptyPayloadCall(env: Env, h: Header, st: NoiseState)
    requires st.Transport? && h.length == 0
    ensures Attempted(env, Awaiting(h), st, []).result == OfEmptyPayload(env, h.msgType)
  {
    hide MessageToInner, InnerToMessage;
    SealedLenFits(h.length);
    assert Awaiting(h).inner.noise + [] == [];
    assert OpenChunks(env.aead, st.recvKey, st.recvNonce, []) == Some([]);
  }

  lemma EmptyPayload(env: Env, a: Attempt, rest: seq<byte>, stop: StopRule)
    requires a.noise.Transport? && a.decoder.inner.phase.AwaitPayload? && a.decoder == Awaiting(a.decoder.inner.phase.header)
    requires a.decoder.bufferSize == 0
    ensures FromState(env, a.decoder.inner, a.noise, rest, stop) == Outcome([], EmptyFrame, rest, a.noise.recvNonce)
  {
    SealedLenFits(a.decoder.inner.phase.header.length);
  }

  /**
   * Decodes one message from a byte string, at most `MAX_ITERATIONS` times around the loop.
   * Three iterations are always enough to decode or to fail, so the cap is never the reason
   * for failing, whatever the bytes are.
   */
  method DecodeInMemory(env: Env, stream: seq<byte>, state: Sv2CodecState)
    returns (result: LoopResult, offset: nat, iteration: nat)
    requires state.inner.Transport?
    modifies state
    ensures iteration <= 3 && offset <= |stream|
    ensures var o := Parse(env, old(state.inner.recvKey), old(state.inner.recvNonce), stream, _ => true);
            match o.ending
            case Stopped => result.DecodedMessage? && state.inner.Transport?
                            && o == Outcome([result.message], Stopped, stream[offset..], state.inner.recvNonce)
            case Starved => result == NotEnoughData
            case Corrupt => result == DecodingError
            case EmptyFrame =>
              var header := FirstHeader(env, old(state.inner.recvKey), old(state.inner.recvNonce), stream);
              && header.Some?
              && result == match OfEmptyPayload(env, header.value.msgType)
                           case Ok(m) => DecodedMessage(m)
                           case Err(_) => DecodingError
  {
    hide Parse, ParsePayload, FromState, Attempted, FirstHeader, OfEmptyPayload;
    ghost var stop: StopRule := _ => true;
    ghost var start := state.inner;
    var decoder := new Sv2Decoder();
    offset, iteration := 0, 0;
    ghost var total := Parse(env, state.inner.recvKey, state.inner.recvNonce, stream, stop);
    FreshStart(env, state.inner, stream, stop);
    assert stream[0..] == stream;
    while iteration < MAX_ITERATIONS
      invariant offset <= |stream| && state.inner.Transport?
      invariant AtIteration(iteration, decoder.State(), offset)
      invariant HeaderRead(env, start, stream, iteration, decoder.State(), state.inner)
      invariant total == FromState(env, decoder.inner, state.inner, stream[offset..], stop)
    {
      ghost var bytes := stream[offset..];
      IterationReads(env, iteration, decoder.State(), offset, state.inner, bytes, stop);
      ghost var before, first := iteration, offset;
      iteration := iteration + 1;
      var bufferSize := decoder.BufferSize();
      var chunk := [];
      if bufferSize > 0 {
        if offset + bufferSize > |stream| {
          return NotEnoughData, offset, iteration;
        }
        chunk := stream[offset..offset + bufferSize];
        offset := offset + bufferSize;
      }
      assert chunk == bytes[..bufferSize] && stream[offset..] == bytes[bufferSize..];
      IterationAdvances(env, before, decoder.State(), first, state.inner, chunk);
      HeaderReadNext(env, start, stream, before, decoder.State(), first, state.inner);
      var r := decoder.TryDecode(env, chunk, state);
      match r {
        case Ok(m) => return DecodedMessage(m), offset, iteration;
        case Err(MissingBytes) =>
        case Err(_) => return DecodingError, offset, iteration;
      }
    }
    assert false;
  }
}
