/**
 * The specification the drive loops are proved against: what a whole byte stream contains,
 * read frame by frame without any decoder state, and what a list of messages looks like as
 * a stream.
 */
module Stream {
  import opened Bytes
  import opened Sv2Messages
  import opened InnerMessages
  import opened Conversion
  import opened MessageTheorems
  import opened CodecErrors
  import opened Noise
  import opened Framing
  import opened Codec
  import opened CodecTheorems

  /** Why reading ends: a message asked for it, the bytes ran out, a frame is bad or has no payload. */
  datatype Ending = Stopped | Starved | Corrupt | EmptyFrame

  /** The messages read, why reading ended, the bytes left unread and the receiver's counter. */
  datatype Outcome = Outcome(delivered: seq<Sv2Message>, ending: Ending, rest: seq<byte>, nonce: nat)

  function Prepend(ms: seq<Sv2Message>, o: Outcome): Outcome {
    o.(delivered := ms + o.delivered)
  }

  type StopRule = Sv2Message -> bool

  function Parse(env: Env, k: Key, n: nat, bytes: seq<byte>, stop: StopRule): Outcome
    decreases |bytes|
  {
    if |bytes| < SEALED_HEADER_LEN then Outcome([], Starved, [], n) else
    match env.aead.open(k, n, bytes[..SEALED_HEADER_LEN])
    case None => Outcome([], Corrupt, bytes[SEALED_HEADER_LEN..], n)
    case Some(b) =>
      if |b| != HEADER_LEN then Outcome([], Corrupt, bytes[SEALED_HEADER_LEN..], n)
      else ParsePayload(env, k, n + 1, ParseHeader(b), bytes[SEALED_HEADER_LEN..], stop)
  }

  function ParsePayload(env: Env, k: Key, n: nat, h: Header, bytes: seq<byte>, stop: StopRule): Outcome
    decreases |bytes|
  {
    var len := SealedLen(h.length);
    if h.length == 0 then Outcome([], EmptyFrame, bytes, n)
    else if |bytes| < len then Outcome([], Starved, [], n)
    else
      match OpenMessage(env, k, n, h, bytes[..len])
      case None => Outcome([], Corrupt, bytes[len..], n)
      case Some(m) =>
        var after := n + SealedChunkCount(len);
        if stop(m) then Outcome([m], Stopped, bytes[len..], after)
        else Prepend([m], Parse(env, k, after, bytes[len..], stop))
  }

  function OpenMessage(env: Env, k: Key, n: nat, h: Header, sealed: seq<byte>): Option<Sv2Message> {
    match OpenChunks(env.aead, k, n, sealed)
    case None => None
    case Some(payload) =>
      match env.wire.parse(h.msgType, payload)
      case None => None
      case Some(m) => Some(InnerToMessage(m))
  }

  /** The frames of a list of messages, encoded in order, and the state the encoder leaves. */
  function EncodeAll(env: Env, st: NoiseState, ms: seq<Sv2Message>): Result<Encoding, Sv2CodecError>
    decreases |ms|
  {
    if ms == [] then Ok(Encoding([], st)) else
    var first :- Encoded(env, st, ms[0]);
    var others :- EncodeAll(env, first.noise, ms[1..]);
    Ok(Encoding(first.frame + others.frame, others.noise))
  }

  ghost predicate AllWithinCounts(ms: seq<Sv2Message>) {
    forall m :: m in ms && MessageToInner(m).Ok? ==> WithinCounts(MessageToInner(m).value)
  }

  ghost predicate NoneStops(ms: seq<Sv2Message>, stop: StopRule) {
    forall m :: m in ms ==> !stop(m)
  }

  // ----- a stream of encoded messages reads back as those messages -----

  lemma ParseFrame(env: Env, sender: NoiseState, m: Sv2Message, tail: seq<byte>, stop: StopRule)
    requires env.Sound() && Sendable(env, sender, m)
    ensures sender.Transport?
    ensures var e := Encoded(env, sender, m).value;
            && e.noise.Transport? && e.noise.sendKey == sender.sendKey
            && Parse(env, sender.sendKey, sender.sendNonce, e.frame + tail, stop) ==
               if stop(m) then Outcome([m], Stopped, tail, e.noise.sendNonce)
               else Prepend([m], Parse(env, sender.sendKey, e.noise.sendNonce, tail, stop))
  {
    hide MessageToInner, InnerToMessage, SealChunks, OpenChunks, HeaderBytes, ParseHeader, SealedLen;
    var k, n := sender.sendKey, sender.sendNonce;
    var inner := MessageToInner(m).value;
    var payload := env.wire.serialize(inner);
    var h := Header(env.wire.extension(inner), env.wire.msgType(inner), |payload|);
    var frame := SealFrame(env, k, n, inner);
    MessageRoundTrip(m);
    FrameParts(env, k, n, inner);
    HeaderRoundTrip(h);
    ChunksRoundTrip(env.aead, k, n + 1, payload);
    SealedChunksCounted(h.length);
    var bytes, len := frame + tail, SealedLen(h.length);
    assert bytes[..SEALED_HEADER_LEN] == env.aead.seal(k, n, HeaderBytes(h));
    var body := bytes[SEALED_HEADER_LEN..];
    assert body == frame[SEALED_HEADER_LEN..] + tail;
    assert body[..len] == SealChunks(env.aead, k, n + 1, payload) && body[len..] == tail;
    assert OpenMessage(env, k, n + 1, h, body[..len]) == Some(m);
  }

  lemma EncodedConverts(env: Env, st: NoiseState, m: Sv2Message)
    ensures Encoded(env, st, m).Ok? ==> MessageToInner(m).Ok?
  {
  }

  /**
   * Reading the frames of any list of messages, followed by any bytes, yields the messages in
   * order and continues with those bytes at the counter the sender has reached.
   */
  lemma {:induction false} StreamRoundTrip(env: Env, sender: NoiseState, ms: seq<Sv2Message>, tail: seq<byte>, stop: StopRule)
    requires env.Sound() && sender.Transport? && EncodeAll(env, sender, ms).Ok? && AllWithinCounts(ms)
    requires NoneStops(ms, stop)
    ensures var e := EncodeAll(env, sender, ms).value;
            && e.noise.Transport?
            && Parse(env, sender.sendKey, sender.sendNonce, e.frame + tail, stop)
               == Prepend(ms, Parse(env, sender.sendKey, e.noise.sendNonce, tail, stop))
    decreases |ms|
  {
    hide MessageToInner, Encoded, Parse;
    if ms == [] {
      assert [] + tail == tail;
    } else {
      var first := Encoded(env, sender, ms[0]).value;
      var others := EncodeAll(env, first.noise, ms[1..]).value;
      EncodedConverts(env, sender, ms[0]);
      ParseFrame(env, sender, ms[0], others.frame + tail, stop);
      StreamRoundTrip(env, first.noise, ms[1..], tail, stop);
      assert (first.frame + others.frame) + tail == first.frame + (others.frame + tail);
      assert ms == [ms[0]] + ms[1..];
    }
  }

  /** A whole stream of encoded messages is read completely: nothing lost, nothing added, nothing left. */
  lemma WholeStreamRoundTrip(env: Env, sender: NoiseState, ms: seq<Sv2Message>, stop: StopRule)
    requires env.Sound() && sender.Transport? && EncodeAll(env, sender, ms).Ok? && AllWithinCounts(ms)
    requires NoneStops(ms, stop)
    ensures var e := EncodeAll(env, sender, ms).value;
            && e.noise.Transport?
            && Parse(env, sender.sendKey, sender.sendNonce, e.frame, stop) == Outcome(ms, Starved, [], e.noise.sendNonce)
  {
    var e := EncodeAll(env, sender, ms).value;
    StreamRoundTrip(env, sender, ms, [], stop);
    assert e.frame + [] == e.frame;
    assert ms + [] == ms;
  }

  // ----- a stream that ends early -----

  /** Part of a frame yields nothing and asks for more; a whole header moves the receiver one ahead. */
  lemma CutFrame(env: Env, sender: NoiseState, m: Sv2Message, c: nat, stop: StopRule)
    requires env.Sound() && Sendable(env, sender, m) && c < |Encoded(env, sender, m).value.frame|
    ensures sender.Transport?
    ensures var o := Parse(env, sender.sendKey, sender.sendNonce, Encoded(env, sender, m).value.frame[..c], stop);
            o == Outcome([], Starved, [], sender.sendNonce + if c < SEALED_HEADER_LEN then 0 else 1)
  {
    hide MessageToInner, InnerToMessage, SealChunks, OpenChunks, HeaderBytes, ParseHeader, SealedLen;
    var k, n := sender.sendKey, sender.sendNonce;
    var inner := MessageToInner(m).value;
    var h := Header(env.wire.extension(inner), env.wire.msgType(inner), |env.wire.serialize(inner)|);
    FrameParts(env, k, n, inner);
    HeaderRoundTrip(h);
    var bytes := SealFrame(env, k, n, inner)[..c];
    if c >= SEALED_HEADER_LEN {
      assert bytes[..SEALED_HEADER_LEN] == env.aead.seal(k, n, HeaderBytes(h));
    }
  }

  /** How many of the messages' frames lie within the first `c` bytes of the stream. */
  function Complete(env: Env, st: NoiseState, ms: seq<Sv2Message>, c: nat): (k: nat)
    requires EncodeAll(env, st, ms).Ok?
    ensures k <= |ms|
    decreases |ms|
  {
    if ms == [] then 0 else
    var first := Encoded(env, st, ms[0]).value;
    if c < |first.frame| then 0 else 1 + Complete(env, first.noise, ms[1..], c - |first.frame|)
  }

  /** The receiver's counter after `c` bytes: the sender's behind the complete frames, and one more if the next header is in. */
  function Reached(env: Env, st: NoiseState, ms: seq<Sv2Message>, c: nat): nat
    requires st.Transport? && EncodeAll(env, st, ms).Ok?
    decreases |ms|
  {
    if ms == [] then st.sendNonce else
    var first := Encoded(env, st, ms[0]).value;
    if c < SEALED_HEADER_LEN then st.sendNonce
    else if c < |first.frame| then st.sendNonce + 1
    else Reached(env, first.noise, ms[1..], c - |first.frame|)
  }

  /** A stream cut anywhere delivers exactly the messages whose frames arrived whole, and then asks for more. */
  lemma {:induction false} CutStream(env: Env, sender: NoiseState, ms: seq<Sv2Message>, c: nat, stop: StopRule)
    requires env.Sound() && sender.Transport? && EncodeAll(env, sender, ms).Ok? && AllWithinCounts(ms)
    requires NoneStops(ms, stop) && c <= |EncodeAll(env, sender, ms).value.frame|
    ensures var o := Parse(env, sender.sendKey, sender.sendNonce, EncodeAll(env, sender, ms).value.frame[..c], stop);
            o == Outcome(ms[..Complete(env, sender, ms, c)], Starved, [], Reached(env, sender, ms, c))
    decreases |ms|
  {
    hide MessageToInner, Encoded, Parse;
    if ms == [] {
      CutNothing(env, sender, stop);
    } else {
      var first := Encoded(env, sender, ms[0]).value;
      var others := EncodeAll(env, first.noise, ms[1..]).value;
      var frame := first.frame + others.frame;
      EncodedConverts(env, sender, ms[0]);
      if c < |first.frame| {
        CutFrame(env, sender, ms[0], c, stop);
        assert frame[..c] == first.frame[..c];
      } else {
        var d := c - |first.frame|;
        ParseFrame(env, sender, ms[0], others.frame[..d], stop);
        FrameHasHeader(env, sender, ms[0]);
        assert frame[..c] == first.frame + others.frame[..d];
        CutStream(env, first.noise, ms[1..], d, stop);
        var k := Complete(env, first.noise, ms[1..], d);
        assert ms[..k + 1] == [ms[0]] + ms[1..][..k];
      }
    }
  }

  lemma FrameHasHeader(env: Env, st: NoiseState, m: Sv2Message)
    requires env.Sound() && Sendable(env, st, m)
    ensures |Encoded(env, st, m).value.frame| >= SEALED_HEADER_LEN
  {
    hide MessageToInner, SealChunks, HeaderBytes;
    FrameParts(env, st.sendKey, st.sendNonce, MessageToInner(m).value);
  }

  lemma CutNothing(env: Env, st: NoiseState, stop: StopRule)
    requires st.Transport?
    ensures Parse(env, st.sendKey, st.sendNonce, [], stop) == Outcome([], Starved, [], st.sendNonce)
  {
  }

  /** Reading stops right behind the first message that asks for it and leaves the later frames unread. */
  lemma StopsAtFirst(env: Env, sender: NoiseState, before: seq<Sv2Message>, last: Sv2Message, tail: seq<byte>, stop: StopRule)
    requires env.Sound() && sender.Transport? && EncodeAll(env, sender, before).Ok?
    requires AllWithinCounts(before) && NoneStops(before, stop) && stop(last)
    requires Sendable(env, EncodeAll(env, sender, before).value.noise, last)
    ensures var e := EncodeAll(env, sender, before).value;
            var f := Encoded(env, e.noise, last).value;
            && f.noise.Transport?
            && Parse(env, sender.sendKey, sender.sendNonce, e.frame + (f.frame + tail), stop)
               == Outcome(before + [last], Stopped, tail, f.noise.sendNonce)
  {
    hide Parse, Encoded;
    var e := EncodeAll(env, sender, before).value;
    var f := Encoded(env, e.noise, last).value;
    StreamRoundTrip(env, sender, before, f.frame + tail, stop);
    EncodeKeepsKey(env, sender, before);
    ParseFrame(env, e.noise, last, tail, stop);
  }

  lemma {:induction false} EncodeKeepsKey(env: Env, st: NoiseState, ms: seq<Sv2Message>)
    requires st.Transport? && EncodeAll(env, st, ms).Ok?
    ensures var after := EncodeAll(env, st, ms).value.noise;
            after.Transport? && after == st.(sendNonce := after.sendNonce)
    decreases |ms|
  {
    if ms != [] {
      EncodeKeepsKey(env, Encoded(env, st, ms[0]).value.noise, ms[1..]);
    }
  }
}
