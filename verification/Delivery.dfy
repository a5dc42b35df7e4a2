/**
 * What schedules of codec calls deliver: a call on its own does what the codec does, and
 * encoders on one session with decoders on its peer hand over every message, however their
 * calls interleave, as long as no call that may write ends inside another's window.
 */
module Delivery {
  import opened Bytes
  import opened Sv2Messages
  import opened CodecErrors
  import opened Noise
  import opened Framing
  import opened Codec
  import opened CodecTheorems
  import opened Stream
  import opened Schedule

  /** Run alone, a call leaves the state, its decoder and its result as the codec does. */
  lemma CallAlone(env: Env, call: Call, st: NoiseState, ds: Decoders)
    ensures var effect := CodecCall(env, call, st, ds);
            match call
            case DecodeCall(k, data) =>
              var a := Attempted(env, DecoderOf(ds, k), st, data);
              && Written(effect.next, st) == a.noise && effect.locals == ds[k := a.decoder]
              && effect.out == Output.Decoded(a.result)
            case EncodeCall(m) =>
              && effect.locals == ds
              && match Codec.Encoded(env, st, m)
                 case Ok(e) => Written(effect.next, st) == e.noise && effect.out == Output.Encoded(Ok(e.frame))
                 case Err(error) => Written(effect.next, st) == st && effect.out == Output.Encoded(Err(error))
  {
    hide OpenChunks, ParseHeader, SealFrame;
  }

  // ----- the calls in the order they end -----

  function FinishOrder(es: seq<Event>): seq<nat> {
    if es == [] then [] else (if es[0].Finish? then [es[0].call] else []) + FinishOrder(es[1..])
  }

  /** One call after the other, each in place; what they return in order. */
  function Serial<S, L, O>(run: Runner<S, L, O>, shared: S, locals: L, order: seq<nat>): (r: (S, L, seq<O>))
    ensures |r.2| == |order|
    decreases |order|
  {
    if order == [] then (shared, locals, []) else
    var effect := run(order[0], shared, locals);
    var (s, l, outs) := Serial(run, Written(effect.next, shared), effect.locals, order[1..]);
    (s, l, [effect.out] + outs)
  }

  function Numbered<O>(order: seq<nat>, outs: seq<O>): seq<(nat, O)>
    requires |order| == |outs|
  {
    seq(|order|, i requires 0 <= i < |order| => (order[i], outs[i]))
  }

  lemma NumberedStep<O>(log: seq<(nat, O)>, i: nat, out: O, order: seq<nat>, outs: seq<O>)
    requires |order| == |outs|
    ensures log + Numbered([i] + order, [out] + outs) == (log + [(i, out)]) + Numbered(order, outs)
  {
    assert Numbered([i] + order, [out] + outs) == [(i, out)] + Numbered(order, outs);
  }

  lemma {:induction false} InPlaceIsSerial<S, L, O>(
    run: Runner<S, L, O>, shared: S, locals: L, log: seq<(nat, O)>, es: seq<Event>)
    ensures var order := FinishOrder(es);
            var (s, l, outs) := Serial(run, shared, locals, order);
            InPlace(run, shared, locals, log, es) == (s, l, log + Numbered(order, outs))
    decreases |es|
  {
    var order := FinishOrder(es);
    if es == [] {
      assert log + Numbered<O>([], []) == log;
    } else {
      match es[0]
      case Clone(_) =>
        assert [] + FinishOrder(es[1..]) == FinishOrder(es[1..]);
        InPlaceIsSerial(run, shared, locals, log, es[1..]);
      case Finish(i) =>
        assert order == [i] + FinishOrder(es[1..]);
        assert order[1..] == FinishOrder(es[1..]);
        var effect := run(i, shared, locals);
        var next := Written(effect.next, shared);
        InPlaceIsSerial(run, next, effect.locals, log + [(i, effect.out)], es[1..]);
        NumberedStep(log, i, effect.out, order[1..], Serial(run, next, effect.locals, order[1..]).2);
        hide Numbered;
    }
  }

  /** The numbers from `a` on, `n` of them. */
  function From(a: nat, n: nat): seq<nat>
    decreases n
  {
    if n == 0 then [] else [a] + From(a + 1, n - 1)
  }

  // ----- encoders -----

  /** The frames of a list of messages encoded in order. */
  function Frames(env: Env, st: NoiseState, ms: seq<Sv2Message>): (fs: seq<seq<byte>>)
    requires EncodeAll(env, st, ms).Ok?
    ensures |fs| == |ms|
    decreases |ms|
  {
    if ms == [] then [] else
    var first := Codec.Encoded(env, st, ms[0]).value;
    [first.frame] + Frames(env, first.noise, ms[1..])
  }

  predicate Encodes(calls: nat -> Call, a: nat, ms: seq<Sv2Message>) {
    forall k :: 0 <= k < |ms| ==> calls(a + k) == EncodeCall(ms[k])
  }

  lemma {:induction false} EncodersInOrder(
    env: Env, calls: nat -> Call, a: nat, st: NoiseState, ds: Decoders, ms: seq<Sv2Message>)
    requires EncodeAll(env, st, ms).Ok? && Encodes(calls, a, ms)
    ensures var (s, l, outs) := Serial(Codecs(env, calls), st, ds, From(a, |ms|));
            && s == EncodeAll(env, st, ms).value.noise && l == ds && |outs| == |ms|
            && forall k :: 0 <= k < |ms| ==> outs[k] == Output.Encoded(Ok(Frames(env, st, ms)[k]))
    decreases |ms|
  {
    hide CodecCall, Codec.Encoded;
    if ms != [] {
      CallAlone(env, calls(a), st, ds);
      assert calls(a + 0) == EncodeCall(ms[0]);
      var next := Codec.Encoded(env, st, ms[0]).value.noise;
      assert Encodes(calls, a + 1, ms[1..]) by {
        forall k | 0 <= k < |ms| - 1 ensures calls(a + 1 + k) == EncodeCall(ms[1..][k]) {
          assert calls(a + (k + 1)) == EncodeCall(ms[k + 1]);
        }
      }
      EncodersInOrder(env, calls, a + 1, next, ds, ms[1..]);
      assert From(a, |ms|)[1..] == From(a + 1, |ms| - 1);
    }
  }

  // ----- decoders -----

  /** The three calls that feed one frame to a decoder. */
  predicate Feeds(calls: nat -> Call, a: nat, d: nat, frame: seq<byte>) {
    && |frame| >= SEALED_HEADER_LEN
    && calls(a) == DecodeCall(d, [])
    && calls(a + 1) == DecodeCall(d, frame[..SEALED_HEADER_LEN])
    && calls(a + 2) == DecodeCall(d, frame[SEALED_HEADER_LEN..])
  }

  predicate FeedsAll(calls: nat -> Call, a: nat, d: nat, frames: seq<seq<byte>>) {
    forall k :: 0 <= k < |frames| ==> Feeds(calls, a + 3 * k, d, frames[k])
  }

  lemma FrameFed(env: Env, calls: nat -> Call, a: nat, d: nat, sender: NoiseState, receiver: NoiseState, ds: Decoders, m: Sv2Message)
    requires env.Sound() && Sendable(env, sender, m) && Listening(sender, receiver)
    requires DecoderOf(ds, d) == DecoderState(IDLE, 0) && Feeds(calls, a, d, Codec.Encoded(env, sender, m).value.frame)
    ensures var run, e := Codecs(env, calls), Codec.Encoded(env, sender, m).value;
            var f0 := run(a, receiver, ds);
            var s1 := Written(f0.next, receiver);
            var f1 := run(a + 1, s1, f0.locals);
            var s2 := Written(f1.next, s1);
            var f2 := run(a + 2, s2, f1.locals);
            && f0.out == f1.out == Output.Decoded(Err(MissingBytes)) && f2.out == Output.Decoded(Ok(m))
            && Written(f2.next, s2) == receiver.(recvNonce := e.noise.sendNonce)
            && DecoderOf(f2.locals, d) == DecoderState(IDLE, 0)
  {
    hide CodecCall, Attempted, Codec.Encoded;
    FrameTakesThreeCalls(env, sender, receiver, m);
    var run := Codecs(env, calls);
    CallAlone(env, calls(a), receiver, ds);
    var f0 := run(a, receiver, ds);
    CallAlone(env, calls(a + 1), receiver, f0.locals);
    var f1 := run(a + 1, receiver, f0.locals);
    CallAlone(env, calls(a + 2), Written(f1.next, receiver), f1.locals);
  }

  /** Two requests for bytes, then the message: what the three calls of each frame return. */
  function Delivered(ms: seq<Sv2Message>): seq<Output> {
    if ms == [] then [] else
    [Output.Decoded(Err(MissingBytes)), Output.Decoded(Err(MissingBytes)), Output.Decoded(Ok(ms[0]))] + Delivered(ms[1..])
  }

  lemma SerialOne<S, L, O>(run: Runner<S, L, O>, s: S, l: L, a: nat, n: nat)
    ensures var f := run(a, s, l);
            var rest := Serial(run, Written(f.next, s), f.locals, From(a + 1, n));
            Serial(run, s, l, From(a, n + 1)) == (rest.0, rest.1, [f.out] + rest.2)
  {
    assert From(a, n + 1)[1..] == From(a + 1, n);
  }

  lemma SerialThree<S, L, O>(run: Runner<S, L, O>, s: S, l: L, a: nat, n: nat)
    ensures var f0 := run(a, s, l);
            var s1 := Written(f0.next, s);
            var f1 := run(a + 1, s1, f0.locals);
            var s2 := Written(f1.next, s1);
            var f2 := run(a + 2, s2, f1.locals);
            var rest := Serial(run, Written(f2.next, s2), f2.locals, From(a + 3, n));
            Serial(run, s, l, From(a, n + 3)) == (rest.0, rest.1, [f0.out, f1.out, f2.out] + rest.2)
  {
    hide Serial, From, Written;
    var f0 := run(a, s, l);
    var s1 := Written(f0.next, s);
    var f1 := run(a + 1, s1, f0.locals);
    var s2 := Written(f1.next, s1);
    var f2 := run(a + 2, s2, f1.locals);
    var rest := Serial(run, Written(f2.next, s2), f2.locals, From(a + 3, n));
    SerialOne(run, s, l, a, n + 2);
    SerialOne(run, s1, f0.locals, a + 1, n + 1);
    SerialOne(run, s2, f1.locals, a + 2, n);
    assert [f0.out] + ([f1.out] + ([f2.out] + rest.2)) == [f0.out, f1.out, f2.out] + rest.2;
  }

  lemma {:induction false} DecodersInOrder(
    env: Env, calls: nat -> Call, a: nat, d: nat, sender: NoiseState, receiver: NoiseState, ds: Decoders, ms: seq<Sv2Message>)
    requires env.Sound() && Listening(sender, receiver) && EncodeAll(env, sender, ms).Ok? && AllWithinCounts(ms)
    requires DecoderOf(ds, d) == DecoderState(IDLE, 0) && FeedsAll(calls, a, d, Frames(env, sender, ms))
    ensures var (s, l, outs) := Serial(Codecs(env, calls), receiver, ds, From(a, 3 * |ms|));
            && Listening(EncodeAll(env, sender, ms).value.noise, s) && s == receiver.(recvNonce := s.recvNonce)
            && DecoderOf(l, d) == DecoderState(IDLE, 0) && outs == Delivered(ms)
    decreases |ms|
  {
    hide CodecCall, Codec.Encoded, Codecs;
    if ms == [] {
      assert From(a, 0) == [];
    } else {
      var frames, run := Frames(env, sender, ms), Codecs(env, calls);
      var e := Codec.Encoded(env, sender, ms[0]).value;
      FirstSendable(env, sender, ms);
      assert Feeds(calls, a + 3 * 0, d, frames[0]);
      FrameFed(env, calls, a, d, sender, receiver, ds, ms[0]);
      SerialThree(run, receiver, ds, a, 3 * (|ms| - 1));
      var f0 := run(a, receiver, ds);
      var s1 := Written(f0.next, receiver);
      var f1 := run(a + 1, s1, f0.locals);
      var s2 := Written(f1.next, s1);
      var f2 := run(a + 2, s2, f1.locals);
      FeedsRest(calls, a, d, frames);
      DecodersInOrder(env, calls, a + 3, d, e.noise, Written(f2.next, s2), f2.locals, ms[1..]);
    }
  }

  lemma FirstSendable(env: Env, st: NoiseState, ms: seq<Sv2Message>)
    requires st.Transport? && ms != [] && EncodeAll(env, st, ms).Ok? && AllWithinCounts(ms)
    ensures Sendable(env, st, ms[0]) && AllWithinCounts(ms[1..])
    ensures var after := Codec.Encoded(env, st, ms[0]).value.noise;
            after.Transport? && after == st.(sendNonce := after.sendNonce)
  {
    EncodedConverts(env, st, ms[0]);
  }

  lemma FeedsRest(calls: nat -> Call, a: nat, d: nat, frames: seq<seq<byte>>)
    requires frames != [] && FeedsAll(calls, a, d, frames)
    ensures FeedsAll(calls, a + 3, d, frames[1..])
  {
    hide Feeds;
    forall k | 0 <= k < |frames| - 1
      ensures Feeds(calls, a + 3 + 3 * k, d, frames[1..][k])
    {
      assert Feeds(calls, a + 3 * (k + 1), d, frames[k + 1]);
    }
  }

  // ----- any isolated schedule -----

  lemma IsolatedInOrder(env: Env, calls: nat -> Call, st: NoiseState, ds: Decoders, es: seq<Event>)
    requires WellFormed({}, es) && NoFinishInside(All, (i: nat) => MayWrite(env, calls(i)), es)
    ensures var end, order := Play(Codecs(env, calls), Start(st, ds), es), FinishOrder(es);
            var (s, l, outs) := Serial(Codecs(env, calls), st, ds, order);
            end.shared == s && end.locals == l && end.log == Numbered(order, outs)
  {
    CodecCallsSerial(env, calls, st, ds, es);
    InPlaceIsSerial(Codecs(env, calls), st, ds, [], es);
    var order := FinishOrder(es);
    assert [] + Numbered(order, Serial(Codecs(env, calls), st, ds, order).2) == Numbered(order, Serial(Codecs(env, calls), st, ds, order).2);
  }

  /**
   * Encoders of one session and a decoder of its peer, each side with its own isolated
   * schedule that ends the calls in order: every message is returned, in order, and both
   * counters are equal at the end.
   */
  lemma IsolatedCallsDeliver(
    env: Env, sender: NoiseState, receiver: NoiseState, ms: seq<Sv2Message>, d: nat, ds: Decoders,
    sending: nat -> Call, sends: seq<Event>, receiving: nat -> Call, receives: seq<Event>)
    requires env.Sound() && Listening(sender, receiver) && EncodeAll(env, sender, ms).Ok? && AllWithinCounts(ms)
    requires WellFormed({}, sends) && NoFinishInside(All, (i: nat) => MayWrite(env, sending(i)), sends)
    requires WellFormed({}, receives) && NoFinishInside(All, (i: nat) => MayWrite(env, receiving(i)), receives)
    requires Encodes(sending, 0, ms) && FinishOrder(sends) == From(0, |ms|)
    requires DecoderOf(ds, d) == DecoderState(IDLE, 0) && FeedsAll(receiving, 0, d, Frames(env, sender, ms))
    requires FinishOrder(receives) == From(0, 3 * |ms|)
    ensures var sent := Play(Codecs(env, sending), Start(sender, map[]), sends);
            var received := Play(Codecs(env, receiving), Start(receiver, ds), receives);
            && |sent.log| == |ms|
            && (forall k :: 0 <= k < |ms| ==> sent.log[k].1 == Output.Encoded(Ok(Frames(env, sender, ms)[k])))
            && |received.log| == |Delivered(ms)|
            && (forall k :: 0 <= k < |received.log| ==> received.log[k].1 == Delivered(ms)[k])
            && Listening(sent.shared, received.shared)
  {
    hide NoFinishInside, Play, Codecs, Serial;
    IsolatedInOrder(env, sending, sender, map[], sends);
    IsolatedInOrder(env, receiving, receiver, ds, receives);
    EncodersInOrder(env, sending, 0, sender, map[], ms);
    DecodersInOrder(env, receiving, 0, d, sender, receiver, ds, ms);
  }
}
