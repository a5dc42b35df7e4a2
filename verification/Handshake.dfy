/** The two-party handshake as a protocol: every run over a channel that does not alter frames. */
module Handshake {
  import opened Bytes
  import opened CodecErrors
  import opened Noise

  datatype Party = A | B

  /**
   * The initiator's state `a`, the responder's state `b`, the frames each has been sent so
   * far. Frames may be lost, repeated or reordered, and may arrive cut or padded to another
   * length, but not otherwise altered. The initiator may say hello any number of times.
   */
  datatype System = System(a: NoiseState, b: NoiseState, toA: set<seq<byte>>, toB: set<seq<byte>>)

  /** A party calls one of the three handshake functions, possibly the wrong one. */
  datatype Event = Call0(who: Party) | Call1(who: Party, frame: seq<byte>) | Call2(who: Party, frame: seq<byte>)

  ghost predicate Initial(s: System) {
    && s.a.HandShake? && s.a.role.Initiator? && s.a.role.hash == FRESH
    && s.b.HandShake? && s.b.role.Responder?
    && s.toA == s.toB == {}
  }

  function StateOf(s: System, who: Party): NoiseState {
    if who.A? then s.a else s.b
  }

  function Inbox(s: System, who: Party): set<seq<byte>> {
    if who.A? then s.toA else s.toB
  }

  predicate Enabled(s: System, e: Event) {
    match e
    case Call0(_) => true
    case Call1(who, f) => f in Inbox(s, who) || |f| != INITIATOR_FRAME_LEN
    case Call2(who, f) => f in Inbox(s, who) || |f| != RESPONDER_FRAME_LEN
  }

  function Deliver(s: System, who: Party, st: NoiseState, out: set<seq<byte>>): System {
    if who.A? then s.(a := st, toB := s.toB + out) else s.(b := st, toA := s.toA + out)
  }

  function Sent(r: Result<seq<byte>, Sv2CodecError>): set<seq<byte>> {
    if r.Ok? then {r.value} else {}
  }

  function Next(kx: KeyExchange, s: System, e: Event): System {
    match e
    case Call0(who) =>
      var o := Step0(kx, StateOf(s, who));
      Deliver(s, who, o.state, Sent(o.result))
    case Call1(who, f) =>
      var o := Step1(kx, StateOf(s, who), f);
      Deliver(s, who, o.state, Sent(o.result))
    case Call2(who, f) =>
      Deliver(s, who, Step2(kx, StateOf(s, who), f).state, {})
  }

  ghost predicate Run(kx: KeyExchange, s: System, es: seq<Event>)
    decreases |es|
  {
    es == [] || (Enabled(s, es[0]) && Run(kx, Next(kx, s, es[0]), es[1..]))
  }

  function After(kx: KeyExchange, s: System, es: seq<Event>): System
    decreases |es|
  {
    if es == [] then s else After(kx, Next(kx, s, es[0]), es[1..])
  }

  /** What every reachable state satisfies; `i` and `r` are the two parties' secrets. */
  ghost predicate Inv(kx: KeyExchange, i: nat, r: nat, s: System) {
    && (s.a.HandShake? ==> s.a.role.Initiator? && s.a.role.secret == i)
    && (s.b.HandShake? ==> s.b.role == Responder(r))
    && (s.toA != {} <==> s.b.Transport?)
    && (s.a.Transport? ==> s.b.Transport?)
    && (forall f :: f in s.toB ==> exists said :: f == kx.hello(i, said).0)
    && (s.b.Transport? ==> exists said :: Answered(kx, i, r, s, said))
  }

  /** The responder has answered one hello, and the initiator, if complete, has accepted that answer. */
  ghost predicate Answered(kx: KeyExchange, i: nat, r: nat, s: System, said: nat) {
    var answer := kx.respond(r, kx.hello(i, said).0);
    && answer.Some? && s.toA == {answer.value.0} && s.b == Begin(answer.value.1)
    && (s.a.Transport? ==> exists hash :: Accepted(kx, i, s.a, hash, answer.value.0))
  }

  ghost predicate Accepted(kx: KeyExchange, i: nat, a: NoiseState, hash: nat, reply: seq<byte>) {
    kx.finish(i, hash, reply).Some? && a == Begin(kx.finish(i, hash, reply).value)
  }

  lemma StepKeepsInv(kx: KeyExchange, i: nat, r: nat, s: System, e: Event)
    requires Inv(kx, i, r, s) && Enabled(s, e)
    ensures Inv(kx, i, r, Next(kx, s, e))
    ensures s.a.Transport? ==> Next(kx, s, e).a == s.a
    ensures s.b.Transport? ==> Next(kx, s, e).b == s.b
  {
    var after := Next(kx, s, e);
    if s.b.Transport? {
      var said :| Answered(kx, i, r, s, said);
      if e.Call2? && e.who.A? && s.a.HandShake? && after.a.Transport? {
        assert Accepted(kx, i, after.a, s.a.role.hash, e.frame);
      }
      assert Answered(kx, i, r, after, said);
    } else if after.b.Transport? {
      var said :| e.frame == kx.hello(i, said).0;
      assert Answered(kx, i, r, after, said);
    }
  }

  /**
   * In every reachable state: an initiator that has completed has a responder that has
   * completed, and completion, once reached, is never undone.
   */
  lemma {:induction false} InitiatorCompletesLast(kx: KeyExchange, s: System, es: seq<Event>)
    requires Initial(s) && Run(kx, s, es)
    ensures After(kx, s, es).a.Transport? ==> After(kx, s, es).b.Transport?
  {
    RunKeepsInv(kx, s.a.role.secret, s.b.role.secret, s, es);
  }

  lemma {:induction false} RunKeepsInv(kx: KeyExchange, i: nat, r: nat, s: System, es: seq<Event>)
    requires Inv(kx, i, r, s) && Run(kx, s, es)
    ensures Inv(kx, i, r, After(kx, s, es))
    ensures s.a.Transport? ==> After(kx, s, es).a == s.a
    ensures s.b.Transport? ==> After(kx, s, es).b == s.b
    decreases |es|
  {
    if es != [] {
      StepKeepsInv(kx, i, r, s, es[0]);
      RunKeepsInv(kx, i, r, Next(kx, s, es[0]), es[1..]);
    }
  }

  /** After completing, no handshake call and no further run changes a party's session. */
  lemma CompletionIsFinal(kx: KeyExchange, s: System, es: seq<Event>, more: seq<Event>)
    requires Initial(s) && Run(kx, s, es) && Run(kx, After(kx, s, es), more)
    ensures var mid := After(kx, s, es);
            && (mid.a.Transport? ==> After(kx, mid, more).a == mid.a)
            && (mid.b.Transport? ==> After(kx, mid, more).b == mid.b)
  {
    RunKeepsInv(kx, s.a.role.secret, s.b.role.secret, s, es);
    RunKeepsInv(kx, s.a.role.secret, s.b.role.secret, After(kx, s, es), more);
  }

  /** Each party sends under the key the other receives under, with equal counters, both ways. */
  ghost predicate Paired(x: NoiseState, y: NoiseState) {
    && x.Transport? && y.Transport?
    && x.sendKey == y.recvKey && x.sendNonce == y.recvNonce
    && y.sendKey == x.recvKey && y.sendNonce == x.recvNonce
  }

  /** In any run, with any number of hellos, two parties that have both completed share mirrored sessions. */
  lemma CompletedPartiesArePaired(kx: KeyExchange, s: System, es: seq<Event>)
    requires kx.Sound() && Initial(s) && Run(kx, s, es)
    requires After(kx, s, es).a.Transport?
    ensures Paired(After(kx, s, es).a, After(kx, s, es).b)
  {
    var i, r, end := s.a.role.secret, s.b.role.secret, After(kx, s, es);
    RunKeepsInv(kx, i, r, s, es);
    var said :| Answered(kx, i, r, end, said);
    var reply := kx.respond(r, kx.hello(i, said).0).value.0;
    var hash :| Accepted(kx, i, end.a, hash, reply);
    assert kx.NeverMistaken(i, r, said, hash);
  }

  /** The frames of a single hello and its answer, delivered once each, complete both parties. */
  lemma StraightRunCompletes(kx: KeyExchange, s: System)
    requires kx.Sound() && Initial(s)
    ensures var o0 := Step0(kx, s.a);
            && o0.result.Ok?
            && var o1 := Step1(kx, s.b, o0.result.value);
            && o1.result.Ok?
            && var o2 := Step2(kx, o0.state, o1.result.value);
            && o2.result.Ok? && Paired(o2.state, o1.state)
  {
    var i, r := s.a.role.secret, s.b.role.secret;
    assert kx.Agree(i, r);
  }

  /** Each step, in the order its checks are made: what it reports, and that a failing step changes nothing. */
  lemma StepResults(kx: KeyExchange, st: NoiseState, frame: seq<byte>)
    ensures Step0(kx, st).result.Err? <==> !(st.HandShake? && st.role.Initiator?)
    ensures Step0(kx, st).result.Err? ==> Step0(kx, st) == Stepped(st, Err(FailedHandshakeStep0))
    ensures Step0(kx, st).result.Ok? ==>
            var (hello, hash) := kx.hello(st.role.secret, st.role.hash);
            Step0(kx, st) == Stepped(HandShake(Initiator(st.role.secret, hash)), Ok(hello))
    ensures Step1(kx, st, frame).result.Ok? ==>
            var (reply, session) := kx.respond(st.role.secret, frame).value;
            Step1(kx, st, frame) == Stepped(Transport(session.sendKey, 0, session.recvKey, 0), Ok(reply))
    ensures Step2(kx, st, frame).result.Ok? ==>
            var session := kx.finish(st.role.secret, st.role.hash, frame).value;
            Step2(kx, st, frame).state == Transport(session.sendKey, 0, session.recvKey, 0)
    ensures Step1(kx, st, frame).result == Err(BadInitiatorFrame) <==> |frame| != INITIATOR_FRAME_LEN
    ensures Step1(kx, st, frame).result.Ok? <==>
            |frame| == INITIATOR_FRAME_LEN && st.HandShake? && st.role.Responder? && kx.respond(st.role.secret, frame).Some?
    ensures Step1(kx, st, frame).result.Err? ==>
            Step1(kx, st, frame).state == st && Step1(kx, st, frame).result.error in {BadInitiatorFrame, FailedHandshakeStep1}
    ensures Step2(kx, st, frame).result == Err(BadResponderFrame) <==> |frame| != RESPONDER_FRAME_LEN
    ensures Step2(kx, st, frame).result.Ok? <==>
            |frame| == RESPONDER_FRAME_LEN && st.HandShake? && st.role.Initiator?
            && kx.finish(st.role.secret, st.role.hash, frame).Some?
    ensures Step2(kx, st, frame).result.Err? ==>
            Step2(kx, st, frame).state == st && Step2(kx, st, frame).result.error in {BadResponderFrame, FailedHandshakeStep2}
  {
  }

  /** A handshake call given a frame of the wrong length for it. */
  predicate MisSized(e: Event) {
    match e
    case Call0(_) => false
    case Call1(_, f) => |f| != INITIATOR_FRAME_LEN
    case Call2(_, f) => |f| != RESPONDER_FRAME_LEN
  }

  function WithoutMisSized(es: seq<Event>): seq<Event> {
    if es == [] then []
    else (if MisSized(es[0]) then [] else [es[0]]) + WithoutMisSized(es[1..])
  }

  /** Frames of the wrong length change neither side, whoever receives them and when: a run ends as it would without them. */
  lemma {:induction false} WrongLengthChangesNothing(kx: KeyExchange, s: System, es: seq<Event>)
    ensures After(kx, s, es) == After(kx, s, WithoutMisSized(es))
    ensures es != [] && MisSized(es[0]) ==> Next(kx, s, es[0]) == s
    decreases |es|
  {
    if es != [] {
      WrongLengthChangesNothing(kx, Next(kx, s, es[0]), es[1..]);
      if !MisSized(es[0]) {
        assert ([es[0]] + WithoutMisSized(es[1..]))[1..] == WithoutMisSized(es[1..]);
      } else {
        assert s.toA + {} == s.toA && s.toB + {} == s.toB;
        assert [] + WithoutMisSized(es[1..]) == WithoutMisSized(es[1..]);
      }
    }
  }
}
