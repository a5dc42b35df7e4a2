/**
 * Calls that copy a shared state, compute on the copy and write it back. The lock on the
 * shared state is held for the copy and for the write, not in between, so calls can
 * interleave. What only one call at a time can touch (a decoder is locked for its whole
 * call) is threaded through the calls in the order they end.
 */
module Schedule {
  import opened Bytes
  import opened Sv2Messages
  import opened Conversion
  import opened CodecErrors
  import opened Noise
  import opened Framing
  import opened Codec
  import opened CodecTheorems

  /** What a call makes of its copy: the state to write back, if it gets that far, its own object and its output. */
  datatype Effect<S, L, O> = Effect(next: Option<S>, locals: L, out: O)

  type Runner<!S, !L, !O> = (nat, S, L) -> Effect<S, L, O>

  /** A call takes its copy, and later finishes. Each number is one call. */
  datatype Event = Clone(call: nat) | Finish(call: nat)

  datatype World<S, L, O> = World(shared: S, locals: L, copies: map<nat, S>, log: seq<(nat, O)>)

  /** No call under way and nothing returned yet. */
  function Start<S, L, O>(shared: S, locals: L): (w: World<S, L, O>)
    ensures w.copies.Keys == {}
  {
    World(shared, locals, map[], [])
  }

  function Written<S>(next: Option<S>, shared: S): S {
    if next.Some? then next.value else shared
  }

  function Apply<S, L, O>(run: Runner<S, L, O>, w: World<S, L, O>, e: Event): World<S, L, O>
    requires e.Finish? ==> e.call in w.copies
  {
    match e
    case Clone(i) => w.(copies := w.copies[i := w.shared])
    case Finish(i) =>
      var effect := run(i, w.copies[i], w.locals);
      World(Written(effect.next, w.shared), effect.locals, w.copies - {i}, w.log + [(i, effect.out)])
  }

  /** Calls finish once, after they start; `open` are the calls under way. */
  predicate WellFormed(open: set<nat>, es: seq<Event>)
    decreases |es|
  {
    es == [] ||
    match es[0]
    case Clone(i) => i !in open && WellFormed(open + {i}, es[1..])
    case Finish(i) => i in open && WellFormed(open - {i}, es[1..])
  }

  function Play<S, L, O>(run: Runner<S, L, O>, w: World<S, L, O>, es: seq<Event>): World<S, L, O>
    requires WellFormed(w.copies.Keys, es)
    decreases |es|
  {
    if es == [] then w else
    KeysAfter(run, w, es[0]);
    Play(run, Apply(run, w, es[0]), es[1..])
  }

  lemma KeysAfter<S, L, O>(run: Runner<S, L, O>, w: World<S, L, O>, e: Event)
    requires e.Finish? ==> e.call in w.copies
    ensures Apply(run, w, e).copies.Keys ==
            match e case Clone(i) => w.copies.Keys + {i} case Finish(i) => w.copies.Keys - {i}
  {
  }

  /** The calls in the order they finish, run one after the other in place. */
  function InPlace<S, L, O>(run: Runner<S, L, O>, shared: S, locals: L, log: seq<(nat, O)>, es: seq<Event>): (S, L, seq<(nat, O)>)
    decreases |es|
  {
    if es == [] then (shared, locals, log)
    else match es[0]
      case Clone(_) => InPlace(run, shared, locals, log, es[1..])
      case Finish(i) =>
        var effect := run(i, shared, locals);
        InPlace(run, Written(effect.next, shared), effect.locals, log + [(i, effect.out)], es[1..])
  }

  type Calls = nat -> bool

  /**
   * No call among `writers` finishes between the copy and the end of a call among `readers`.
   * `stale` are the calls under way beneath which a writer has finished.
   */
  predicate Isolated(readers: Calls, writers: Calls, open: set<nat>, stale: set<nat>, es: seq<Event>)
    decreases |es|
  {
    es == [] ||
    match es[0]
    case Clone(i) => Isolated(readers, writers, open + {i}, stale - {i}, es[1..])
    case Finish(i) =>
      && (readers(i) ==> i !in stale)
      && Isolated(readers, writers, open - {i}, if writers(i) then stale + (open - {i}) else stale, es[1..])
  }

  predicate All(call: nat) {
    true
  }

  /**
   * When no call that may write finishes inside another call's window, the interleaved calls
   * leave the state and return the outputs that running them in place, in the order they
   * finish, would.
   */
  lemma {:induction false} IsolatedIsSerial<S(!new), L(!new), O>(
    run: Runner<S, L, O>, writers: Calls, w: World<S, L, O>, stale: set<nat>, es: seq<Event>)
    requires forall i, s, l :: !writers(i) ==> run(i, s, l).next.None?
    requires WellFormed(w.copies.Keys, es) && Isolated(All, writers, w.copies.Keys, stale, es)
    requires forall i :: i in w.copies && i !in stale ==> w.copies[i] == w.shared
    ensures var end := Play(run, w, es);
            (end.shared, end.locals, end.log) == InPlace(run, w.shared, w.locals, w.log, es)
    decreases |es|
  {
    if es != [] {
      KeysAfter(run, w, es[0]);
      var next := Apply(run, w, es[0]);
      match es[0]
      case Clone(i) => IsolatedIsSerial(run, writers, next, stale - {i}, es[1..]);
      case Finish(i) =>
        IsolatedIsSerial(run, writers, next, if writers(i) then stale + (w.copies.Keys - {i}) else stale, es[1..]);
    }
  }

  // ----- exactness, for calls that move a counter or write nothing -----

  function Total(weight: nat -> nat, es: seq<Event>): nat {
    if es == [] then 0
    else (if es[0].Finish? then weight(es[0].call) else 0) + Total(weight, es[1..])
  }

  /** Started from a `good` state, a committing call advances the counter by its weight; any other writes nothing back. */
  ghost predicate Advances<S(!new), L(!new), O>(
    run: Runner<S, L, O>, good: S -> bool, counter: S -> nat, commits: Calls, weight: nat -> nat)
  {
    forall i, s, l {:trigger run(i, s, l)} :: good(s) ==>
      var next := run(i, s, l).next;
      if commits(i) then
        next.Some? && good(next.value) && weight(i) > 0 && counter(next.value) == counter(s) + weight(i)
      else next.None? && weight(i) == 0
  }

  /**
   * The counter ends where it should, no update lost, exactly when no committing call finishes
   * inside a committing call's window. `full` is what the counter would be had none been lost.
   */
  lemma {:induction false} NothingLostIffIsolated<S(!new), L(!new), O>(
    run: Runner<S, L, O>, good: S -> bool, counter: S -> nat, commits: Calls, weight: nat -> nat,
    w: World<S, L, O>, full: nat, stale: set<nat>, es: seq<Event>)
    requires Advances(run, good, counter, commits, weight)
    requires WellFormed(w.copies.Keys, es)
    requires good(w.shared) && counter(w.shared) <= full
    requires forall i :: i in w.copies ==> good(w.copies[i]) && counter(w.copies[i]) <= full
    requires forall i :: i in w.copies && i in stale ==> counter(w.copies[i]) < full
    requires forall i :: i in w.copies && i !in stale ==> w.copies[i] == w.shared
    ensures var end := counter(Play(run, w, es).shared);
            && end <= full + Total(weight, es)
            && (end == full + Total(weight, es) <==>
                  counter(w.shared) == full && Isolated(commits, commits, w.copies.Keys, stale, es))
    decreases |es|
  {
    if es != [] {
      KeysAfter(run, w, es[0]);
      var next := Apply(run, w, es[0]);
      match es[0]
      case Clone(i) =>
        NothingLostIffIsolated(run, good, counter, commits, weight, next, full, stale - {i}, es[1..]);
      case Finish(i) =>
        var effect := run(i, w.copies[i], w.locals);
        NothingLostIffIsolated(run, good, counter, commits, weight, next, full + weight(i),
                               if commits(i) then stale + (w.copies.Keys - {i}) else stale, es[1..]);
    }
  }

  // ----- exactness, for calls of any kind -----

  /** How far a call moves the counter of the copy it writes back. */
  function Gain<S>(counter: S -> int, before: S, next: Option<S>): int {
    if next.Some? then counter(next.value) - counter(before) else 0
  }

  ghost predicate NeverBack<S(!new), L(!new), O>(run: Runner<S, L, O>, good: S -> bool, counter: S -> int) {
    forall i, s, l {:trigger run(i, s, l)} :: good(s) && run(i, s, l).next.Some? ==>
      good(run(i, s, l).next.value) && Gain(counter, s, run(i, s, l).next) >= 0
  }

  function Gains<S, L, O>(run: Runner<S, L, O>, counter: S -> int, w: World<S, L, O>, es: seq<Event>): int
    requires WellFormed(w.copies.Keys, es)
    decreases |es|
  {
    if es == [] then 0 else
    KeysAfter(run, w, es[0]);
    var gain := if es[0].Clone? then 0 else Gain(counter, w.copies[es[0].call], run(es[0].call, w.copies[es[0].call], w.locals).next);
    gain + Gains(run, counter, Apply(run, w, es[0]), es[1..])
  }

  /** What a call's end does to the shared state: nothing, write the copy back as it was, or write it back moved on. */
  datatype Label = Silent | WritesBack | Moves

  function LabelOf<S>(counter: S -> int, before: S, next: Option<S>): Label {
    if next.None? then Silent else if Gain(counter, before, next) > 0 then Moves else WritesBack
  }

  /** The labels of a run, one for each event; those of copies mean nothing. */
  function LabelsOf<S, L, O>(run: Runner<S, L, O>, counter: S -> int, w: World<S, L, O>, es: seq<Event>): (labels: seq<Label>)
    requires WellFormed(w.copies.Keys, es)
    ensures |labels| == |es|
    decreases |es|
  {
    if es == [] then [] else
    KeysAfter(run, w, es[0]);
    var first := if es[0].Clone? then Silent
      else LabelOf(counter, w.copies[es[0].call], run(es[0].call, w.copies[es[0].call], w.locals).next);
    [first] + LabelsOf(run, counter, Apply(run, w, es[0]), es[1..])
  }

  /**
   * Whether every update is still in the state at the end, from the order of events and their
   * labels alone: a write makes the state as old as the copy it came from, and a move makes
   * every other copy old. `lost` and `stale` say whether the state and which copies are old.
   */
  predicate Kept(labels: seq<Label>, open: set<nat>, lost: bool, stale: set<nat>, es: seq<Event>)
    requires |labels| == |es|
    decreases |es|
  {
    if es == [] then !lost else
    match es[0]
    case Clone(i) => Kept(labels[1..], open + {i}, lost, if lost then stale + {i} else stale - {i}, es[1..])
    case Finish(i) =>
      match labels[0]
      case Silent => Kept(labels[1..], open - {i}, lost, stale, es[1..])
      case WritesBack => Kept(labels[1..], open - {i}, i in stale, stale, es[1..])
      case Moves => Kept(labels[1..], open - {i}, i in stale, open - {i}, es[1..])
  }

  /** For any calls that never turn the counter back: it moves by all that was gained exactly when every update is kept. */
  lemma {:induction false} CountersAddUp<S(!new), L(!new), O>(
    run: Runner<S, L, O>, good: S -> bool, counter: S -> int,
    w: World<S, L, O>, full: int, lost: bool, stale: set<nat>, es: seq<Event>)
    requires NeverBack(run, good, counter) && WellFormed(w.copies.Keys, es)
    requires good(w.shared) && counter(w.shared) <= full && (lost <==> counter(w.shared) < full)
    requires forall i :: i in w.copies ==>
               good(w.copies[i]) && counter(w.copies[i]) <= full && (i in stale <==> counter(w.copies[i]) < full)
    ensures var end := counter(Play(run, w, es).shared);
            && end <= full + Gains(run, counter, w, es)
            && (end == full + Gains(run, counter, w, es) <==>
                  Kept(LabelsOf(run, counter, w, es), w.copies.Keys, lost, stale, es))
    decreases |es|
  {
    if es != [] {
      KeysAfter(run, w, es[0]);
      var after := Apply(run, w, es[0]);
      assert LabelsOf(run, counter, w, es)[1..] == LabelsOf(run, counter, after, es[1..]);
      match es[0]
      case Clone(i) =>
        CountersAddUp(run, good, counter, after, full, lost, if lost then stale + {i} else stale - {i}, es[1..]);
      case Finish(i) =>
        var next := run(i, w.copies[i], w.locals).next;
        var gain := Gain(counter, w.copies[i], next);
        CountersAddUp(run, good, counter, after, full + gain, if next.None? then lost else i in stale,
                      if gain > 0 then w.copies.Keys - {i} else stale, es[1..]);
    }
  }

  /** Calls whose labels are known beforehand, whatever copy they start from. */
  ghost predicate Obeys<S(!new), L(!new), O>(run: Runner<S, L, O>, good: S -> bool, counter: S -> int, known: nat -> Label) {
    forall i, s, l {:trigger run(i, s, l)} :: good(s) ==> LabelOf(counter, s, run(i, s, l).next) == known(i)
  }

  function Labelled(known: nat -> Label, es: seq<Event>): (labels: seq<Label>)
    ensures |labels| == |es|
  {
    if es == [] then [] else [if es[0].Clone? then Silent else known(es[0].call)] + Labelled(known, es[1..])
  }

  /** For such calls the labels of the run, and so whether every update is kept, can be told before it starts. */
  lemma {:induction false} LabelsKnownBefore<S(!new), L(!new), O>(
    run: Runner<S, L, O>, good: S -> bool, counter: S -> int, known: nat -> Label, w: World<S, L, O>, es: seq<Event>)
    requires NeverBack(run, good, counter) && Obeys(run, good, counter, known) && WellFormed(w.copies.Keys, es)
    requires good(w.shared) && forall i :: i in w.copies ==> good(w.copies[i])
    ensures LabelsOf(run, counter, w, es) == Labelled(known, es)
    decreases |es|
  {
    if es != [] {
      KeysAfter(run, w, es[0]);
      LabelsKnownBefore(run, good, counter, known, Apply(run, w, es[0]), es[1..]);
    }
  }

  // ----- isolation, said with positions -----

  /** Position `r` is the first event of its call after position `p`. */
  ghost predicate NextOfCall(es: seq<Event>, p: int, r: int) {
    -1 <= p < r < |es| && forall t :: p < t < r ==> es[t].call != es[r].call
  }

  ghost predicate Ends(which: Calls, e: Event) {
    e.Finish? && which(e.call)
  }

  ghost predicate NoneEndsBetween(writers: Calls, es: seq<Event>, p: int, r: int)
    requires -1 <= p && r <= |es|
  {
    forall q :: p < q < r ==> !Ends(writers, es[q])
  }

  /** Between a reader's copy and its end, no writer ends. */
  ghost predicate NoFinishInside(readers: Calls, writers: Calls, es: seq<Event>) {
    forall p, r :: 0 <= p && NextOfCall(es, p, r) && es[p].Clone? && Ends(readers, es[r]) && es[p].call == es[r].call ==>
      NoneEndsBetween(writers, es, p, r)
  }

  /** The readers among `which` that are under way from the start end before any writer does. */
  ghost predicate EndFirst(which: Calls, writers: Calls, es: seq<Event>) {
    forall r :: NextOfCall(es, -1, r) && Ends(which, es[r]) ==> NoneEndsBetween(writers, es, -1, r)
  }

  /** No reader in `stale`, if under way from the start, ends. */
  ghost predicate NoneOfEnds(readers: Calls, stale: set<nat>, es: seq<Event>) {
    forall r :: NextOfCall(es, -1, r) && Ends(readers, es[r]) ==> es[r].call !in stale
  }

  lemma IsolatedByPositions(readers: Calls, writers: Calls, es: seq<Event>)
    requires WellFormed({}, es)
    ensures Isolated(readers, writers, {}, {}, es) <==> NoFinishInside(readers, writers, es)
  {
    IsolatedMeans(readers, writers, {}, {}, es);
    forall r | NextOfCall(es, -1, r)
      ensures !es[r].Finish?
    {
      if es[r].Finish? {
        FinishesWhatIsOpen({}, es, r);
      }
    }
  }

  lemma {:induction false} FinishesWhatIsOpen(open: set<nat>, es: seq<Event>, r: int)
    requires WellFormed(open, es) && NextOfCall(es, -1, r) && es[r].Finish?
    ensures es[r].call in open
    decreases |es|
  {
    if r > 0 {
      Shift(All, es, -1, r);
      FinishesWhatIsOpen(match es[0] case Clone(i) => open + {i} case Finish(i) => open - {i}, es[1..], r - 1);
    }
  }

  lemma Shift(writers: Calls, es: seq<Event>, p: int, r: int)
    requires es != [] && -1 <= p && 1 <= r < |es|
    ensures 0 <= p ==> (NextOfCall(es, p, r) <==> NextOfCall(es[1..], p - 1, r - 1))
    ensures 0 <= p ==> (NoneEndsBetween(writers, es, p, r) <==> NoneEndsBetween(writers, es[1..], p - 1, r - 1))
    ensures p == -1 ==> (NextOfCall(es, p, r) <==> NextOfCall(es[1..], -1, r - 1) && es[0].call != es[r].call)
    ensures p == -1 ==>
      (NoneEndsBetween(writers, es, p, r) <==> NoneEndsBetween(writers, es[1..], -1, r - 1) && !Ends(writers, es[0]))
  {
    var rest := es[1..];
    assert forall t :: 0 <= t < |rest| ==> rest[t] == es[t + 1];
    assert forall t :: 1 <= t < |es| ==> es[t] == rest[t - 1];
  }

  lemma InsideStep(readers: Calls, writers: Calls, es: seq<Event>)
    requires es != []
    ensures NoFinishInside(readers, writers, es) <==>
            NoFinishInside(readers, writers, es[1..])
            && (es[0].Clone? ==> EndFirst((i: nat) => readers(i) && i == es[0].call, writers, es[1..]))
  {
    forall p, r | 0 <= p < r < |es|
      ensures NextOfCall(es, p, r) <==> NextOfCall(es[1..], p - 1, r - 1)
      ensures NoneEndsBetween(writers, es, p, r) <==> NoneEndsBetween(writers, es[1..], p - 1, r - 1)
    {
      Shift(writers, es, p, r);
    }
    var rest := es[1..];
    if NoFinishInside(readers, writers, es) {
      forall p, r | 0 <= p && NextOfCall(rest, p, r) && rest[p].Clone? && Ends(readers, rest[r]) && rest[p].call == rest[r].call
        ensures NoneEndsBetween(writers, rest, p, r)
      {
        assert NextOfCall(es, p + 1, r + 1);
      }
      if es[0].Clone? {
        forall r | NextOfCall(rest, -1, r) && Ends(readers, rest[r]) && rest[r].call == es[0].call
          ensures NoneEndsBetween(writers, rest, -1, r)
        {
          assert NextOfCall(es, 0, r + 1);
        }
      }
    }
  }

  lemma EndStep(readers: Calls, writers: Calls, es: seq<Event>, stale: set<nat>)
    requires es != []
    ensures EndFirst(readers, writers, es) <==>
            EndFirst((i: nat) => readers(i) && i != es[0].call, writers, es[1..])
            && (Ends(writers, es[0]) ==> OnlyEnds(readers, es[0].call, es[1..]))
    ensures NoneOfEnds(readers, stale, es) <==>
            (Ends(readers, es[0]) ==> es[0].call !in stale) && NoneOfEnds(readers, stale - {es[0].call}, es[1..])
  {
    var rest := es[1..];
    forall r | 1 <= r < |es|
      ensures NextOfCall(es, -1, r) <==> NextOfCall(rest, -1, r - 1) && es[0].call != es[r].call
      ensures NoneEndsBetween(writers, es, -1, r) <==> NoneEndsBetween(writers, rest, -1, r - 1) && !Ends(writers, es[0])
    {
      Shift(writers, es, -1, r);
    }
    forall r | NextOfCall(rest, -1, r) && rest[r].call != es[0].call
      ensures NextOfCall(es, -1, r + 1) && es[r + 1] == rest[r]
    {
    }
    assert Ends(readers, es[0]) ==> NextOfCall(es, -1, 0);
  }

  /** Only call `i`, if any, ends among the readers under way from the start. */
  ghost predicate OnlyEnds(readers: Calls, i: nat, es: seq<Event>) {
    forall r :: NextOfCall(es, -1, r) && Ends(readers, es[r]) ==> es[r].call == i
  }

  lemma {:induction false} IsolatedMeans(readers: Calls, writers: Calls, open: set<nat>, stale: set<nat>, es: seq<Event>)
    requires WellFormed(open, es)
    ensures Isolated(readers, writers, open, stale, es) <==>
            NoFinishInside(readers, writers, es) && EndFirst(readers, writers, es) && NoneOfEnds(readers, stale, es)
    decreases |es|
  {
    hide NoFinishInside;
    if es == [] {
      EmptyInside(readers, writers);
    } else {
      var rest := es[1..];
      InsideStep(readers, writers, es);
      EndStep(readers, writers, es, stale);
      match es[0]
      case Clone(i) =>
        IsolatedMeans(readers, writers, open + {i}, stale - {i}, rest);
      case Finish(i) =>
        IsolatedMeans(readers, writers, open - {i}, if writers(i) then stale + (open - {i}) else stale, rest);
        forall r | NextOfCall(rest, -1, r) && rest[r].Finish?
          ensures rest[r].call in open - {i}
        {
          FinishesWhatIsOpen(open - {i}, rest, r);
        }
    }
  }

  lemma EmptyInside(readers: Calls, writers: Calls)
    ensures NoFinishInside(readers, writers, [])
  {
  }

  // ----- the codec's calls -----

  /** A call of `encode`, or of `try_decode` on the decoder with a number. */
  datatype Call = EncodeCall(message: Sv2Message) | DecodeCall(decoder: nat, data: seq<byte>)

  datatype Output = Encoded(frame: Result<seq<byte>, Sv2CodecError>) | Decoded(result: Result<Sv2Message, Sv2CodecError>)

  /** The decoders in use; one not used yet is new. */
  type Decoders = map<nat, DecoderState>

  function DecoderOf(ds: Decoders, k: nat): DecoderState {
    if k in ds then ds[k] else DecoderState(IDLE, 0)
  }

  /** What each call makes of its copy of the codec state and of its decoder; the failing exits write no state back. */
  function CodecCall(env: Env, call: Call, st: NoiseState, ds: Decoders): Effect<NoiseState, Decoders, Output> {
    match call
    case EncodeCall(m) =>
      (match Codec.Encoded(env, st, m)
       case Ok(e) => Effect(Some(e.noise), ds, Output.Encoded(Ok(e.frame)))
       case Err(error) => Effect(None, ds, Output.Encoded(Err(error))))
    case DecodeCall(k, data) =>
      var a := Attempted(env, DecoderOf(ds, k), st, data);
      Effect(if a.result.Ok? || a.result == Err(MissingBytes) then Some(a.noise) else None,
             ds[k := a.decoder], Output.Decoded(a.result))
  }

  function Codecs(env: Env, calls: nat -> Call): Runner<NoiseState, Decoders, Output> {
    (i: nat, st: NoiseState, ds: Decoders) => CodecCall(env, calls(i), st, ds)
  }

  /** Which messages every session can encode: those that convert and whose payload fits a frame. */
  predicate Encodable(env: Env, m: Sv2Message) {
    MessageToInner(m).Ok? && |env.wire.serialize(MessageToInner(m).value)| <= MAX_PAYLOAD
  }

  /** Every call but the encoding of a message that cannot be encoded. */
  predicate MayWrite(env: Env, call: Call) {
    call.EncodeCall? ==> Encodable(env, call.message)
  }

  /**
   * Codec calls on one shared state and any number of decoders act as if run in place, in the
   * order they end, when no call that may write ends inside another call's window.
   */
  lemma CodecCallsSerial(env: Env, calls: nat -> Call, st: NoiseState, ds: Decoders, es: seq<Event>)
    requires WellFormed({}, es) && NoFinishInside(All, (i: nat) => MayWrite(env, calls(i)), es)
    ensures var end := Play(Codecs(env, calls), Start(st, ds), es);
            (end.shared, end.locals, end.log) == InPlace(Codecs(env, calls), st, ds, [], es)
  {
    hide NoFinishInside, Isolated, CodecCall, Encodable, Play;
    var writers := (i: nat) => MayWrite(env, calls(i));
    IsolatedByPositions(All, writers, es);
    forall i, s, l | !writers(i)
      ensures Codecs(env, calls)(i, s, l).next.None?
    {
      RefusedWritesNothing(env, calls(i), s, l);
    }
    IsolatedIsSerial(Codecs(env, calls), writers, Start(st, ds), {}, es);
  }

  lemma RefusedWritesNothing(env: Env, call: Call, st: NoiseState, ds: Decoders)
    requires !MayWrite(env, call)
    ensures CodecCall(env, call, st, ds).next.None?
  {
    hide MessageToInner, SealFrame;
  }

  // ----- concurrent encoders -----

  function NoncesOf(env: Env, m: Sv2Message): nat {
    if Encodable(env, m) then FrameNonces(env, MessageToInner(m).value) else 0
  }

  function Weights(env: Env, messages: nat -> Sv2Message): nat -> nat {
    (i: nat) => NoncesOf(env, messages(i))
  }

  function Commits(env: Env, messages: nat -> Sv2Message): Calls {
    (i: nat) => Encodable(env, messages(i))
  }

  function Encoders(env: Env, messages: nat -> Sv2Message): Runner<NoiseState, Decoders, Output> {
    Codecs(env, (i: nat) => EncodeCall(messages(i)))
  }

  lemma EncodeCallAdvances(env: Env, m: Sv2Message, st: NoiseState, ds: Decoders)
    requires st.Transport?
    ensures CodecCall(env, EncodeCall(m), st, ds).next ==
            if Encodable(env, m) then Some(st.(sendNonce := st.sendNonce + NoncesOf(env, m))) else None
    ensures Encodable(env, m) ==> NoncesOf(env, m) > 0
  {
    hide MessageToInner, SealFrame;
  }

  /**
   * Concurrent encoders on one session, some of whose messages may be refused: the sending
   * counter has moved by every frame sealed, no update lost, exactly when no committing call
   * ends between a committing call's copy and its end.
   */
  lemma NoCounterLostIffIsolated(env: Env, messages: nat -> Sv2Message, st: NoiseState, ds: Decoders, es: seq<Event>)
    requires st.Transport? && WellFormed({}, es)
    ensures var end, total := Play(Encoders(env, messages), Start(st, ds), es).shared, Total(Weights(env, messages), es);
            && end.Transport? && end.sendNonce <= st.sendNonce + total
            && (end.sendNonce == st.sendNonce + total <==>
                  NoFinishInside(Commits(env, messages), Commits(env, messages), es))
  {
    hide NoFinishInside, Play, Total, Isolated, Encodable, NoncesOf;
    var run := Encoders(env, messages);
    var good := (s: NoiseState) => s.Transport?;
    var counter := (s: NoiseState) => if s.Transport? then s.sendNonce else 0;
    var commits, weight := Commits(env, messages), Weights(env, messages);
    forall i, s, l | good(s)
      ensures var next := run(i, s, l).next;
              if commits(i) then
                next.Some? && good(next.value) && weight(i) > 0 && counter(next.value) == counter(s) + weight(i)
              else next.None? && weight(i) == 0
    {
      EncodeCallAdvances(env, messages(i), s, l);
      assert run(i, s, l) == CodecCall(env, EncodeCall(messages(i)), s, l);
      assert !Encodable(env, messages(i)) ==> NoncesOf(env, messages(i)) == 0 by { NoNonces(env, messages(i)); }
    }
    IsolatedByPositions(commits, commits, es);
    NothingLostIffIsolated(run, good, counter, commits, weight, Start(st, ds), st.sendNonce, {}, es);
    StaysInSession(env, (i: nat) => EncodeCall(messages(i)), Start(st, ds), es);
  }

  lemma NoNonces(env: Env, m: Sv2Message)
    ensures !Encodable(env, m) ==> NoncesOf(env, m) == 0
  {
  }

  // ----- concurrent calls of any kind -----

  /** Both counters of a session together; a call moves at most one of them. */
  function CounterSum(st: NoiseState): int {
    if st.Transport? then st.sendNonce + st.recvNonce else 0
  }

  /** In a session a call that writes back leaves a session, and neither of its counters is smaller. */
  lemma CallsNeverGoBack(env: Env, call: Call, st: NoiseState, ds: Decoders)
    requires st.Transport?
    ensures var next := CodecCall(env, call, st, ds).next;
            next.Some? ==> next.value.Transport? && next.value.sendNonce >= st.sendNonce && next.value.recvNonce >= st.recvNonce
  {
    hide MessageToInner, InnerToMessage, SealFrame, OpenChunks, ParseHeader;
  }

  lemma {:induction false} StaysInSession(env: Env, calls: nat -> Call, w: World<NoiseState, Decoders, Output>, es: seq<Event>)
    requires WellFormed(w.copies.Keys, es)
    requires w.shared.Transport? && forall i :: i in w.copies ==> w.copies[i].Transport?
    ensures Play(Codecs(env, calls), w, es).shared.Transport?
    decreases |es|
  {
    hide CodecCall;
    if es != [] {
      if es[0].Finish? {
        CallsNeverGoBack(env, calls(es[0].call), w.copies[es[0].call], w.locals);
      }
      KeysAfter(Codecs(env, calls), w, es[0]);
      StaysInSession(env, calls, Apply(Codecs(env, calls), w, es[0]), es[1..]);
    }
  }

  /**
   * Encoders and decoders together, with refused calls, polls and undecodable frames among
   * them: the counters have moved by all the calls moved them exactly when every update is kept.
   */
  lemma CodecCountersAddUp(env: Env, calls: nat -> Call, st: NoiseState, ds: Decoders, es: seq<Event>)
    requires st.Transport? && WellFormed({}, es)
    ensures var w, run := Start(st, ds), Codecs(env, calls);
            var end := Play(run, w, es).shared;
            && end.Transport? && CounterSum(end) <= CounterSum(st) + Gains(run, CounterSum, w, es)
            && (CounterSum(end) == CounterSum(st) + Gains(run, CounterSum, w, es) <==>
                  Kept(LabelsOf(run, CounterSum, w, es), {}, false, {}, es))
  {
    hide Play, Gains, Kept, LabelsOf, CodecCall;
    var run := Codecs(env, calls);
    var good := (s: NoiseState) => s.Transport?;
    forall i, s, l | good(s) && run(i, s, l).next.Some?
      ensures good(run(i, s, l).next.value) && Gain(CounterSum, s, run(i, s, l).next) >= 0
    {
      CallsNeverGoBack(env, calls(i), s, l);
    }
    CountersAddUp(run, good, CounterSum, Start(st, ds), CounterSum(st), false, {}, es);
    StaysInSession(env, calls, Start(st, ds), es);
  }

  /** What concurrent encoders keep can be told from their messages and the order of events. */
  lemma EncoderLabels(env: Env, messages: nat -> Sv2Message, st: NoiseState, ds: Decoders, es: seq<Event>)
    requires st.Transport? && WellFormed({}, es)
    ensures LabelsOf(Encoders(env, messages), CounterSum, Start(st, ds), es)
            == Labelled((i: nat) => if Encodable(env, messages(i)) then Moves else Silent, es)
  {
    hide CodecCall, Encodable, NoncesOf;
    var run := Encoders(env, messages);
    var good := (s: NoiseState) => s.Transport?;
    forall i, s, l | good(s)
      ensures run(i, s, l).next.Some? ==> good(run(i, s, l).next.value) && Gain(CounterSum, s, run(i, s, l).next) >= 0
      ensures LabelOf(CounterSum, s, run(i, s, l).next) == if Encodable(env, messages(i)) then Moves else Silent
    {
      EncodeCallAdvances(env, messages(i), s, l);
    }
    LabelsKnownBefore(run, good, CounterSum, (i: nat) => if Encodable(env, messages(i)) then Moves else Silent, Start(st, ds), es);
  }

  // ----- schedules that lose, and one that does not -----

  /** Two encoders that overlap: the first frame's counter values are given out again. */
  lemma OverlappingEncodersLose(env: Env, messages: nat -> Sv2Message, st: NoiseState, ds: Decoders)
    requires st.Transport? && Encodable(env, messages(0)) && Encodable(env, messages(1))
    ensures var es := [Clone(0), Clone(1), Finish(0), Finish(1)];
            && WellFormed({}, es)
            && var end := Play(Encoders(env, messages), Start(st, ds), es).shared;
            && end == st.(sendNonce := st.sendNonce + NoncesOf(env, messages(1)))
            && end.sendNonce < st.sendNonce + Total(Weights(env, messages), es)
  {
    hide Encodable, NoncesOf, CodecCall;
    EncodeCallAdvances(env, messages(0), st, ds);
    EncodeCallAdvances(env, messages(1), st, CodecCall(env, EncodeCall(messages(0)), st, ds).locals);
    PlayFour(Encoders(env, messages), Start(st, ds), Clone(0), Clone(1), Finish(0), Finish(1));
    TotalOfFour(Weights(env, messages), Clone(0), Clone(1), Finish(0), Finish(1));
  }

  /** A poll for the header size and an encoder that overlap: harmless if the poll ends first, a lost update if last. */
  lemma PollAndEncoder(env: Env, m: Sv2Message, st: NoiseState)
    requires st.Transport? && Encodable(env, m)
    ensures var calls := (i: nat) => if i == 0 then DecodeCall(0, []) else EncodeCall(m);
            var pollFirst, pollLast := [Clone(0), Clone(1), Finish(0), Finish(1)], [Clone(0), Clone(1), Finish(1), Finish(0)];
            && WellFormed({}, pollFirst) && WellFormed({}, pollLast)
            && Play(Codecs(env, calls), Start(st, map[]), pollFirst).shared
               == st.(sendNonce := st.sendNonce + NoncesOf(env, m))
            && Play(Codecs(env, calls), Start(st, map[]), pollLast).shared == st
  {
    hide Encodable, NoncesOf, CodecCall;
    var calls := (i: nat) => if i == 0 then DecodeCall(0, []) else EncodeCall(m);
    var run, w := Codecs(env, calls), Start<NoiseState, Decoders, Output>(st, map[]);
    PollWritesCopy(env, st, map[]);
    EncodeCallAdvances(env, m, st, map[]);
    EncodeCallAdvances(env, m, st, CodecCall(env, DecodeCall(0, []), st, map[]).locals);
    EncodeKeepsDecoders(env, m, st, map[]);
    PlayFour(run, w, Clone(0), Clone(1), Finish(0), Finish(1));
    PlayFour(run, w, Clone(0), Clone(1), Finish(1), Finish(0));
  }

  lemma EncodeKeepsDecoders(env: Env, m: Sv2Message, st: NoiseState, ds: Decoders)
    ensures CodecCall(env, EncodeCall(m), st, ds).locals == ds
  {
  }

  lemma PollWritesCopy(env: Env, st: NoiseState, ds: Decoders)
    requires st.Transport? && 0 !in ds
    ensures CodecCall(env, DecodeCall(0, []), st, ds).next == Some(st)
  {
    PollCall(env, st);
  }

  lemma FourWellFormed(a: Event, b: Event, c: Event, d: Event)
    requires a == Clone(0) && b == Clone(1) && c.Finish? && d.Finish? && {c.call, d.call} == {0, 1} && c.call != d.call
    ensures WellFormed({}, [a, b, c, d]) && WellFormed({0}, [b, c, d])
  {
    assert c.call in {0, 1} && d.call in {0, 1};
    assert [a, b, c, d][1..] == [b, c, d];
    assert [b, c, d][1..] == [c, d];
    assert [c, d][1..] == [d];
    assert WellFormed({d.call}, [d]);
    assert {0, 1} - {c.call} == {d.call};
    assert WellFormed({0, 1}, [c, d]);
    assert {0} + {1} == {0, 1};
    assert WellFormed({0}, [b, c, d]);
    assert {} + {0} == {0};
  }

  lemma PlayFour<S, L, O>(run: Runner<S, L, O>, w: World<S, L, O>, a: Event, b: Event, c: Event, d: Event)
    requires w.copies == map[]
    requires a == Clone(0) && b == Clone(1) && c.Finish? && d.Finish? && {c.call, d.call} == {0, 1} && c.call != d.call
    ensures WellFormed({}, [a, b, c, d]) && w.copies.Keys == {}
    ensures var first := run(c.call, w.shared, w.locals);
            Play(run, w, [a, b, c, d]).shared
            == Written(run(d.call, w.shared, first.locals).next, Written(first.next, w.shared))
  {
    FourWellFormed(a, b, c, d);
    assert c.call in {0, 1} && d.call in {0, 1};
    assert [a, b, c, d][1..] == [b, c, d];
    assert [b, c, d][1..] == [c, d];
    assert [c, d][1..] == [d];
    var w1 := Apply(run, w, a);
    var w2 := Apply(run, w1, b);
    assert w2.copies == map[0 := w.shared, 1 := w.shared];
    assert w2.copies.Keys == {0, 1};
    var w3 := Apply(run, w2, c);
    var w4 := Apply(run, w3, d);
    assert Play(run, w3, [d]) == w4;
    assert Play(run, w2, [c, d]) == w4;
    assert w1.copies == map[0 := w.shared];
    assert w1.copies.Keys == {0};
    assert Play(run, w1, [b, c, d]) == w4;
  }

  lemma TotalOfFour(weight: nat -> nat, a: Event, b: Event, c: Event, d: Event)
    requires a.Clone? && b.Clone? && c.Finish? && d.Finish?
    ensures Total(weight, [a, b, c, d]) == weight(c.call) + weight(d.call)
  {
    assert [a, b, c, d][1..] == [b, c, d] && [b, c, d][1..] == [c, d] && [c, d][1..] == [d] && [d][1..] == [];
    assert Total(weight, [d]) == weight(d.call);
    assert Total(weight, [c, d]) == weight(c.call) + Total(weight, [d]);
  }
}
