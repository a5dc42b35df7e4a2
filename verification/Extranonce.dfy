/**
 * The extranonce prefix factories. The byte arithmetic belongs to a library that is not part
 * of this repository; it is modelled once, here, from the ranges the constructors pass and
 * from the documented sequences of prefixes: the static prefix comes first, and a big-endian
 * counter over the free bytes is advanced before each prefix is handed out.
 */
module Extranonce {
  import opened Bytes
  import opened Radix

  const MAX_LEN := 32

  datatype FactoryError = PrefixTooLong | FailedToCreateExtendedExtranonce | FailedToCreateExtranoncePrefix

  /** Bytes `[0, split)` are allocated by the server, bytes `[split, |bytes|)` come after them. */
  datatype ExtendedExtranonce = ExtendedExtranonce(bytes: seq<byte>, split: nat, staticLen: nat)

  function StaticOf(s: Option<seq<byte>>): seq<byte> {
    if s.Some? then s.value else []
  }

  function NewExtranonce(split: nat, end: nat, staticPrefix: Option<seq<byte>>): Result<ExtendedExtranonce, FactoryError> {
    var fixed := StaticOf(staticPrefix);
    if split > end || end > MAX_LEN || |fixed| > split then Err(FailedToCreateExtendedExtranonce)
    else Ok(ExtendedExtranonce(fixed + ZeroBytes(end - |fixed|), split, |fixed|))
  }

  function ZeroBytes(n: nat): (z: seq<byte>)
    ensures |z| == n && forall i :: 0 <= i < n ==> z[i] == 0
  {
    seq(n, _ => 0)
  }

  /** The next value of a big-endian counter, unless every byte is at its maximum. */
  function Increment(counter: seq<byte>): (next: Option<seq<byte>>)
    ensures next.Some? ==> |next.value| == |counter|
  {
    if counter == [] then None else
    var front, last: int := counter[..|counter| - 1], counter[|counter| - 1];
    if last < 255 then Some(front + [last + 1])
    else match Increment(front)
      case None => None
      case Some(f) => Some(f + [0])
  }

  predicate WellFormed(x: ExtendedExtranonce) {
    x.staticLen <= x.split <= |x.bytes| <= MAX_LEN
  }

  /** An extended prefix is the allocated part; its counter is what the static prefix leaves free there. */
  function NextExtended(x: ExtendedExtranonce, required: nat): (r: Result<(ExtendedExtranonce, seq<byte>), FactoryError>)
    requires WellFormed(x)
    ensures r.Ok? ==> WellFormed(r.value.0)
  {
    if required > |x.bytes| - x.split then Err(FailedToCreateExtranoncePrefix) else
    match Increment(ExtendedCounter(x))
    case None => Err(FailedToCreateExtranoncePrefix)
    case Some(c) =>
      var bytes := x.bytes[..x.staticLen] + c + x.bytes[x.split..];
      Ok((x.(bytes := bytes), bytes[..x.split]))
  }

  /** A standard prefix is the whole extranonce; its counter is the part after the allocated one. */
  function NextStandard(x: ExtendedExtranonce): (r: Result<(ExtendedExtranonce, seq<byte>), FactoryError>)
    requires WellFormed(x)
    ensures r.Ok? ==> WellFormed(r.value.0)
  {
    match Increment(StandardCounter(x))
    case None => Err(FailedToCreateExtranoncePrefix)
    case Some(c) =>
      var bytes := x.bytes[..x.split] + c;
      Ok((x.(bytes := bytes), bytes))
  }

  function ExtendedCounter(x: ExtendedExtranonce): seq<byte>
    requires WellFormed(x)
  {
    x.bytes[x.staticLen..x.split]
  }

  function StandardCounter(x: ExtendedExtranonce): seq<byte>
    requires WellFormed(x)
  {
    x.bytes[x.split..]
  }

  // ----- the factory objects -----

  class Sv2ExtranoncePrefixFactoryExtended {
    var inner: ExtendedExtranonce

    constructor (inner: ExtendedExtranonce)
      ensures this.inner == inner
    {
      this.inner := inner;
    }

    /** `allocation_size + rollable_size` is 32-bit addition: a sum that does not fit is refused like any other bad range. */
    static method New(allocationSize: u32, rollableSize: u32, staticPrefix: Option<seq<byte>>)
      returns (r: Result<Sv2ExtranoncePrefixFactoryExtended, FactoryError>)
      ensures match NewExtranonce(allocationSize, (allocationSize + rollableSize) % 0x1_0000_0000, staticPrefix)
              case Err(e) => r == Err(e)
              case Ok(x) => r.Ok? && fresh(r.value) && r.value.inner == x
    {
      var x := NewExtranonce(allocationSize, (allocationSize + rollableSize) % 0x1_0000_0000, staticPrefix);
      if x.Err? {
        return Err(x.error);
      }
      var f := new Sv2ExtranoncePrefixFactoryExtended(x.value);
      r := Ok(f);
    }

    method NextExtranoncePrefix(minRequiredLen: u32) returns (r: Result<seq<byte>, FactoryError>)
      requires WellFormed(inner)
      modifies this
      ensures WellFormed(inner)
      ensures match NextExtended(old(inner), minRequiredLen)
              case Err(e) => r == Err(e) && inner == old(inner)
              case Ok(p) => r == Ok(p.1) && inner == p.0
    {
      var next := NextExtended(inner, minRequiredLen);
      if next.Err? {
        return Err(next.error);
      }
      inner := next.value.0;
      r := Ok(next.value.1);
    }
  }

  class Sv2ExtranoncePrefixFactoryStandard {
    var inner: ExtendedExtranonce

    constructor (inner: ExtendedExtranonce)
      ensures this.inner == inner
    {
      this.inner := inner;
    }

    static method New(staticPrefix: Option<seq<byte>>) returns (r: Result<Sv2ExtranoncePrefixFactoryStandard, FactoryError>)
      ensures match NewExtranonce(16, 32, staticPrefix)
              case Err(e) => r == Err(e)
              case Ok(x) => r.Ok? && fresh(r.value) && r.value.inner == x
    {
      var x := NewExtranonce(16, 32, staticPrefix);
      if x.Err? {
        return Err(x.error);
      }
      var f := new Sv2ExtranoncePrefixFactoryStandard(x.value);
      r := Ok(f);
    }

    method NextExtranoncePrefix() returns (r: Result<seq<byte>, FactoryError>)
      requires WellFormed(inner)
      modifies this
      ensures WellFormed(inner)
      ensures match NextStandard(old(inner))
              case Err(e) => r == Err(e) && inner == old(inner)
              case Ok(p) => r == Ok(p.1) && inner == p.0
    {
      var next := NextStandard(inner);
      if next.Err? {
        return Err(next.error);
      }
      inner := next.value.0;
      r := Ok(next.value.1);
    }
  }

  // ----- counting -----

  function Count(counter: seq<byte>): nat {
    Value(256, counter)
  }

  /** Incrementing adds one, and is refused exactly when the counter is at its largest value. */
  lemma {:induction false} IncrementAddsOne(counter: seq<byte>)
    ensures Count(counter) < Pow(256, |counter|)
    ensures Increment(counter).None? <==> Count(counter) + 1 == Pow(256, |counter|)
    ensures Increment(counter).Some? ==> Count(Increment(counter).value) == Count(counter) + 1
  {
    if counter != [] {
      var front, last: int := counter[..|counter| - 1], counter[|counter| - 1];
      IncrementAddsOne(front);
      ValueAppend(256, front, last);
      assert counter == front + [last];
      if last < 255 {
        ValueAppend(256, front, last + 1);
      } else if Increment(front).Some? {
        ValueAppend(256, Increment(front).value, 0);
      }
    }
  }

  lemma {:induction false} ZeroBytesCountZero(n: nat)
    ensures Count(ZeroBytes(n)) == 0
  {
    if n > 0 {
      ZeroBytesCountZero(n - 1);
      ValueAppend(256, ZeroBytes(n - 1), 0);
      assert ZeroBytes(n) == ZeroBytes(n - 1) + [0];
    }
  }

  /** Which factory: both keep their counter in a different place and hand out a different part. */
  datatype Kind = Standard | Extended

  function CounterOf(kind: Kind, x: ExtendedExtranonce): seq<byte>
    requires WellFormed(x)
  {
    if kind.Standard? then StandardCounter(x) else ExtendedCounter(x)
  }

  function Next(kind: Kind, x: ExtendedExtranonce, required: nat): (r: Result<(ExtendedExtranonce, seq<byte>), FactoryError>)
    requires WellFormed(x)
    ensures r.Ok? ==> WellFormed(r.value.0)
  {
    if kind.Standard? then NextStandard(x) else NextExtended(x, required)
  }

  /** The counter value a prefix carries, read back from the prefix alone. */
  function Serial(kind: Kind, staticLen: nat, split: nat, prefix: seq<byte>): nat
    requires staticLen <= |prefix| && split <= |prefix|
  {
    Count(if kind.Standard? then prefix[split..] else prefix[staticLen..])
  }

  /** Where the counter starts: everything before it is the same in every prefix. */
  function FixedLen(kind: Kind, x: ExtendedExtranonce): nat {
    if kind.Standard? then x.split else x.staticLen
  }

  /** A prefix of the factory: the fixed bytes, then a counter that fills the rest. */
  predicate HasShape(kind: Kind, x: ExtendedExtranonce, prefix: seq<byte>)
    requires WellFormed(x)
  {
    |prefix| == (if kind.Standard? then |x.bytes| else x.split)
    && prefix[..FixedLen(kind, x)] == x.bytes[..FixedLen(kind, x)]
  }

  /**
   * A call succeeds exactly when the request is small enough and the counter is not exhausted.
   * The prefix then has the right length, the fixed bytes in front and the next counter value
   * behind them; everything but the counter stays.
   */
  lemma NextPrefix(kind: Kind, x: ExtendedExtranonce, required: nat)
    requires WellFormed(x)
    ensures Next(kind, x, required).Ok? <==>
            (kind.Standard? || required <= |x.bytes| - x.split)
            && Count(CounterOf(kind, x)) + 1 < Pow(256, |CounterOf(kind, x)|)
    ensures Next(kind, x, required).Err? ==> Next(kind, x, required).error == FailedToCreateExtranoncePrefix
    ensures Next(kind, x, required).Ok? ==>
      var (after, prefix) := Next(kind, x, required).value;
      && after.split == x.split && after.staticLen == x.staticLen && |after.bytes| == |x.bytes|
      && HasShape(kind, x, prefix) && after.bytes[..FixedLen(kind, x)] == x.bytes[..FixedLen(kind, x)]
      && prefix == after.bytes[..|prefix|] && after.bytes[|prefix|..] == x.bytes[|prefix|..]
      && |CounterOf(kind, after)| == |CounterOf(kind, x)|
      && Count(CounterOf(kind, after)) == Count(CounterOf(kind, x)) + 1
      && Serial(kind, x.staticLen, x.split, prefix) == Count(CounterOf(kind, x)) + 1
  {
    var counter := CounterOf(kind, x);
    IncrementAddsOne(counter);
    if Next(kind, x, required).Ok? {
      var c := Increment(counter).value;
      var (after, prefix) := Next(kind, x, required).value;
      if kind.Standard? {
        assert after.bytes[x.split..] == c;
      } else {
        assert after.bytes[x.staticLen..x.split] == c == prefix[x.staticLen..];
      }
    }
  }

  // ----- every sequence of calls -----

  /** The prefixes a sequence of calls hands out, with the state it leaves; failed calls hand out nothing. */
  function Issue(kind: Kind, x: ExtendedExtranonce, requests: seq<nat>): (r: (ExtendedExtranonce, seq<seq<byte>>))
    requires WellFormed(x)
    ensures WellFormed(r.0)
    decreases |requests|
  {
    if requests == [] then (x, []) else
    match Next(kind, x, requests[0])
    case Err(_) => Issue(kind, x, requests[1..])
    case Ok((after, prefix)) =>
      var (last, rest) := Issue(kind, after, requests[1..]);
      (last, [prefix] + rest)
  }

  /** The `j`-th prefix of any sequence of calls carries the starting count plus `j + 1`. */
  lemma {:induction false} IssuedInOrder(kind: Kind, x: ExtendedExtranonce, requests: seq<nat>)
    requires WellFormed(x)
    ensures var (last, prefixes) := Issue(kind, x, requests);
            && last.split == x.split && last.staticLen == x.staticLen
            && Count(CounterOf(kind, last)) == Count(CounterOf(kind, x)) + |prefixes|
            && forall j :: 0 <= j < |prefixes| ==>
                 HasShape(kind, x, prefixes[j])
                 && Serial(kind, x.staticLen, x.split, prefixes[j]) == Count(CounterOf(kind, x)) + 1 + j
    decreases |requests|
  {
    hide Next, Serial, CounterOf, Count;
    if requests != [] {
      NextPrefix(kind, x, requests[0]);
      match Next(kind, x, requests[0])
      case Err(_) => IssuedInOrder(kind, x, requests[1..]);
      case Ok((after, prefix)) =>
        IssuedInOrder(kind, after, requests[1..]);
        var (last, rest) := Issue(kind, after, requests[1..]);
        assert ([prefix] + rest)[1..] == rest;
    }
  }

  /** No prefix is ever handed out twice, and each has the factory's length and static start. */
  lemma PrefixesNeverRepeat(kind: Kind, x: ExtendedExtranonce, requests: seq<nat>)
    requires WellFormed(x)
    ensures var prefixes := Issue(kind, x, requests).1;
            && (forall j :: 0 <= j < |prefixes| ==> HasShape(kind, x, prefixes[j]))
            && forall j, k :: 0 <= j < k < |prefixes| ==> prefixes[j] != prefixes[k]
  {
    IssuedInOrder(kind, x, requests);
  }

  predicate FitsRequest(kind: Kind, x: ExtendedExtranonce, required: nat) {
    kind.Standard? || required <= |x.bytes| - x.split
  }

  /** How many of the requests are small enough. */
  function Fitting(kind: Kind, x: ExtendedExtranonce, requests: seq<nat>): nat {
    if requests == [] then 0 else (if FitsRequest(kind, x, requests[0]) then 1 else 0) + Fitting(kind, x, requests[1..])
  }

  lemma {:induction false} SameFitting(kind: Kind, x: ExtendedExtranonce, y: ExtendedExtranonce, requests: seq<nat>)
    requires |x.bytes| == |y.bytes| && x.split == y.split
    ensures Fitting(kind, x, requests) == Fitting(kind, y, requests)
  {
    if requests != [] {
      SameFitting(kind, x, y, requests[1..]);
    }
  }

  /**
   * Of any requests, too large ones among them, those that fit are served until the counter is
   * exhausted: a new factory with `k` counter bytes has exactly 256^k - 1 prefixes.
   */
  lemma {:induction false} Capacity(kind: Kind, x: ExtendedExtranonce, requests: seq<nat>)
    requires WellFormed(x)
    ensures var free, n := Pow(256, |CounterOf(kind, x)|) - 1 - Count(CounterOf(kind, x)), Fitting(kind, x, requests);
            free >= 0 && |Issue(kind, x, requests).1| == if n <= free then n else free
    decreases |requests|
  {
    hide Next, Count, Pow;
    NextPrefix(kind, x, 0);
    IncrementAddsOne(CounterOf(kind, x));
    if requests != [] {
      NextPrefix(kind, x, requests[0]);
      match Next(kind, x, requests[0])
      case Err(_) => Capacity(kind, x, requests[1..]);
      case Ok((after, prefix)) =>
        SameFitting(kind, x, after, requests[1..]);
        Capacity(kind, after, requests[1..]);
    }
  }

  /** Factories whose static prefixes have the same length but differ never hand out the same prefix. */
  lemma ServersNeverCollide(kind: Kind, x: ExtendedExtranonce, y: ExtendedExtranonce, rx: seq<nat>, ry: seq<nat>)
    requires WellFormed(x) && WellFormed(y)
    requires x.staticLen == y.staticLen && x.bytes[..x.staticLen] != y.bytes[..y.staticLen]
    ensures forall p, q :: p in Issue(kind, x, rx).1 && q in Issue(kind, y, ry).1 ==> p != q
  {
    hide Issue, HasShape;
    forall p, q | p in Issue(kind, x, rx).1 && q in Issue(kind, y, ry).1
      ensures p != q
    {
      IssuedStartsWithStatic(kind, x, rx, p);
      IssuedStartsWithStatic(kind, y, ry, q);
    }
  }

  lemma IssuedStartsWithStatic(kind: Kind, x: ExtendedExtranonce, requests: seq<nat>, prefix: seq<byte>)
    requires WellFormed(x) && prefix in Issue(kind, x, requests).1
    ensures |prefix| >= x.staticLen && prefix[..x.staticLen] == x.bytes[..x.staticLen]
  {
    hide Issue;
    PrefixesNeverRepeat(kind, x, requests);
    assert HasShape(kind, x, prefix);
    assert prefix[..x.staticLen] == prefix[..FixedLen(kind, x)][..x.staticLen];
    assert x.bytes[..x.staticLen] == x.bytes[..FixedLen(kind, x)][..x.staticLen];
  }

  /** Equally long counters with equal values are the same bytes. */
  lemma {:induction false} CountInjective(a: seq<byte>, b: seq<byte>)
    requires |a| == |b| && Count(a) == Count(b)
    ensures a == b
  {
    if a != [] {
      var n := |a| - 1;
      var p: int, q: int := a[n], b[n];
      ValueAppend(256, a[..n], p);
      ValueAppend(256, b[..n], q);
      assert a == a[..n] + [p] && b == b[..n] + [q];
      DivModUnique(Count(a[..n]), p, 256);
      DivModUnique(Count(b[..n]), q, 256);
      CountInjective(a[..n], b[..n]);
    }
  }

  /** The `j`-th prefix of a new factory is the static prefix, zeros up to the counter, and the number `j + 1`. */
  lemma NewFactoryPrefixes(kind: Kind, split: nat, end: nat, staticPrefix: Option<seq<byte>>, requests: seq<nat>, j: nat)
    requires NewExtranonce(split, end, staticPrefix).Ok?
    requires j < |Issue(kind, NewExtranonce(split, end, staticPrefix).value, requests).1|
    ensures var x := NewExtranonce(split, end, staticPrefix).value;
            var prefix, fixed := Issue(kind, x, requests).1[j], StaticOf(staticPrefix);
            && |prefix| == (if kind.Standard? then end else split)
            && prefix[..|fixed|] == fixed
            && prefix[|fixed|..FixedLen(kind, x)] == ZeroBytes(FixedLen(kind, x) - |fixed|)
            && Count(prefix[FixedLen(kind, x)..]) == j + 1
  {
    hide Issue, Count;
    var x := NewExtranonce(split, end, staticPrefix).value;
    NewFactory(split, end, staticPrefix);
    IssuedInOrder(kind, x, requests);
    var prefix, fixed := Issue(kind, x, requests).1[j], StaticOf(staticPrefix);
    assert HasShape(kind, x, prefix);
    assert prefix[|fixed|..FixedLen(kind, x)] == prefix[..FixedLen(kind, x)][|fixed|..];
    assert prefix[..|fixed|] == prefix[..FixedLen(kind, x)][..|fixed|];
  }

  /** The first standard prefix documented for the second server: 01, thirty zero bytes, 01. */
  lemma DocumentedPrefix()
    ensures NewExtranonce(16, 32, Some([1])).Ok?
    ensures var x := NewExtranonce(16, 32, Some([1])).value;
            var prefixes := Issue(Standard, x, [0]).1;
            |prefixes| == 1 && prefixes[0] == [1] + ZeroBytes(30) + [1]
  {
    hide Pow, NextStandard;
    var x := NewExtranonce(16, 32, Some([1])).value;
    NewFactory(16, 32, Some([1]));
    PowStrictExponent(256, 0, 16);
    assert Pow(256, 0) == 1 by { PowZero(256); }
    Capacity(Standard, x, [0]);
    OneFits(x);
    NewFactoryPrefixes(Standard, 16, 32, Some([1]), [0], 0);
    var prefix := Issue(Standard, x, [0]).1[0];
    OneIsOne(prefix[16..]);
    assert prefix == prefix[..1] + prefix[1..16] + prefix[16..];
    assert ZeroBytes(15) + ZeroBytes(15) == ZeroBytes(30);
    assert [1] + ZeroBytes(15) + (ZeroBytes(15) + [1]) == [1] + (ZeroBytes(15) + ZeroBytes(15)) + [1];
  }

  lemma OneFits(x: ExtendedExtranonce)
    ensures Fitting(Standard, x, [0]) == 1
  {
    assert [0][1..] == [];
  }

  lemma OneIsOne(c: seq<byte>)
    requires |c| == 16 && Count(c) == 1
    ensures c == ZeroBytes(15) + [1]
  {
    ZeroBytesCountZero(15);
    ValueAppend(256, ZeroBytes(15), 1);
    CountInjective(c, ZeroBytes(15) + [1]);
  }

  /** A new extended factory: counter at zero, static prefix in front, ranges as asked for. */
  lemma NewFactory(split: nat, end: nat, staticPrefix: Option<seq<byte>>)
    ensures NewExtranonce(split, end, staticPrefix).Err? ==>
              NewExtranonce(split, end, staticPrefix).error == FailedToCreateExtendedExtranonce
    ensures NewExtranonce(split, end, staticPrefix).Ok? <==> |StaticOf(staticPrefix)| <= split <= end <= MAX_LEN
    ensures NewExtranonce(split, end, staticPrefix).Ok? ==>
      var x := NewExtranonce(split, end, staticPrefix).value;
      && WellFormed(x) && x.split == split && |x.bytes| == end
      && x.bytes[..x.staticLen] == StaticOf(staticPrefix)
      && Count(StandardCounter(x)) == 0 && Count(ExtendedCounter(x)) == 0
  {
    if NewExtranonce(split, end, staticPrefix).Ok? {
      var x := NewExtranonce(split, end, staticPrefix).value;
      ZeroBytesCountZero(end - split);
      ZeroBytesCountZero(split - x.staticLen);
      assert StandardCounter(x) == ZeroBytes(end - split);
      assert ExtendedCounter(x) == ZeroBytes(split - x.staticLen);
    }
  }
}
