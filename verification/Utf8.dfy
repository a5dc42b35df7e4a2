/**
 * UTF-8 as the message conversions rely on it: which byte strings are text (RFC 3629), and
 * what Rust's `String::from_utf8_lossy` makes of those that are not.
 */
module Utf8 {
  import opened Bytes

  /** A Rust `String`: bytes that are well-formed UTF-8. */
  type Utf8String = s: seq<byte> | Valid(s)

  const REPLACEMENT: seq<byte> := [0xEF, 0xBF, 0xBD]

  predicate Tail(s: seq<byte>, i: nat) {
    i < |s| && 0x80 <= s[i] <= 0xBF
  }

  /** The second byte allowed after each three-byte and four-byte lead (RFC 3629 section 4). */
  predicate SecondOfThree(s: seq<byte>) {
    && |s| >= 2
    && match s[0] {
      case 0xE0 => 0xA0 <= s[1] <= 0xBF
      case 0xED => 0x80 <= s[1] <= 0x9F
      case _ => 0x80 <= s[1] <= 0xBF
    }
  }

  predicate SecondOfFour(s: seq<byte>) {
    && |s| >= 2
    && match s[0] {
      case 0xF0 => 0x90 <= s[1] <= 0xBF
      case 0xF4 => 0x80 <= s[1] <= 0x8F
      case _ => 0x80 <= s[1] <= 0xBF
    }
  }

  /** How many bytes the encoding at the front of `s` should have, judged by its first byte. */
  function Width(b: byte): nat {
    if b < 0x80 then 1
    else if 0xC2 <= b <= 0xDF then 2
    else if 0xE0 <= b <= 0xEF then 3
    else if 0xF0 <= b <= 0xF4 then 4
    else 0
  }

  /** How many bytes at the front of `s` agree with some well-formed encoding: the maximal subpart. */
  function Agreeing(s: seq<byte>): (n: nat)
    requires s != []
    ensures n <= |s| && n <= Width(s[0])
  {
    match Width(s[0]) {
      case 0 => 0
      case 1 => 1
      case 2 => if Tail(s, 1) then 2 else 1
      case 3 => if !SecondOfThree(s) then 1 else if !Tail(s, 2) then 2 else 3
      case _ => if !SecondOfFour(s) then 1 else if !Tail(s, 2) then 2 else if !Tail(s, 3) then 3 else 4
    }
  }

  /** Whether `s` starts with a complete encoding of one character. */
  predicate StartsWithChar(s: seq<byte>)
    requires s != []
  {
    0 < Width(s[0]) == Agreeing(s)
  }

  predicate Valid(s: seq<byte>) {
    s == [] || (StartsWithChar(s) && Valid(s[Agreeing(s)..]))
  }

  /** `String::from_utf8_lossy`: every maximal ill-formed subpart becomes one replacement character. */
  function Lossy(s: seq<byte>): (t: seq<byte>)
    ensures Valid(t)
  {
    if s == [] then []
    else if StartsWithChar(s) then
      var n := Agreeing(s);
      CharThenRest(s, Lossy(s[n..]));
      s[..n] + Lossy(s[n..])
    else
      var n := if Agreeing(s) == 0 then 1 else Agreeing(s);
      ReplacementThenRest(Lossy(s[n..]));
      REPLACEMENT + Lossy(s[n..])
  }

  lemma CharThenRest(s: seq<byte>, rest: seq<byte>)
    requires s != [] && StartsWithChar(s)
    ensures var t := s[..Agreeing(s)] + rest;
            StartsWithChar(t) && Agreeing(t) == Agreeing(s) && t[Agreeing(s)..] == rest
  {
  }

  lemma ReplacementThenRest(rest: seq<byte>)
    ensures var t := REPLACEMENT + rest;
            StartsWithChar(t) && Agreeing(t) == 3 && t[3..] == rest
  {
  }

  // ----- lossy conversion -----

  /** Lossy conversion leaves a byte string alone exactly when it is well formed. */
  lemma {:induction false} LossyFixesExactlyValid(s: seq<byte>)
    ensures Lossy(s) == s <==> Valid(s)
  {
    if Valid(s) && s != [] {
      LossyFixesExactlyValid(s[Agreeing(s)..]);
      assert s == s[..Agreeing(s)] + s[Agreeing(s)..];
    }
  }

  lemma LossyIdempotent(s: seq<byte>)
    ensures Lossy(Lossy(s)) == Lossy(s)
  {
    LossyFixesExactlyValid(Lossy(s));
  }

  /** Lossy conversion expands its input at most threefold. */
  lemma {:induction false} LossyLength(s: seq<byte>)
    ensures |Lossy(s)| <= 3 * |s|
  {
    if s != [] {
      if StartsWithChar(s) {
        LossyLength(s[Agreeing(s)..]);
      } else {
        LossyLength(s[if Agreeing(s) == 0 then 1 else Agreeing(s)..]);
      }
    }
  }

  /** Bytes that start no character expand threefold, so the bound is sharp. */
  lemma {:induction false} NoncharactersTriple(n: nat)
    ensures |Lossy(seq(n, _ => 0xFF))| == 3 * n
  {
    var s: seq<byte> := seq(n, _ => 0xFF);
    if n > 0 {
      NoncharactersTriple(n - 1);
      assert s[1..] == seq(n - 1, _ => 0xFF);
    }
  }

  // ----- the encoding itself, RFC 3629 section 3 -----

  type Scalar = c: int | 0 <= c <= 0x10FFFF && !(0xD800 <= c <= 0xDFFF)

  function EncodeScalar(c: Scalar): (s: seq<byte>)
    ensures 1 <= |s| <= 4
  {
    if c < 0x80 then [c]
    else if c < 0x800 then [0xC0 + c / 64, 0x80 + c % 64]
    else if c < 0x10000 then [0xE0 + c / 4096, 0x80 + c / 64 % 64, 0x80 + c % 64]
    else [0xF0 + c / 262144, 0x80 + c / 4096 % 64, 0x80 + c / 64 % 64, 0x80 + c % 64]
  }

  function DecodeScalar(s: seq<byte>): Scalar
    requires s != [] && StartsWithChar(s)
  {
    var n, a: int := Width(s[0]), s[0];
    if n == 1 then a else
    var b: int := s[1];
    if n == 2 then (a - 0xC0) * 64 + (b - 0x80) else
    var c: int := s[2];
    if n == 3 then (a - 0xE0) * 4096 + (b - 0x80) * 64 + (c - 0x80) else
    var d: int := s[3];
    (a - 0xF0) * 262144 + (b - 0x80) * 4096 + (c - 0x80) * 64 + (d - 0x80)
  }

  function Encode(cs: seq<Scalar>): seq<byte> {
    if cs == [] then [] else EncodeScalar(cs[0]) + Encode(cs[1..])
  }

  function Decode(s: seq<byte>): seq<Scalar>
    requires Valid(s)
  {
    if s == [] then [] else [DecodeScalar(s)] + Decode(s[Agreeing(s)..])
  }

  /** The six-bit groups of a character, as the encoding lays them out. */
  lemma SixBitGroups(c: nat)
    ensures c == c / 64 * 64 + c % 64
    ensures c / 64 == c / 4096 * 64 + c / 64 % 64
    ensures c / 4096 == c / 262144 * 64 + c / 4096 % 64
    ensures c / 64 / 64 == c / 4096 && c / 4096 / 64 == c / 262144
  {
    assert c / 64 / 64 == c / 4096;
    assert c / 4096 / 64 == c / 262144;
  }

  lemma ScalarEncodes(c: Scalar)
    ensures StartsWithChar(EncodeScalar(c)) && Agreeing(EncodeScalar(c)) == |EncodeScalar(c)|
    ensures DecodeScalar(EncodeScalar(c)) == c
  {
    SixBitGroups(c);
  }

  lemma ScalarEncodesThenRest(c: Scalar, rest: seq<byte>)
    ensures var s := EncodeScalar(c) + rest;
            StartsWithChar(s) && Agreeing(s) == |EncodeScalar(c)| && DecodeScalar(s) == c
            && s[Agreeing(s)..] == rest
  {
    ScalarEncodes(c);
    CharThenRest(EncodeScalar(c), rest);
    assert EncodeScalar(c)[..|EncodeScalar(c)|] == EncodeScalar(c);
  }

  lemma ScalarDecodes(s: seq<byte>)
    requires s != [] && StartsWithChar(s)
    ensures EncodeScalar(DecodeScalar(s)) == s[..Agreeing(s)]
  {
    var n, a: int := Width(s[0]), s[0];
    if n == 2 {
      SplitGroup(a - 0xC0, s[1] - 0x80);
    } else if n == 3 {
      SplitThree(a - 0xE0, s[1] - 0x80, s[2] - 0x80);
    } else if n == 4 {
      SplitFour(a - 0xF0, s[1] - 0x80, s[2] - 0x80, s[3] - 0x80);
    }
  }

  lemma SplitGroup(high: nat, low: nat)
    requires low < 64
    ensures (high * 64 + low) / 64 == high && (high * 64 + low) % 64 == low
  {
  }

  lemma SplitThree(x: nat, y: nat, z: nat)
    requires y < 64 && z < 64
    ensures var c := x * 4096 + y * 64 + z; c / 4096 == x && c / 64 % 64 == y && c % 64 == z
  {
    var c := x * 4096 + y * 64 + z;
    SplitGroup(x * 64 + y, z);
    SplitGroup(x, y);
    SixBitGroups(c);
  }

  lemma SplitFour(w: nat, x: nat, y: nat, z: nat)
    requires x < 64 && y < 64 && z < 64
    ensures var c := w * 262144 + x * 4096 + y * 64 + z;
            c / 262144 == w && c / 4096 % 64 == x && c / 64 % 64 == y && c % 64 == z
  {
    var c := w * 262144 + x * 4096 + y * 64 + z;
    SplitThree(w * 64 + x, y, z);
    SplitGroup(w, x);
    SixBitGroups(c);
  }

  /** Encoding always yields well-formed text, and decoding it gives the characters back. */
  lemma {:induction false} EncodeThenDecode(cs: seq<Scalar>)
    ensures Valid(Encode(cs)) && Decode(Encode(cs)) == cs
  {
    if cs != [] {
      EncodeThenDecode(cs[1..]);
      ScalarEncodesThenRest(cs[0], Encode(cs[1..]));
    }
  }

  lemma EncodePrepend(c: Scalar, rest: seq<Scalar>)
    ensures Encode([c] + rest) == EncodeScalar(c) + Encode(rest)
  {
    assert ([c] + rest)[1..] == rest;
  }

  lemma {:induction false} DecodeThenEncode(s: seq<byte>)
    requires Valid(s)
    ensures Encode(Decode(s)) == s
  {
    hide EncodeScalar, DecodeScalar;
    if s != [] {
      var n := Agreeing(s);
      var rest := Decode(s[n..]);
      DecodeThenEncode(s[n..]);
      ScalarDecodes(s);
      EncodePrepend(DecodeScalar(s), rest);
      assert s == s[..n] + s[n..];
    }
  }

  /** The byte grammar describes exactly the encodings of character strings. */
  lemma ValidIsEncoded(s: seq<byte>)
    ensures Valid(s) <==> exists cs :: Encode(cs) == s
  {
    if Valid(s) {
      DecodeThenEncode(s);
    }
    forall cs | Encode(cs) == s
      ensures Valid(s)
    {
      EncodeThenDecode(cs);
    }
  }

  // ----- what lossy conversion replaces -----

  /** A complete character that starts with the `n` bytes of `s` judged to agree. */
  function Completion(s: seq<byte>): (t: seq<byte>)
    requires s != [] && Agreeing(s) > 0
    ensures t != [] && StartsWithChar(t) && Agreeing(t) == |t| && s[..Agreeing(s)] <= t
  {
    var n, w := Agreeing(s), Width(s[0]);
    var second := if s[0] == 0xE0 then 0xA0 else if s[0] == 0xF0 then 0x90 else 0x80;
    if n == w then s[..n]
    else if n == 1 then [s[0], second, 0x80, 0x80][..w]
    else if n == 2 then [s[0], s[1], 0x80, 0x80][..w]
    else [s[0], s[1], s[2], 0x80]
  }

  /**
   * The part replaced is the longest one the Unicode practice calls a maximal subpart: some
   * character's encoding starts with it, and no encoding shares a longer start with `s`.
   */
  lemma AgreeingIsMaximal(s: seq<byte>)
    requires s != []
    ensures Agreeing(s) > 0 ==> exists c :: s[..Agreeing(s)] <= EncodeScalar(c)
    ensures forall c, m: nat :: m <= |s| && s[..m] <= EncodeScalar(c) ==> m <= Agreeing(s)
  {
    if Agreeing(s) > 0 {
      var t := Completion(s);
      ScalarDecodes(t);
      assert t[..|t|] == t;
      assert s[..Agreeing(s)] <= EncodeScalar(DecodeScalar(t));
    }
    forall c, m: nat | m <= |s| && s[..m] <= EncodeScalar(c)
      ensures m <= Agreeing(s)
    {
      SharedStart(s, c, m);
    }
  }

  lemma SharedStart(s: seq<byte>, c: Scalar, m: nat)
    requires s != [] && m <= |s| && s[..m] <= EncodeScalar(c)
    ensures m <= Agreeing(s)
  {
    var e := EncodeScalar(c);
    ScalarEncodes(c);
    assert forall i :: 0 <= i < m ==> s[i] == s[..m][i] == e[i];
  }

  /** `n` bytes at the front of `s` are the start of some character's encoding. */
  ghost predicate SharesStart(s: seq<byte>, n: nat) {
    n <= |s| && exists c :: s[..n] <= EncodeScalar(c)
  }

  ghost predicate StartsWithEncoding(s: seq<byte>) {
    exists c :: EncodeScalar(c) <= s
  }

  lemma CharIsEncoding(s: seq<byte>)
    requires s != []
    ensures StartsWithChar(s) ==> StartsWithEncoding(s)
  {
    if StartsWithChar(s) {
      ScalarDecodes(s);
      assert EncodeScalar(DecodeScalar(s)) <= s;
    }
  }

  /** Lossy conversion keeps a character at the front as it is. */
  lemma LossyKeepsCharacter(c: Scalar, rest: seq<byte>)
    ensures Lossy(EncodeScalar(c) + rest) == EncodeScalar(c) + Lossy(rest)
  {
    ScalarEncodesThenRest(c, rest);
  }

  /**
   * Where no character is at the front, one replacement character stands for the longest start
   * of some character's encoding, or for one byte where there is none.
   */
  lemma LossyReplacesLongestStart(s: seq<byte>, n: nat)
    requires s != [] && !StartsWithEncoding(s)
    requires SharesStart(s, n) && forall m: nat :: SharesStart(s, m) ==> m <= n
    ensures Lossy(s) == EncodeScalar(0xFFFD) + Lossy(s[if n == 0 then 1 else n..])
  {
    hide Agreeing, SharesStart;
    LongestIsAgreeing(s, n);
    CharIsEncoding(s);
    assert EncodeScalar(0xFFFD) == REPLACEMENT;
  }

  lemma LongestIsAgreeing(s: seq<byte>, n: nat)
    requires s != [] && SharesStart(s, n) && forall m: nat :: SharesStart(s, m) ==> m <= n
    ensures n == Agreeing(s)
  {
    hide EncodeScalar, Agreeing;
    AgreeingIsMaximal(s);
    assert s[..0] <= EncodeScalar(0);
    assert SharesStart(s, Agreeing(s));
  }

  /** Characters from the examples of section 7 of RFC 3629, and a truncated character. */
  lemma Rfc3629Examples()
    ensures EncodeScalar(0x41) == [0x41] && EncodeScalar(0x391) == [0xCE, 0x91]
    ensures EncodeScalar(0x2262) == [0xE2, 0x89, 0xA2] && EncodeScalar(0xFEFF) == [0xEF, 0xBB, 0xBF]
    ensures EncodeScalar(0x233B4) == [0xF0, 0xA3, 0x8E, 0xB4]
    ensures Lossy([0xE2, 0x82]) == EncodeScalar(0xFFFD)
  {
    var s: seq<byte> := [0xE2, 0x82];
    assert Agreeing(s) == 2 && !StartsWithChar(s) && s[2..] == [];
    assert Lossy(s[2..]) == [];
  }
}
