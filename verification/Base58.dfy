/**
 * The two Base58 decoders of the Go examples (client and server), proved against one
 * specification, and the theory that makes the specification worth having: with an
 * encoder it is a bijection, and the length of the result is bounded by the length of
 * the text.
 */
module Base58 {
  import opened Bytes
  import opened Radix

  const DIGITS: string := "123456789"

  const UPPER: string := "ABCDEFGHJKLMNPQRSTUVWXYZ"

  const LOWER: string := "abcdefghijkmnopqrstuvwxyz"

  const ALPHABET: string := DIGITS + UPPER + LOWER

  const ONE: byte := 49

  datatype DecodeError = InvalidChar(c: byte)

  // ----- specification -----

  /** The byte of each alphabet position, with the gaps the alphabet leaves. */
  function SymbolOf(v: nat): (c: byte)
    requires v < 58
    ensures c == ALPHABET[v] as int
    ensures c ==
      if v < 9 then 49 + v
      else if v < 17 then 56 + v
      else if v < 22 then 57 + v
      else if v < 33 then 58 + v
      else if v < 44 then 64 + v
      else 65 + v
  {
    AlphabetSymbols(v);
    ALPHABET[v] as int
  }

  lemma AlphabetSymbols(v: nat)
    requires v < 58
    ensures |ALPHABET| == 58
    ensures ALPHABET[v] as int ==
      if v < 9 then 49 + v
      else if v < 17 then 56 + v
      else if v < 22 then 57 + v
      else if v < 33 then 58 + v
      else if v < 44 then 64 + v
      else 65 + v
  {
    DigitSymbols(v);
    UpperSymbols(v);
    LowerSymbols(v);
  }

  lemma DigitSymbols(v: nat)
    ensures |DIGITS| == 9 && (v < 9 ==> DIGITS[v] as int == 49 + v)
  {
  }

  lemma UpperSymbols(v: nat)
    ensures |UPPER| == 24
    ensures 9 <= v < 33 ==> UPPER[v - 9] as int == if v < 17 then 56 + v else if v < 22 then 57 + v else 58 + v
  {
  }

  lemma LowerSymbols(v: nat)
    ensures |LOWER| == 25
    ensures 33 <= v < 58 ==> LOWER[v - 33] as int == if v < 44 then 64 + v else 65 + v
  {
  }

  /** The alphabet position of `c` among the first `n` symbols, or -1. */
  function IndexAmong(c: byte, n: nat): (v: int)
    requires n <= 58
    ensures -1 <= v < n
    ensures 0 <= v ==> SymbolOf(v) == c
    ensures v == -1 ==> forall i :: 0 <= i < n ==> SymbolOf(i) != c
  {
    if n == 0 then -1
    else if SymbolOf(n - 1) == c then n - 1
    else IndexAmong(c, n - 1)
  }

  function DigitOf(c: byte): int {
    IndexAmong(c, 58)
  }

  predicate InAlphabet(s: seq<byte>) {
    forall i :: 0 <= i < |s| ==> 0 <= DigitOf(s[i])
  }

  function DigitsOfText(s: seq<byte>): (ds: seq<nat>)
    requires InAlphabet(s)
    ensures |ds| == |s|
  {
    seq(|s|, i requires 0 <= i < |s| => DigitOf(s[i]))
  }

  function TextOfDigits(ds: seq<nat>): (s: seq<byte>)
    requires AreDigits(58, ds)
    ensures |s| == |ds|
  {
    seq(|ds|, i requires 0 <= i < |ds| => SymbolOf(ds[i]))
  }

  /** What decoding means: the same number in base 256, leading ones becoming leading zero bytes. */
  ghost function Decoded(s: seq<byte>): Result<seq<byte>, DecodeError> {
    if InAlphabet(s) then
      RebasedToBytes(DigitsOfText(s));
      var b: seq<byte> := Rebase(58, 256, DigitsOfText(s));
      Ok(b)
    else
      Err(InvalidChar(s[FirstOutside(s)]))
  }

  ghost function Encoded(b: seq<byte>): seq<byte> {
    RebaseInverse(256, 58, b);
    TextOfDigits(Rebase(256, 58, b))
  }

  function FirstOutside(s: seq<byte>): (k: nat)
    requires !InAlphabet(s)
    ensures k < |s| && DigitOf(s[k]) < 0
    ensures forall i :: 0 <= i < k ==> 0 <= DigitOf(s[i])
  {
    if DigitOf(s[0]) < 0 then 0 else
    assert exists i :: 0 < i < |s| && s[1..][i - 1] == s[i] && DigitOf(s[i]) < 0;
    1 + FirstOutside(s[1..])
  }

  // ----- facts about the alphabet -----

  lemma {:induction false} SymbolsAreDistinct(v: nat, n: nat)
    requires v < n <= 58
    ensures IndexAmong(SymbolOf(v), n) == v
  {
    hide SymbolOf;
    if v < n - 1 {
      SymbolsAreDistinct(v, n - 1);
    }
  }

  lemma RebasedToBytes(ds: seq<nat>)
    ensures forall i :: 0 <= i < |Rebase(58, 256, ds)| ==> Rebase(58, 256, ds)[i] < 256
  {
    DigitsOfNumber(256, Value(58, ds));
  }

  lemma SymbolDigits(ds: seq<nat>)
    requires AreDigits(58, ds)
    ensures InAlphabet(TextOfDigits(ds)) && DigitsOfText(TextOfDigits(ds)) == ds
  {
    forall i | 0 <= i < |ds|
      ensures DigitOf(TextOfDigits(ds)[i]) == ds[i]
    {
      SymbolsAreDistinct(ds[i], 58);
    }
  }

  lemma TextOfItsDigits(s: seq<byte>)
    requires InAlphabet(s)
    ensures AreDigits(58, DigitsOfText(s)) && TextOfDigits(DigitsOfText(s)) == s
  {
  }

  // ----- the bijection -----

  /** Decoding and encoding are mutually inverse: `s` decodes to `b` exactly when it is the text of `b`. */
  lemma Bijection(s: seq<byte>, b: seq<byte>)
    ensures Decoded(s) == Ok(b) <==> s == Encoded(b)
  {
    RebaseInverse(256, 58, b);
    SymbolDigits(Rebase(256, 58, b));
    if InAlphabet(s) {
      TextOfItsDigits(s);
      RebaseInverse(58, 256, DigitsOfText(s));
    }
  }

  /** Decoding fails exactly on texts with a byte outside the alphabet, and names the first one. */
  lemma FailsOutsideAlphabet(s: seq<byte>)
    ensures Decoded(s).Err? <==> exists i :: 0 <= i < |s| && Outside(s[i])
    ensures Decoded(s).Err? ==>
      exists i :: 0 <= i < |s| && Outside(s[i]) && Decoded(s).error.c == s[i] && forall j :: 0 <= j < i ==> !Outside(s[j])
  {
    forall c: byte
      ensures Outside(c) <==> DigitOf(c) < 0
    {
    }
    if !InAlphabet(s) {
      var k := FirstOutside(s);
      assert Outside(s[k]);
    }
  }

  ghost predicate Outside(c: byte) {
    forall v :: 0 <= v < 58 ==> SymbolOf(v) != c
  }

  /** The bytes decoded are the same number in base 256 as the alphabet positions of the characters are in base 58. */
  lemma DecodedIsNumber(s: seq<byte>, positions: seq<nat>)
    requires |positions| == |s|
    requires forall i :: 0 <= i < |s| ==> positions[i] < 58 && |ALPHABET| == 58 && s[i] == ALPHABET[positions[i]] as int
    ensures Decoded(s).Ok? && Positional(256, Decoded(s).value) == Positional(58, positions)
  {
    hide Value, Positional, Digits;
    forall i | 0 <= i < |s|
      ensures DigitOf(s[i]) == positions[i]
    {
      SymbolsAreDistinct(positions[i], 58);
      assert s[i] == SymbolOf(positions[i]);
    }
    assert DigitsOfText(s) == positions;
    var n := Value(58, positions);
    DigitsOfNumber(256, n);
    LeadingZerosAddNothing(256, LeadingZeros(positions), Digits(256, n));
    PositionalIsValue(58, positions);
    PositionalIsValue(256, Decoded(s).value);
  }

  function LeadingOnes(s: seq<byte>): (k: nat)
    ensures k <= |s|
  {
    if s == [] || s[0] != ONE then 0 else 1 + LeadingOnes(s[1..])
  }

  /** Leading ones of the text match leading zero bytes of the result, one for one. */
  lemma LeadingOnesAreLeadingZeros(s: seq<byte>)
    requires Decoded(s).Ok?
    ensures LeadingZeros(Decoded(s).value) == LeadingOnes(s)
  {
    TextOfItsDigits(s);
    RebaseInverse(58, 256, DigitsOfText(s));
    OnesAreZeroDigits(s);
  }

  lemma {:induction false} OnesAreZeroDigits(s: seq<byte>)
    requires InAlphabet(s)
    ensures LeadingZeros(DigitsOfText(s)) == LeadingOnes(s)
  {
    if s != [] {
      SymbolsAreDistinct(0, 58);
      assert DigitOf(s[0]) == 0 <==> s[0] == ONE;
      if s[0] == ONE {
        assert DigitsOfText(s)[1..] == DigitsOfText(s[1..]);
        OnesAreZeroDigits(s[1..]);
      }
    }
  }

  // ----- length bounds -----

  /** Eleven base-58 digits outweigh eight bytes, and fifteen of them fit in eleven bytes. */
  lemma PowerGap()
    ensures Pow(256, 8) < Pow(58, 11)
    ensures Pow(58, 15) < Pow(256, 11)
  {
    assert Pow(256, 4) == 0x1_0000_0000;
    PowSum(256, 4, 4);
    PowSum(256, 8, 3);
    assert Pow(58, 4) == 11316496;
    PowSum(58, 4, 4);
    assert Pow(58, 3) == 195112;
    PowSum(58, 8, 3);
    PowSum(58, 11, 4);
  }

  /** `k` bytes hold at most `n` base-58 digits worth of values when `11 k <= 8 n`. */
  lemma BytesBelowText(k: nat, n: nat)
    requires 11 * k <= 8 * n
    ensures Pow(256, k) <= Pow(58, n)
  {
    hide Pow;
    PowerGap();
    PowOfPow(256, k, 11);
    PowMonotoneExponent(256, k * 11, 8 * n);
    PowOfPow(256, 8, n);
    PowMonotoneBase(Pow(256, 8), Pow(58, 11), n);
    PowOfPow(58, 11, n);
    PowOfPow(58, n, 11);
    assert 11 * n == n * 11;
    RootMonotone(Pow(256, k), Pow(58, n), 11);
  }

  /** `n` base-58 digits fit in `k` bytes when `11 n <= 15 k`. */
  lemma TextBelowBytes(n: nat, k: nat)
    requires 11 * n <= 15 * k
    ensures Pow(58, n) <= Pow(256, k)
  {
    hide Pow;
    PowerGap();
    PowOfPow(58, n, 15);
    PowOfPow(58, 15, n);
    assert n * 15 == 15 * n;
    PowMonotoneBase(Pow(58, 15), Pow(256, 11), n);
    PowOfPow(256, 11, n);
    PowMonotoneExponent(256, 11 * n, k * 15);
    PowOfPow(256, k, 15);
    RootMonotone(Pow(58, n), Pow(256, k), 15);
  }

  /**
   * Without a leading one, `n` characters decode to at least floor(8(n-1)/11)+1 and at most
   * ceil(11n/15) bytes.
   */
  lemma LengthBounds(s: seq<byte>)
    requires Decoded(s).Ok? && s != [] && s[0] != ONE
    ensures 8 * (|s| - 1) / 11 + 1 <= |Decoded(s).value| <= (11 * |s| + 14) / 15
  {
    hide Pow, Digits, Value;
    var ds := DigitsOfText(s);
    TextOfItsDigits(s);
    OnesAreZeroDigits(s);
    var n := Value(58, ds);
    ValueBelow(58, ds);
    ValueAbove(58, ds);
    DigitsOfNumber(256, n);
    PowPositive(58, |s| - 1);
    var b := Digits(256, n);
    assert Decoded(s).value == b;
    ValueBelow(256, b);
    ValueAbove(256, b);
    var low := 8 * (|s| - 1) / 11;
    BytesBelowText(low, |s| - 1);
    PowStrictExponent(256, low, |b|);
    var high := (11 * |s| + 14) / 15;
    TextBelowBytes(|s|, high);
    PowStrictExponent(256, |b| - 1, high);
  }

  /** A 51-character key without a leading one decodes to 37 or 38 bytes, so bytes 2 to 34 exist. */
  lemma KeyTextLength(s: seq<byte>)
    requires InAlphabet(s) && |s| == 51 && s[0] != ONE
    ensures Decoded(s).Ok? && 37 <= |Decoded(s).value| <= 38
  {
    LengthBounds(s);
  }

  // ----- the two decoders -----

  datatype KeyError = BadText(error: DecodeError) | TooShort

  predicate IsAscii(b: seq<byte>, s: string) {
    |b| == |s| && forall i :: 0 <= i < |s| ==> b[i] == s[i] as int
  }

  const AUTHORITY_PUB_KEY: string := "9auqWEzQDVyd2oe1J" + "VGFLMLHZtCo2FFqZw" + "tKA5gd9xbuEu7PH72"

  const AUTHORITY_PRIV_KEY: string := "mkDLTBBRxdBv99861" + "2qipDYoTK3YUrqLe8" + "uWw7gu3iXbSrn2n"

  predicate IsKeyText(s: string) {
    forall i :: 0 <= i < |s| ==> '1' <= s[i] <= '9' || ('A' <= s[i] <= 'Z' && s[i] != 'I' && s[i] != 'O') || ('a' <= s[i] <= 'z' && s[i] != 'l')
  }

  lemma KeyTextInAlphabet(b: seq<byte>, s: string)
    requires IsAscii(b, s) && IsKeyText(s)
    ensures InAlphabet(b)
  {
    forall i | 0 <= i < |s|
      ensures 0 <= DigitOf(b[i])
    {
      var c: int := b[i];
      var v := if c < 58 then c - 49 else if c < 73 then c - 56 else if c < 79 then c - 57 else if c < 91 then c - 58 else if c < 108 then c - 64 else c - 65;
      assert SymbolOf(v) == c;
    }
  }

  /** The package-level lookup table `b58Index` that both Go programs fill in `init`. */
  class Base58 {
    const index: array<int>

    ghost predicate Valid()
      reads this, index
    {
      index.Length == 256 && forall c: byte :: index[c] == DigitOf(c)
    }

    constructor ()
      ensures Valid() && fresh(index)
    {
      index := new int[256];
      new;
      for i := 0 to 256
        invariant forall j :: 0 <= j < i ==> index[j] == -1
      {
        index[i] := -1;
      }
      for i := 0 to 58
        invariant forall c: byte :: index[c] == IndexAmong(c, i)
      {
        index[SymbolOf(i)] := i;
      }
    }

    method DecodeClient(s: seq<byte>) returns (r: Result<seq<byte>, DecodeError>)
      requires Valid()
      ensures r == Decoded(s)
    {
      if s == [] {
        DecodedParts(s);
        return Ok([]);
      }
      var res := 0;
      for i := 0 to |s|
        invariant InAlphabet(s[..i])
        invariant res == Value(58, DigitsOfText(s[..i]))
      {
        var c := s[i];
        var v := index[c];
        if v < 0 {
          FirstOutsideAt(s, i);
          return Err(InvalidChar(c));
        }
        AppendDigit(s, i);
        res := res * 58;
        res := res + v;
      }
      assert s[..|s|] == s;
      DecodedParts(s);
      var decoded := Digits(256, res);
      var leadingZeros := 0;
      while leadingZeros < |s| && s[leadingZeros] == ONE
        invariant leadingZeros <= |s|
        invariant LeadingOnes(s) == leadingZeros + LeadingOnes(s[leadingZeros..])
      {
        leadingZeros := leadingZeros + 1;
      }
      if leadingZeros > 0 {
        decoded := Zeros(leadingZeros) + decoded;
      }
      r := Ok(decoded);
    }

    method DecodeServer(s: seq<byte>) returns (r: Result<seq<byte>, DecodeError>)
      requires Valid()
      ensures r == Decoded(s)
    {
      if s == [] {
        DecodedParts(s);
        return Ok([]);
      }
      var n := 0;
      var i := 0;
      while i < |s|
        invariant i <= |s| && InAlphabet(s[..i])
        invariant n == Value(58, DigitsOfText(s[..i]))
      {
        var v := index[s[i]];
        if v < 0 {
          FirstOutsideAt(s, i);
          return Err(InvalidChar(s[i]));
        }
        AppendDigit(s, i);
        n := n * 58;
        n := n + v;
        i := i + 1;
      }
      assert s[..|s|] == s;
      DecodedParts(s);
      var out := Digits(256, n);
      var lead := 0;
      while lead < |s| && s[lead] == ONE
        invariant lead <= |s|
        invariant LeadingOnes(s) == lead + LeadingOnes(s[lead..])
      {
        lead := lead + 1;
      }
      if lead > 0 {
        out := Zeros(lead) + out;
      }
      r := Ok(out);
    }
  }

  /** The client's key extraction; the source applies it to `AUTHORITY_PUB_KEY`. */
  method AuthorityPublicKey(table: Base58, text: seq<byte>) returns (r: Result<seq<byte>, KeyError>)
    requires table.Valid()
    ensures r == match Decoded(text)
                 case Err(e) => Err(BadText(e))
                 case Ok(full) => if |full| < 34 then Err(TooShort) else Ok(full[2..34])
  {
    var full :- WrapError(table, text, false);
    if |full| < 34 {
      return Err(TooShort);
    }
    r := Ok(full[2..34]);
  }

  /** The server's key extraction; the source applies it to both authority keys. */
  method AuthorityKeypair(table: Base58, pubText: seq<byte>, privText: seq<byte>)
    returns (r: Result<(seq<byte>, seq<byte>), KeyError>)
    requires table.Valid()
    ensures r.Ok? <==> Decoded(pubText).Ok? && Decoded(privText).Ok?
                       && |Decoded(pubText).value| >= 34 && |Decoded(privText).value| >= 32
    ensures r.Ok? ==> r.value == (Decoded(pubText).value[2..34], Decoded(privText).value[..32])
    ensures Decoded(pubText).Err? ==> r == Err(BadText(Decoded(pubText).error))
    ensures Decoded(pubText).Ok? && Decoded(privText).Err? ==> r == Err(BadText(Decoded(privText).error))
    ensures r == Err(TooShort) <==> Decoded(pubText).Ok? && Decoded(privText).Ok?
                                    && (|Decoded(pubText).value| < 34 || |Decoded(privText).value| < 32)
  {
    var pubFull :- WrapError(table, pubText, true);
    var privFull :- WrapError(table, privText, true);
    if |pubFull| < 34 || |privFull| < 32 {
      return Err(TooShort);
    }
    r := Ok((pubFull[2..34], privFull[..32]));
  }

  method WrapError(table: Base58, text: seq<byte>, server: bool) returns (r: Result<seq<byte>, KeyError>)
    requires table.Valid()
    ensures r == match Decoded(text) case Ok(b) => Ok(b) case Err(e) => Err(BadText(e))
  {
    var decoded;
    if server {
      decoded := table.DecodeServer(text);
    } else {
      decoded := table.DecodeClient(text);
    }
    match decoded
    case Ok(b) => r := Ok(b);
    case Err(e) => r := Err(BadText(e));
  }

  /** The keys both Go programs ship decode to enough bytes, so neither slice is ever out of range. */
  lemma ShippedKeysDecode(pubText: seq<byte>, privText: seq<byte>)
    requires IsAscii(pubText, AUTHORITY_PUB_KEY) && IsAscii(privText, AUTHORITY_PRIV_KEY)
    ensures Decoded(pubText).Ok? && 37 <= |Decoded(pubText).value| <= 38
    ensures Decoded(privText).Ok? && 35 <= |Decoded(privText).value| <= 36
  {
    hide IsKeyText, IsAscii;
    PubKeyText();
    KeyTextDecodes(pubText, AUTHORITY_PUB_KEY);
    PrivKeyText();
    KeyTextDecodes(privText, AUTHORITY_PRIV_KEY);
  }

  lemma PubKeyText()
    ensures IsKeyText(AUTHORITY_PUB_KEY) && |AUTHORITY_PUB_KEY| == 51 && AUTHORITY_PUB_KEY[0] == '9'
  {
  }

  lemma PrivKeyText()
    ensures IsKeyText(AUTHORITY_PRIV_KEY) && |AUTHORITY_PRIV_KEY| == 49 && AUTHORITY_PRIV_KEY[0] == 'm'
  {
  }

  lemma KeyTextDecodes(b: seq<byte>, s: string)
    requires IsAscii(b, s) && IsKeyText(s) && s != "" && s[0] != '1'
    ensures Decoded(b).Ok?
    ensures 8 * (|s| - 1) / 11 + 1 <= |Decoded(b).value| <= (11 * |s| + 14) / 15
  {
    hide Decoded;
    KeyTextInAlphabet(b, s);
    DecodedParts(b);
    LengthBounds(b);
  }

  lemma FirstOutsideAt(s: seq<byte>, i: nat)
    requires i < |s| && InAlphabet(s[..i]) && DigitOf(s[i]) < 0
    ensures Decoded(s) == Err(InvalidChar(s[i]))
  {
    forall j | 0 <= j < i
      ensures 0 <= DigitOf(s[j])
    {
      assert s[..i][j] == s[j];
    }
  }

  lemma DecodedParts(s: seq<byte>)
    requires InAlphabet(s)
    ensures AreDigits(256, Digits(256, Value(58, DigitsOfText(s))))
    ensures Decoded(s) == Ok(Zeros(LeadingOnes(s)) + Digits(256, Value(58, DigitsOfText(s))))
    ensures LeadingOnes(s) == 0 ==> Decoded(s) == Ok(Digits(256, Value(58, DigitsOfText(s))))
    ensures s == [] ==> Decoded(s) == Ok([])
  {
    OnesAreZeroDigits(s);
    var digits := Digits(256, Value(58, DigitsOfText(s)));
    DigitsOfNumber(256, Value(58, DigitsOfText(s)));
    assert Zeros(0) + digits == digits;
  }

  lemma AppendDigit(s: seq<byte>, i: nat)
    requires i < |s| && InAlphabet(s[..i]) && 0 <= DigitOf(s[i])
    ensures InAlphabet(s[..i + 1])
    ensures Value(58, DigitsOfText(s[..i + 1])) == Value(58, DigitsOfText(s[..i])) * 58 + DigitOf(s[i])
  {
    var ds := DigitsOfText(s[..i + 1]);
    assert ds[..i] == DigitsOfText(s[..i]);
  }
}
