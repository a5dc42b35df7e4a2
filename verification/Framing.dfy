/**
 * Encrypted frames: section 3.2 (framing) and section 4.6 (encrypted message framing) of the
 * Stratum V2 specification. A frame is a sealed six-byte header followed by the payload,
 * sealed in chunks, each piece under the next value of the sender's counter.
 */
module Framing {
  import opened Bytes
  import opened InnerMessages
  import opened Noise

  const HEADER_LEN := 6
  const SEALED_HEADER_LEN := HEADER_LEN + MAC_LEN
  const NOISE_FRAME_MAX := 65535
  const CHUNK_LEN := NOISE_FRAME_MAX - MAC_LEN
  const MAX_PAYLOAD := 0xFF_FFFF

  type u24 = n: int | 0 <= n <= MAX_PAYLOAD

  datatype Header = Header(extension: u16, msgType: byte, length: u24)

  /** Serialization of messages, which belongs to the wire-format library. */
  datatype Wire = Wire(
    extension: InnerMessage -> u16,
    msgType: InnerMessage -> byte,
    serialize: InnerMessage -> seq<byte>,
    parse: (byte, seq<byte>) -> Option<InnerMessage>)
  {
    /**
     * A message within the specified element counts has a non-empty payload that parses back.
     * Common messages have no field longer than 256 bytes, so they always fit a frame.
     */
    ghost predicate Sound() {
      && (forall m :: WithinCounts(m) ==> serialize(m) != [] && parse(msgType(m), serialize(m)) == Some(m))
      && forall m: InnerMessage :: m.Common? ==> |serialize(m)| <= MAX_PAYLOAD
    }
  }

  datatype Env = Env(aead: Aead, wire: Wire) {
    ghost predicate Sound() {
      aead.Sound() && wire.Sound()
    }
  }

  function HeaderBytes(h: Header): (b: seq<byte>)
    ensures |b| == HEADER_LEN
  {
    [h.extension % 256, h.extension / 256, h.msgType, h.length % 256, h.length / 256 % 256, h.length / 65536]
  }

  function ParseHeader(b: seq<byte>): (h: Header)
    requires |b| == HEADER_LEN
  {
    var e0: int, e1: int, l0: int, l1: int, l2: int := b[0], b[1], b[3], b[4], b[5];
    Header(e0 + e1 * 256, b[2], l0 + l1 * 256 + l2 * 65536)
  }

  lemma HeaderRoundTrip(h: Header)
    ensures ParseHeader(HeaderBytes(h)) == h
  {
  }

  /** The layout of section 3.2: extension type, message type, length; numbers have their low byte first. */
  lemma HeaderLayout(h: Header)
    ensures var b := HeaderBytes(h);
            var e0: int, e1: int, l0: int, l1: int, l2: int := b[0], b[1], b[3], b[4], b[5];
            e0 + 256 * e1 == h.extension && b[2] == h.msgType && l0 + 256 * l1 + 65536 * l2 == h.length
  {
  }

  /** How many pieces a payload of `len` bytes is sealed in. */
  function ChunkCount(len: nat): nat {
    (len + CHUNK_LEN - 1) / CHUNK_LEN
  }

  /** The sealed size of a payload of `len` bytes. */
  function SealedLen(len: nat): nat {
    len + MAC_LEN * ChunkCount(len)
  }

  function SealChunks(a: Aead, k: Key, n: nat, payload: seq<byte>): seq<byte>
    decreases |payload|
  {
    if payload == [] then [] else
    var c := if |payload| < CHUNK_LEN then |payload| else CHUNK_LEN;
    a.seal(k, n, payload[..c]) + SealChunks(a, k, n + 1, payload[c..])
  }

  function OpenChunks(a: Aead, k: Key, n: nat, sealed: seq<byte>): Option<seq<byte>>
    decreases |sealed|
  {
    if sealed == [] then Some([]) else
    var c := if |sealed| < NOISE_FRAME_MAX then |sealed| else NOISE_FRAME_MAX;
    match a.open(k, n, sealed[..c])
    case None => None
    case Some(first) =>
      match OpenChunks(a, k, n + 1, sealed[c..])
      case None => None
      case Some(rest) => Some(first + rest)
  }

  /** The sealed frame of a message, and how far it moves the sender's counter. */
  function SealFrame(env: Env, k: Key, n: nat, m: InnerMessage): seq<byte>
    requires |env.wire.serialize(m)| <= MAX_PAYLOAD
  {
    var payload := env.wire.serialize(m);
    var h := Header(env.wire.extension(m), env.wire.msgType(m), |payload|);
    env.aead.seal(k, n, HeaderBytes(h)) + SealChunks(env.aead, k, n + 1, payload)
  }

  function FrameNonces(env: Env, m: InnerMessage): nat {
    1 + ChunkCount(|env.wire.serialize(m)|)
  }

  // ----- chunk arithmetic -----

  lemma ChunkCountStep(len: nat)
    ensures len == 0 ==> ChunkCount(len) == 0
    ensures 0 < len <= CHUNK_LEN ==> ChunkCount(len) == 1
    ensures len > CHUNK_LEN ==> ChunkCount(len) == 1 + ChunkCount(len - CHUNK_LEN)
  {
  }

  /** The pieces a payload is cut into. */
  function Pieces(payload: seq<byte>): seq<seq<byte>> {
    if |payload| == 0 then []
    else if |payload| <= CHUNK_LEN then [payload]
    else [payload[..CHUNK_LEN]] + Pieces(payload[CHUNK_LEN..])
  }

  function Joined(pieces: seq<seq<byte>>): seq<byte> {
    if pieces == [] then [] else pieces[0] + Joined(pieces[1..])
  }

  function SealEach(a: Aead, k: Key, n: nat, pieces: seq<seq<byte>>): seq<byte>
    decreases |pieces|
  {
    if pieces == [] then [] else a.seal(k, n, pieces[0]) + SealEach(a, k, n + 1, pieces[1..])
  }

  /** The pieces make up the payload; each but the last fills a Noise message, and the last is not empty. */
  lemma {:induction false} PiecesAreMaximal(payload: seq<byte>)
    ensures var ps := Pieces(payload);
            && Joined(ps) == payload && |ps| == ChunkCount(|payload|)
            && forall i :: 0 <= i < |ps| ==>
                 0 < |ps[i]| <= NOISE_FRAME_MAX - MAC_LEN && (i < |ps| - 1 ==> |ps[i]| + MAC_LEN == NOISE_FRAME_MAX)
    decreases |payload|
  {
    ChunkCountStep(|payload|);
    hide ChunkCount;
    if |payload| > CHUNK_LEN {
      PiecesAreMaximal(payload[CHUNK_LEN..]);
      assert Pieces(payload)[1..] == Pieces(payload[CHUNK_LEN..]);
      assert payload[..CHUNK_LEN] + payload[CHUNK_LEN..] == payload;
    } else if payload != [] {
      assert Pieces(payload)[1..] == [];
      assert Joined(Pieces(payload)) == payload + [];
    }
  }

  /** Sealing seals those pieces, in order, each under the next counter value. */
  lemma {:induction false} SealsPieces(a: Aead, k: Key, n: nat, payload: seq<byte>)
    ensures SealChunks(a, k, n, payload) == SealEach(a, k, n, Pieces(payload))
    decreases |payload|
  {
    if |payload| > CHUNK_LEN {
      SealsPieces(a, k, n + 1, payload[CHUNK_LEN..]);
      assert Pieces(payload)[1..] == Pieces(payload[CHUNK_LEN..]);
    } else if payload != [] {
      assert payload[..|payload|] == payload && payload[|payload|..] == [];
      assert Pieces(payload)[1..] == [];
    }
  }

  /** Sealed sizes fit the 32-bit size the decoder reports. */
  lemma SealedLenFits(len: nat)
    requires len <= MAX_PAYLOAD
    ensures SealedLen(len) < 0x1_0000_0000
    ensures SealedLen(len) == 0 <==> len == 0
  {
  }

  /** Sealing in chunks and opening in chunks are inverse, and the sealed size is as announced. */
  lemma {:induction false} ChunksRoundTrip(a: Aead, k: Key, n: nat, payload: seq<byte>)
    requires a.Sound()
    ensures |SealChunks(a, k, n, payload)| == SealedLen(|payload|)
    ensures OpenChunks(a, k, n, SealChunks(a, k, n, payload)) == Some(payload)
    decreases |payload|
  {
    ChunkCountStep(|payload|);
    if payload != [] {
      var c := if |payload| < CHUNK_LEN then |payload| else CHUNK_LEN;
      var first := a.seal(k, n, payload[..c]);
      var rest := SealChunks(a, k, n + 1, payload[c..]);
      ChunksRoundTrip(a, k, n + 1, payload[c..]);
      var sealed := first + rest;
      assert sealed[..|first|] == first && sealed[|first|..] == rest;
      assert payload[..c] + payload[c..] == payload;
      if |payload| < CHUNK_LEN {
        assert payload[c..] == [];
      }
    }
  }
}
