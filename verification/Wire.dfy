/** Bytes on the wire: octets, the 4-byte big-endian length prefix of
    `struct.pack('!I', n)`, and the 32-bit immediate of kvcache_proto.h. */
module Wire {
  import opened Arithmetic

  type Byte = b: int | 0 <= b < 256

  /** struct.pack('!I', n); Python raises for n >= 2^32, so callers check that first. */
  function BigEndian32(n: nat): (s: seq<Byte>)
    ensures |s| == 4
  {
    [n / 0x100_0000 % 0x100, n / 0x1_0000 % 0x100, n / 0x100 % 0x100, n % 0x100]
  }

  /** struct.unpack('!I', s)[0]. */
  function FromBigEndian32(s: seq<Byte>): (n: nat)
    requires |s| == 4
  {
    var a: nat, b: nat, c: nat, d: nat := s[0], s[1], s[2], s[3];
    a * 0x100_0000 + b * 0x1_0000 + c * 0x100 + d
  }

  lemma BigEndianRoundTrip(n: nat)
    requires n < U32
    ensures FromBigEndian32(BigEndian32(n)) == n
  {
    assert n / 0x100 / 0x100 == n / 0x1_0000;
    assert n / 0x1_0000 / 0x100 == n / 0x100_0000;
  }

  predicate Before(s: seq<Byte>, t: seq<Byte>)
    requires |s| == |t|
  {
    |s| > 0 && (s[0] < t[0] || (s[0] == t[0] && Before(s[1..], t[1..])))
  }

  /** The most significant byte comes first: bytes compare as the numbers do. */
  lemma {:induction false} BigEndianOrders(a: nat, b: nat)
    requires a < U32 && b < U32
    ensures a < b <==> Before(BigEndian32(a), BigEndian32(b))
  {
    BigEndianRoundTrip(a);
    BigEndianRoundTrip(b);
    BeforeFour(BigEndian32(a), BigEndian32(b));
  }

  lemma {:induction false} BeforeFour(s: seq<Byte>, t: seq<Byte>)
    requires |s| == |t| == 4
    ensures Before(s, t) <==> FromBigEndian32(s) < FromBigEndian32(t)
  {
    var s1, t1 := s[1..], t[1..];
    var s2, t2 := s1[1..], t1[1..];
    var s3, t3 := s2[1..], t2[1..];
    assert !Before(s3[1..], t3[1..]);
    assert Before(s3, t3) <==> s[3] < t[3];
    assert Before(s2, t2) <==> s[2] < t[2] || (s[2] == t[2] && Before(s3, t3));
    assert Before(s1, t1) <==> s[1] < t[1] || (s[1] == t[1] && Before(s2, t2));
  }

  const SENTINEL: nat := 0xFFFF_FFFF

  /** KVCACHE_IMM_ENCODE: the masks and the 16-bit shift, as arithmetic. */
  function ImmEncode(layer: nat, chunk: nat): (imm: nat)
    ensures imm < U32
  {
    layer % 0x1_0000 * 0x1_0000 + chunk % 0x1_0000
  }

  function ImmLayer(imm: nat): nat { imm / 0x1_0000 % 0x1_0000 }

  function ImmChunk(imm: nat): nat { imm % 0x1_0000 }

  /** Decoding recovers the pair exactly when both halves fit in 16 bits, and a
      chunk is mistaken for the sentinel exactly when both halves are all ones. */
  lemma ImmRoundTrip(layer: nat, chunk: nat)
    ensures ImmLayer(ImmEncode(layer, chunk)) == layer <==> layer < 0x1_0000
    ensures ImmChunk(ImmEncode(layer, chunk)) == chunk <==> chunk < 0x1_0000
    ensures ImmEncode(layer, chunk) == SENTINEL
       <==> layer % 0x1_0000 == 0xFFFF && chunk % 0x1_0000 == 0xFFFF
  {
    var l, c := layer % 0x1_0000, chunk % 0x1_0000;
    assert (l * 0x1_0000 + c) / 0x1_0000 == l;
    assert (l * 0x1_0000 + c) % 0x1_0000 == c;
  }

  /** The layer is in the upper half: immediates of pairs in range compare by layer, then chunk. */
  lemma {:induction false} ImmOrders(layer: nat, chunk: nat, layer': nat, chunk': nat)
    requires layer < 0x1_0000 && chunk < 0x1_0000 && layer' < 0x1_0000 && chunk' < 0x1_0000
    ensures ImmEncode(layer, chunk) < ImmEncode(layer', chunk') <==>
      layer < layer' || (layer == layer' && chunk < chunk')
  {
  }
}
