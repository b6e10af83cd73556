/** Octets and the big-endian integers that the wire formats of this project share. */
module Octets {

  type Octet = x: int | 0 <= x <= 0xFF

  type Octets = seq<Octet>

  const TWO_TO_THE_24: nat := 0x100_0000
  const TWO_TO_THE_32: nat := 0x1_0000_0000

  /** struct.pack of an unsigned 32-bit integer in network byte order. */
  function PackUint32(n: nat): (r: Octets)
    requires n < TWO_TO_THE_32
    ensures |r| == 4
  {
    var n2 := n / 0x100;
    var n1 := n2 / 0x100;
    [n1 / 0x100, n1 % 0x100, n2 % 0x100, n % 0x100]
  }

  /** The unsigned integer that octets spell in network byte order. */
  function BigEndian(b: Octets): nat {
    if b == [] then 0 else BigEndian(b[..|b| - 1]) * 0x100 + b[|b| - 1]
  }

  /** struct.unpack of four octets. */
  function UnpackUint32(b: Octets): (n: nat)
    requires |b| == 4
  {
    BigEndian(b)
  }

  lemma BigEndianOfFour(b: Octets)
    requires |b| == 4
    ensures BigEndian(b) == ((b[0] as int * 0x100 + b[1] as int) * 0x100 + b[2] as int) * 0x100 + b[3] as int
    ensures BigEndian(b) < TWO_TO_THE_32
  {
    assert b[..3][..2] == b[..2] && b[..2][..1] == b[..1];
    assert BigEndian(b[..1]) == b[0] as int;
    assert BigEndian(b[..2]) == b[0] as int * 0x100 + b[1] as int;
  }

  lemma UnpackPack(n: nat)
    requires n < TWO_TO_THE_32
    ensures UnpackUint32(PackUint32(n)) == n
  {
    BigEndianOfFour(PackUint32(n));
  }

  lemma PackUnpack(b: Octets)
    requires |b| == 4
    ensures UnpackUint32(b) < TWO_TO_THE_32 && PackUint32(UnpackUint32(b)) == b
  {
    BigEndianOfFour(b);
  }

  function Flatten(chunks: seq<Octets>): Octets {
    if chunks == [] then [] else chunks[0] + Flatten(chunks[1..])
  }

  lemma FlattenSnoc(chunks: seq<Octets>, last: Octets)
    ensures Flatten(chunks + [last]) == Flatten(chunks) + last
  {
    if chunks == [] {
      assert Flatten([last]) == last + Flatten([]);
    } else {
      assert (chunks + [last])[1..] == chunks[1..] + [last];
      FlattenSnoc(chunks[1..], last);
    }
  }

  lemma FlattenConcat(a: seq<Octets>, b: seq<Octets>)
    ensures Flatten(a + b) == Flatten(a) + Flatten(b)
  {
    if a == [] {
      assert a + b == b;
    } else {
      assert (a + b)[1..] == a[1..] + b;
      FlattenConcat(a[1..], b);
    }
  }
}
