/** Bytes and little-endian integers. */
module Bytes {
  type Byte = b: nat | b < 256

  function Pow256(width: nat): (p: nat)
    ensures p > 0
  {
    if width == 0 then 1 else 256 * Pow256(width - 1)
  }

  function LittleEndian(value: nat, width: nat): (bytes: seq<Byte>)
    ensures |bytes| == width
  {
    if width == 0 then [] else [value % 256] + LittleEndian(value / 256, width - 1)
  }

  function FromLittleEndian(bytes: seq<Byte>): nat {
    if bytes == [] then 0 else bytes[0] + 256 * FromLittleEndian(bytes[1..])
  }

  lemma {:induction false} IntegerRoundTrip(value: nat, width: nat)
    requires value < Pow256(width)
    ensures FromLittleEndian(LittleEndian(value, width)) == value
  {
    if width > 0 {
      assert LittleEndian(value, width)[1..] == LittleEndian(value / 256, width - 1);
      IntegerRoundTrip(value / 256, width - 1);
    }
  }

  lemma {:induction false} BytesRoundTrip(bytes: seq<Byte>)
    ensures FromLittleEndian(bytes) < Pow256(|bytes|)
    ensures LittleEndian(FromLittleEndian(bytes), |bytes|) == bytes
  {
    if bytes != [] {
      BytesRoundTrip(bytes[1..]);
    }
  }

  predicate AllZero(bytes: seq<Byte>) {
    forall b | b in bytes :: b == 0
  }

  function Zeros(count: nat): (bytes: seq<Byte>)
    ensures |bytes| == count && AllZero(bytes)
  {
    seq(count, _ => 0)
  }

  lemma AllZeroIsZeros(bytes: seq<Byte>)
    ensures AllZero(bytes) <==> bytes == Zeros(|bytes|)
  {
    if AllZero(bytes) {
      forall i | 0 <= i < |bytes| ensures bytes[i] == 0 {
        assert bytes[i] in bytes;
      }
    }
  }

  lemma Widths()
    ensures Pow256(1) == 0x100 && Pow256(2) == 0x1_0000 && Pow256(4) == 0x1_0000_0000
    ensures Pow256(8) == 0x1_0000_0000_0000_0000
  {
    assert Pow256(3) == 0x100_0000 && Pow256(5) == 0x100_0000_0000;
    assert Pow256(6) == 0x1_0000_0000_0000 && Pow256(7) == 0x100_0000_0000_0000;
  }
}
