/** The checksum routine that every CAPL node of the bus simulation carries. */
module Capl {
  import opened Bytes
  import opened Frames

  method CalcChecksum(canId: nat, d0: byte, d1: byte, d2: byte, d3: byte, d4: byte, d5: byte, d6: byte)
    returns (checksum: byte)
    ensures checksum == Xor(LowByte(canId), XorAll([d0, d1, d2, d3, d4, d5, d6]))
  {
    var d := [d0, d1, d2, d3, d4, d5, d6];
    checksum := LowByte(canId);
    XorUnit(checksum);
    checksum := Xor(checksum, d0);
    XorChain(LowByte(canId), d, 0);
    checksum := Xor(checksum, d1);
    XorChain(LowByte(canId), d, 1);
    checksum := Xor(checksum, d2);
    XorChain(LowByte(canId), d, 2);
    checksum := Xor(checksum, d3);
    XorChain(LowByte(canId), d, 3);
    checksum := Xor(checksum, d4);
    XorChain(LowByte(canId), d, 4);
    checksum := Xor(checksum, d5);
    XorChain(LowByte(canId), d, 5);
    checksum := Xor(checksum, d6);
    XorChain(LowByte(canId), d, 6);
    assert d[..7] == d;
  }

  lemma XorChain(c: byte, d: seq<byte>, k: nat)
    requires k < |d|
    ensures Xor(c, XorAll(d[..k + 1])) == Xor(Xor(c, XorAll(d[..k])), d[k])
  {
    assert d[..k + 1][..k] == d[..k];
    XorAssoc(c, XorAll(d[..k]), d[k]);
  }

  /** The checksum a CAPL node expects in byte 7 of a received frame. */
  method ExpectedChecksum(f: Frame) returns (checksum: byte)
    ensures checksum == FrameChecksum(f)
  {
    var d := f.data;
    checksum := CalcChecksum(f.id, d[0], d[1], d[2], d[3], d[4], d[5], d[6]);
    assert [d[0], d[1], d[2], d[3], d[4], d[5], d[6]] == d[..CHECKSUM_BYTE];
  }
}
