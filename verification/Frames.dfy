/** CAN frames, the XOR checksum of the primary status messages, and what that checksum detects. */
module Frames {
  import opened Bytes

  datatype RawFrame = Frame(cs: nat, id: nat, length: nat, data: seq<byte>)

  /** A classical CAN message object always has eight data bytes, whatever its `length` says. */
  type Frame = f: RawFrame | |f.data| == 8 witness Frame(0, 0, 0, Zeros(8))

  const CHECKSUM_BYTE := 7
  const STATUS_DLC := 8

  const ID_OTA_REQUEST := 0x650
  const ID_OTA_RESPONSE := 0x651
  const ID_GATEWAY := 0x601

  function LowByte(id: nat): byte {
    id % 0x100
  }

  /** CAN_ID_LSB ^ data[0] ^ ... ^ data[6]. */
  function FrameChecksum(f: Frame): byte {
    Xor(LowByte(f.id), XorAll(f.data[..CHECKSUM_BYTE]))
  }

  predicate ChecksumOk(f: Frame) {
    f.length == STATUS_DLC && f.data[CHECKSUM_BYTE] == FrameChecksum(f)
  }

  /** The eight-byte frame with these seven data bytes and its checksum behind them. */
  function Sealed(id: nat, body: seq<byte>): (f: Frame)
    requires |body| == CHECKSUM_BYTE
    ensures f.id == id && f.length == STATUS_DLC && f.data[..CHECKSUM_BYTE] == body && ChecksumOk(f)
  {
    var f := Frame(0, id, STATUS_DLC, body + [Xor(LowByte(id), XorAll(body))]);
    assert f.data[..CHECKSUM_BYTE] == body;
    f
  }

  /** A `can_message_t` object that the handlers read and fill in place. */
  class CanMessage {
    var cs: nat
    var id: nat
    var length: nat
    const data: array<byte>

    constructor ()
      ensures Valid() && fresh(data)
    {
      cs, id, length := 0, 0, 0;
      data := new byte[8](_ => 0);
    }

    /** A copy of a received frame. */
    constructor Copy(f: Frame)
      ensures Valid() && View() == f && fresh(data)
    {
      cs, id, length := f.cs, f.id, f.length;
      data := new byte[8](k requires 0 <= k < 8 => f.data[k]);
      new;
      assert data[..] == f.data;
    }

    predicate Valid() {
      data.Length == 8
    }

    function View(): Frame
      reads this, data
      requires Valid()
    {
      Frame(cs, id, length, data[..])
    }

    method CalculateChecksum() returns (checksum: byte)
      requires Valid()
      ensures checksum == FrameChecksum(View())
    {
      checksum := LowByte(id);
      XorUnit(checksum);
      var i := 0;
      while i < CHECKSUM_BYTE
        invariant 0 <= i <= CHECKSUM_BYTE
        invariant checksum == Xor(LowByte(id), XorAll(data[..i]))
      {
        XorAssoc(LowByte(id), XorAll(data[..i]), data[i]);
        assert data[..i + 1][..i] == data[..i];
        checksum := Xor(checksum, data[i]);
        i := i + 1;
      }
      assert View().data[..CHECKSUM_BYTE] == data[..CHECKSUM_BYTE];
    }

    /** Writes the header of an eight-byte frame and its first seven data bytes. */
    method Write(id: nat, d0: byte, d1: byte, d2: byte, d3: byte, d4: byte, d5: byte, d6: byte)
      requires Valid()
      modifies this, data
      ensures cs == 0 && this.id == id && length == STATUS_DLC
      ensures data[..CHECKSUM_BYTE] == [d0, d1, d2, d3, d4, d5, d6]
    {
      cs := 0;
      this.id := id;
      length := 8;
      data[0], data[1], data[2], data[3] := d0, d1, d2, d3;
      data[4], data[5], data[6] := d4, d5, d6;
    }

    /** Stores the checksum of the first seven bytes in the last one. */
    method AddChecksum()
      requires Valid() && cs == 0 && length == STATUS_DLC
      modifies data
      ensures View() == Sealed(id, old(data[..CHECKSUM_BYTE]))
    {
      var checksum := CalculateChecksum();
      assert View().data[..CHECKSUM_BYTE] == data[..CHECKSUM_BYTE];
      data[CHECKSUM_BYTE] := checksum;
      assert data[..] == old(data[..CHECKSUM_BYTE]) + [checksum];
    }

    method VerifyChecksum() returns (ok: bool)
      requires Valid()
      ensures ok == ChecksumOk(View())
    {
      if length != STATUS_DLC {
        return false;
      }
      var checksum := CalculateChecksum();
      ok := data[CHECKSUM_BYTE] == checksum;
    }
  }

  // ---------------------------------------------------------------------------------------------
  // What the checksum detects

  /** Bit numbering inside a byte: DBC (Intel) order counts from bit 0, the wire sends bit 7 first. */
  datatype BitOrder = IntelOrder | WireOrder

  function BitIndex(order: BitOrder, position: nat): nat {
    if order.IntelOrder? then position % 8 else 7 - position % 8
  }

  /** Data bit number `position` of a frame. */
  function DataBit(d: seq<byte>, order: BitOrder, position: nat): nat
    requires |d| == 8 && position < 64
  {
    Bit(d[position / 8], BitIndex(order, position))
  }

  /** `f` and `g` agree everywhere except possibly in data bits `start .. start + 8`. */
  predicate SameOutsideBurst(f: Frame, g: Frame, order: BitOrder, start: nat) {
    && f.cs == g.cs && f.id == g.id && f.length == g.length
    && forall p :: 0 <= p < 64 && !(start <= p < start + 8) ==> DataBit(f.data, order, p) == DataBit(g.data, order, p)
  }

  lemma {:induction false} SameBits(x: nat, y: nat, width: nat)
    requires x < Pow2(width) && y < Pow2(width)
    requires forall k :: 0 <= k < width ==> Bit(x, k) == Bit(y, k)
    ensures x == y
  {
    if width != 0 {
      assert Bit(x, 0) == Bit(y, 0);
      forall k | 0 <= k < width - 1 ensures Bit(x / 2, k) == Bit(y / 2, k) {
        assert Bit(x, k + 1) == Bit(y, k + 1);
      }
      SameBits(x / 2, y / 2, width - 1);
    }
  }

  lemma SameParity(x0: nat, x1: nat, y0: nat, y1: nat)
    requires (x0 + x1) % 2 == (y0 + y1) % 2
    ensures x0 % 2 == y0 % 2 <==> x1 % 2 == y1 % 2
  {
  }

  /** Two numbers that differ only in complementary bits and have equal XOR are equal. */
  lemma {:induction false} ComplementaryBits(x0: nat, x1: nat, y0: nat, y1: nat, r: nat, width: nat)
    requires x0 < Pow2(width) && x1 < Pow2(width) && y0 < Pow2(width) && y1 < Pow2(width)
    requires BitXor(x0, x1) == BitXor(y0, y1)
    requires forall k :: 0 <= k < r && k < width ==> Bit(x0, k) == Bit(y0, k)
    requires forall k :: r <= k < width ==> Bit(x1, k) == Bit(y1, k)
    ensures x0 == y0 && x1 == y1
  {
    if width != 0 {
      BitXorSplits(x0, x1);
      BitXorSplits(y0, y1);
      assert if r > 0 then Bit(x0, 0) == Bit(y0, 0) else Bit(x1, 0) == Bit(y1, 0);
      var r' := if r > 0 then r - 1 else 0;
      forall k | 0 <= k < r' && k < width - 1 ensures Bit(x0 / 2, k) == Bit(y0 / 2, k) {
        assert Bit(x0, k + 1) == Bit(y0, k + 1);
      }
      forall k | r' <= k < width - 1 ensures Bit(x1 / 2, k) == Bit(y1 / 2, k) {
        assert Bit(x1, k + 1) == Bit(y1, k + 1);
      }
      ComplementaryBits(x0 / 2, x1 / 2, y0 / 2, y1 / 2, r', width - 1);
      SameParity(x0, x1, y0, y1);
      SameHalves(x0, y0);
      SameHalves(x1, y1);
    }
  }

  lemma ByteWidth()
    ensures Pow2(8) == 0x100
  {
    assert Pow2(4) == 16;
  }

  lemma BitOutsideBurst(f: Frame, g: Frame, order: BitOrder, start: nat, j: nat, k: nat)
    requires SameOutsideBurst(f, g, order, start) && j < 8 && k < 8
    requires !(start <= 8 * j + BitIndex(order, k) < start + 8)
    ensures Bit(f.data[j], k) == Bit(g.data[j], k)
  {
    var p := 8 * j + BitIndex(order, k);
    assert p / 8 == j && BitIndex(order, p) == k;
    assert DataBit(f.data, order, p) == DataBit(g.data, order, p);
  }

  lemma SameFarFromBurst(f: Frame, g: Frame, order: BitOrder, start: nat, j: nat)
    requires SameOutsideBurst(f, g, order, start) && j < 8 && j != start / 8 && j != start / 8 + 1
    ensures f.data[j] == g.data[j]
  {
    forall k | 0 <= k < 8 ensures Bit(f.data[j], k) == Bit(g.data[j], k) {
      BitOutsideBurst(f, g, order, start, j, k);
    }
    ByteWidth();
    SameBits(f.data[j], g.data[j], 8);
  }

  lemma BurstBytes(f: Frame, g: Frame, order: BitOrder, start: nat, j: nat)
    requires SameOutsideBurst(f, g, order, start) && j == start / 8 < 7
    requires Xor(f.data[j], f.data[j + 1]) == Xor(g.data[j], g.data[j + 1])
    ensures f.data[j] == g.data[j] && f.data[j + 1] == g.data[j + 1]
  {
    var x0, x1, y0, y1, r := f.data[j], f.data[j + 1], g.data[j], g.data[j + 1], start % 8;
    ByteWidth();
    if order.IntelOrder? {
      forall k | 0 <= k < r ensures Bit(x0, k) == Bit(y0, k) {
        BitOutsideBurst(f, g, order, start, j, k);
      }
      forall k | r <= k < 8 ensures Bit(x1, k) == Bit(y1, k) {
        BitOutsideBurst(f, g, order, start, j + 1, k);
      }
      ComplementaryBits(x0, x1, y0, y1, r, 8);
    } else {
      forall k | 0 <= k < 8 - r ensures Bit(x1, k) == Bit(y1, k) {
        BitOutsideBurst(f, g, order, start, j + 1, k);
      }
      forall k | 8 - r <= k < 8 ensures Bit(x0, k) == Bit(y0, k) {
        BitOutsideBurst(f, g, order, start, j, k);
      }
      XorComm(x0, x1);
      XorComm(y0, y1);
      ComplementaryBits(x1, x0, y1, y0, 8 - r, 8);
    }
  }

  /** A good checksum makes all eight data bytes fold to the low identifier byte. */
  lemma ChecksumFold(f: Frame)
    ensures ChecksumOk(f) <==> f.length == STATUS_DLC && XorAll(f.data) == LowByte(f.id)
  {
    var x, c, l := XorAll(f.data[..7]), f.data[7], LowByte(f.id);
    XorComm(l, x);
    XorMoves(x, c, l);
  }

  lemma XorCancels(p: byte, q: byte, u: byte, v: byte)
    requires Xor(Xor(p, u), q) == Xor(Xor(p, v), q)
    ensures u == v
  {
    XorComm(Xor(p, u), q);
    XorComm(Xor(p, v), q);
    XorMoves(q, Xor(p, u), Xor(q, Xor(p, v)));
    XorMoves(q, Xor(p, v), Xor(q, Xor(p, v)));
    XorMoves(p, u, Xor(p, v));
    XorMoves(p, v, Xor(p, v));
  }

  lemma XorParts(s: seq<byte>, lo: nat, hi: nat)
    requires lo <= hi <= |s|
    ensures XorAll(s) == Xor(Xor(XorAll(s[..lo]), XorAll(s[lo..hi])), XorAll(s[hi..]))
  {
    assert s[..hi] == s[..lo] + s[lo..hi];
    XorConcat(s[..lo], s[lo..hi]);
    assert s == s[..hi] + s[hi..];
    XorConcat(s[..hi], s[hi..]);
  }

  /** Sequences with equal fold that agree outside `lo .. hi` have equal folds there. */
  lemma WindowXor(d: seq<byte>, e: seq<byte>, lo: nat, hi: nat)
    requires |d| == |e| && lo <= hi <= |d| && XorAll(d) == XorAll(e)
    requires forall k :: 0 <= k < |d| && !(lo <= k < hi) ==> d[k] == e[k]
    ensures XorAll(d[lo..hi]) == XorAll(e[lo..hi])
  {
    assert d[..lo] == e[..lo] && d[hi..] == e[hi..];
    XorParts(d, lo, hi);
    XorParts(e, lo, hi);
    XorCancels(XorAll(d[..lo]), XorAll(d[hi..]), XorAll(d[lo..hi]), XorAll(e[lo..hi]));
  }

  lemma XorOfTwo(s: seq<byte>)
    ensures |s| == 1 ==> XorAll(s) == s[0]
    ensures |s| == 2 ==> XorAll(s) == Xor(s[0], s[1])
  {
    if |s| != 0 {
      XorUnit(s[0]);
      if |s| == 2 {
        assert XorAll(s[..1]) == s[0];
      }
    }
  }

  /** A burst of at most eight bits never turns one frame with a good checksum into another. */
  lemma BurstKeepsFrame(f: Frame, g: Frame, order: BitOrder, start: nat)
    requires ChecksumOk(f) && ChecksumOk(g) && SameOutsideBurst(f, g, order, start)
    ensures f == g
  {
    ChecksumFold(f);
    ChecksumFold(g);
    forall j | 0 <= j < 8 && j != start / 8 && j != start / 8 + 1 ensures f.data[j] == g.data[j] {
      SameFarFromBurst(f, g, order, start, j);
    }
    var j := start / 8;
    if j < 7 {
      WindowXor(f.data, g.data, j, j + 2);
      XorOfTwo(f.data[j..j + 2]);
      XorOfTwo(g.data[j..j + 2]);
      BurstBytes(f, g, order, start, j);
    } else if j == 7 {
      WindowXor(f.data, g.data, 7, 8);
      XorOfTwo(f.data[7..8]);
      XorOfTwo(g.data[7..8]);
    }
    assert f.data == g.data;
  }

  /** Any change confined to eight consecutive data bits of a frame with a good checksum is detected,
      in either bit numbering; a change to any single byte is the special case `start == 8 * j`. */
  lemma BurstDetected(f: Frame, g: Frame, order: BitOrder, start: nat)
    requires ChecksumOk(f) && SameOutsideBurst(f, g, order, start) && f != g
    ensures !ChecksumOk(g)
  {
    if ChecksumOk(g) {
      BurstKeepsFrame(f, g, order, start);
    }
  }
}
