/** Bytes, bitwise XOR and the wrapping 32-bit tick: the arithmetic the ECU6 firmware is built on.

    A C `uint8_t` is a natural number below 256. XOR is defined bit by bit, and masks and shifts are
    written as division and remainder by powers of two. A tick is a number below 2^32; the clock it
    is read from is unbounded.
 */
module Bytes {

  type byte = b: int | 0 <= b < 0x100

  // ---------------------------------------------------------------------------------------------
  // XOR

  function BitXor(a: nat, b: nat): nat {
    if a == 0 && b == 0 then 0 else 2 * BitXor(a / 2, b / 2) + (a + b) % 2
  }

  function Pow2(k: nat): (p: nat)
    ensures p > 0
  {
    if k == 0 then 1 else 2 * Pow2(k - 1)
  }

  lemma {:induction false} BitXorFits(a: nat, b: nat, k: nat)
    requires a < Pow2(k) && b < Pow2(k)
    ensures BitXor(a, b) < Pow2(k)
  {
    if k != 0 {
      BitXorFits(a / 2, b / 2, k - 1);
    }
  }

  function Xor(a: byte, b: byte): byte {
    assert Pow2(8) == 0x100 by {
      assert Pow2(4) == 16;
    }
    BitXorFits(a, b, 8);
    BitXor(a, b)
  }

  lemma {:induction false} BitXorAssoc(a: nat, b: nat, c: nat)
    ensures BitXor(BitXor(a, b), c) == BitXor(a, BitXor(b, c))
    decreases a + b + c
  {
    if a != 0 || b != 0 || c != 0 {
      BitXorAssoc(a / 2, b / 2, c / 2);
      BitXorSplits(a, b);
      BitXorSplits(b, c);
      var x, y := BitXor(a, b), BitXor(b, c);
      BitXorSplits(x, c);
      BitXorSplits(a, y);
      ParityAssoc(a, b, c, x, y);
      SameHalves(BitXor(x, c), BitXor(a, y));
    }
  }

  lemma ParityAssoc(a: nat, b: nat, c: nat, x: nat, y: nat)
    requires x % 2 == (a + b) % 2 && y % 2 == (b + c) % 2
    ensures (x + c) % 2 == (a + y) % 2
  {
  }

  lemma ParitySum(a: nat, b: nat)
    ensures (a % 2 + b % 2) % 2 == (a + b) % 2
  {
  }

  lemma SameHalves(l: nat, r: nat)
    requires l / 2 == r / 2 && l % 2 == r % 2
    ensures l == r
  {
  }

  lemma BitXorSplits(a: nat, b: nat)
    ensures BitXor(a, b) / 2 == BitXor(a / 2, b / 2) && BitXor(a, b) % 2 == (a + b) % 2
  {
  }

  lemma {:induction false} BitXorComm(a: nat, b: nat)
    ensures BitXor(a, b) == BitXor(b, a)
    decreases a + b
  {
    if a != 0 || b != 0 {
      BitXorComm(a / 2, b / 2);
    }
  }

  lemma {:induction false} BitXorUnit(a: nat)
    ensures BitXor(a, 0) == a && BitXor(a, a) == 0
  {
    if a != 0 {
      BitXorUnit(a / 2);
    }
  }

  lemma XorAssoc(a: byte, b: byte, c: byte)
    ensures Xor(Xor(a, b), c) == Xor(a, Xor(b, c))
  {
    BitXorAssoc(a, b, c);
  }

  lemma XorComm(a: byte, b: byte)
    ensures Xor(a, b) == Xor(b, a)
  {
    BitXorComm(a, b);
  }

  lemma XorUnit(a: byte)
    ensures Xor(a, 0) == a && Xor(0, a) == a && Xor(a, a) == 0
  {
    BitXorUnit(a);
    BitXorComm(0, a);
  }

  function Bit(b: nat, k: nat): nat {
    if k == 0 then b % 2 else Bit(b / 2, k - 1)
  }

  /** XOR acts on each bit separately, as addition modulo 2. */
  lemma {:induction false} XorBit(a: nat, b: nat, k: nat)
    ensures Bit(BitXor(a, b), k) == (Bit(a, k) + Bit(b, k)) % 2
  {
    BitXorSplits(a, b);
    if k == 0 {
      ParitySum(a, b);
    } else {
      XorBit(a / 2, b / 2, k - 1);
    }
  }

  /** XOR with a known byte can be moved to the other side of an equation. */
  lemma XorMoves(a: byte, b: byte, c: byte)
    ensures Xor(a, b) == c <==> b == Xor(a, c)
  {
    XorAssoc(a, a, b);
    XorAssoc(a, a, c);
    XorUnit(a);
    XorUnit(b);
    XorUnit(c);
  }

  /** XOR of all bytes; the empty fold is 0. */
  function XorAll(s: seq<byte>): byte {
    if |s| == 0 then 0 else Xor(XorAll(s[..|s| - 1]), s[|s| - 1])
  }

  lemma {:induction false} XorConcat(a: seq<byte>, b: seq<byte>)
    ensures XorAll(a + b) == Xor(XorAll(a), XorAll(b))
  {
    if |b| == 0 {
      assert a + b == a;
      XorUnit(XorAll(a));
    } else {
      var b' := b[..|b| - 1];
      assert (a + b)[..|a + b| - 1] == a + b';
      XorConcat(a, b');
      XorAssoc(XorAll(a), XorAll(b'), b[|b| - 1]);
    }
  }

  lemma {:induction false} XorZeros(s: seq<byte>)
    requires forall k :: 0 <= k < |s| ==> s[k] == 0
    ensures XorAll(s) == 0
  {
    if |s| != 0 {
      XorZeros(s[..|s| - 1]);
      XorUnit(0);
    }
  }

  /** `n` zero bytes. */
  function Zeros(n: nat): (z: seq<byte>)
    ensures |z| == n && forall k :: 0 <= k < n ==> z[k] == 0
  {
    seq(n, _ => 0)
  }

  // ---------------------------------------------------------------------------------------------
  // Counters and flags

  function Min(a: int, b: int): int {
    if a < b then a else b
  }

  /** A 0xFF-saturating increment. */
  function Saturate(b: byte): byte {
    if b < 0xFF then b + 1 else b
  }

  /** A 4-bit counter that steps once more. */
  lemma NextCount(x: nat)
    ensures (x % 16 + 1) % 16 == (x + 1) % 16 && x % 16 % 16 == x % 16
  {
  }

  /** Weight of bit number `k` of a byte. */
  function Weight(k: nat): (w: byte)
    requires k < 8
    ensures w > 0
  {
    if k == 0 then 1 else if k == 1 then 2 else if k == 2 then 4 else if k == 3 then 8
    else if k == 4 then 16 else if k == 5 then 32 else if k == 6 then 64 else 128
  }

  predicate HasBit(flags: byte, k: nat)
    requires k < 8
  {
    (flags / Weight(k)) % 2 == 1
  }

  /** `flags | (1 << k)`. */
  function SetBit(flags: byte, k: nat): byte
    requires k < 8
  {
    if HasBit(flags, k) then flags else flags + Weight(k)
  }

  // ---------------------------------------------------------------------------------------------
  // Ticks

  /** Number of values of the 32-bit FreeRTOS tick counter. */
  const WRAP := 0x1_0000_0000

  /** What `xTaskGetTickCount` returns when the unbounded clock stands at `clock`. */
  function Tick(clock: nat): (t: nat)
    ensures t < WRAP
  {
    clock % WRAP
  }

  /** Unsigned 32-bit subtraction of two ticks. */
  function Elapsed(now: nat, since: nat): (e: nat)
    ensures e < WRAP
  {
    (now - since) % WRAP
  }

  /** The wrapped difference is the true one modulo 2^32: never more than it, and equal to it for
      less than one full turn of the counter. */
  lemma ElapsedTicks(now: nat, since: nat)
    requires since <= now
    ensures Elapsed(Tick(now), Tick(since)) == (now - since) % 0x1_0000_0000
    ensures Elapsed(Tick(now), Tick(since)) <= now - since
    ensures now - since < 0x1_0000_0000 ==> Elapsed(Tick(now), Tick(since)) == now - since
  {
    var d := now - since;
    var qn, qs := now / WRAP, since / WRAP;
    assert now == qn * WRAP + Tick(now) && since == qs * WRAP + Tick(since);
    var t := Tick(now) - Tick(since);
    assert d == t + (qn - qs) * WRAP;
    if t >= 0 {
      assert d / WRAP == qn - qs && d % WRAP == t;
    } else {
      assert d == t + WRAP + (qn - qs - 1) * WRAP;
      assert d / WRAP == qn - qs - 1 && d % WRAP == t + WRAP;
    }
  }
}
