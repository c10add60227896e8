/** The whole 0x601 frame as a function of what has happened on the bus, with the numbers written out. */
module StatusHistory {
  import opened Bytes
  import opened Frames
  import opened OtaSpec
  import opened RxSpec
  import opened GatewaySpec
  import opened OtaInvariants
  import opened OtaTraces
  import opened OtaHistory
  import opened OtaAnswers
  import opened SupervisionHistory
  import opened StatusFrames
  import Lockouts

  /** A valid frame with this identifier has been received. */
  predicate Seen(es: seq<Event>, id: nat, n: nat)
    requires n <= |es|
  {
    exists k :: 0 <= k < n && es[k].Received? && es[k].msg.id == id && ChecksumOk(es[k].msg)
  }

  predicate AllFiveSeen(es: seq<Event>, n: nat)
    requires n <= |es|
  {
    Seen(es, 0x101, n) && Seen(es, 0x201, n) && Seen(es, 0x301, n) && Seen(es, 0x401, n) && Seen(es, 0x501, n)
  }

  lemma SeenIsHeard(es: seq<Event>, i: nat, n: nat)
    requires n <= |es| && i < 5
    ensures Seen(es, 0x101 + 0x100 * i, n) <==> Heard(es, i, n)
  {
    if Seen(es, 0x101 + 0x100 * i, n) {
      var k :| 0 <= k < n && es[k].Received? && es[k].msg.id == 0x101 + 0x100 * i && ChecksumOk(es[k].msg);
      assert ValidFrom(i, es[k]);
    }
    if Heard(es, i, n) {
      var k :| 0 <= k < n && ValidFrom(i, es[k]);
    }
  }

  /** What byte 0 says: 2 with any fault, else 1 once all five ECUs have been seen, else 0. */
  function StateByte(es: seq<Event>, start: nat, n: nat): byte
    requires n <= |es|
  {
    if SomeAliveFault(es, start, n) || SomeChecksumFault(es, n) then 2 else if AllFiveSeen(es, n) then 1 else 0
  }

  /** The published frame and the state it was packed from. */
  lemma Packed(es: seq<Event>, start: nat, n: nat) returns (g: Gateway)
    requires n < |es| && es[n].Published?
    ensures g == Refreshed(GatewayAt(es, start, n), Tick(es[n].lockoutClock), Tick(es[n].checkClock))
    ensures PublishedFrame(es, start, n) == StatusFrame(g)
    ensures g.ota == UpdateLockout(OtaAt(es, n), Tick(es[n].lockoutClock)) && g.rx == RxAt(es, start, n + 1)
    ensures g.gatewayState == StateOf(g.rx)
  {
    HalvesAreIndependent(es, start, n);
    g := Refreshed(GatewayAt(es, start, n), Tick(es[n].lockoutClock), Tick(es[n].checkClock));
  }

  /** Byte 0: 2 exactly with an alive or checksum fault, 1 exactly with none and all five ECUs heard, else 0. */
  lemma StateByteIsHistory(es: seq<Event>, start: nat, n: nat)
    requires n < |es| && es[n].Published?
    ensures PublishedFrame(es, start, n).data[0] == StateByte(es, start, n + 1)
  {
    var g := Packed(es, start, n);
    StatusBody(g);
    FaultsAreHistory(es, start, n + 1);
    AllSeenIsHistory(es, start, n + 1);
    AllFiveHeard(es, n + 1);
  }

  lemma AllFiveHeard(es: seq<Event>, n: nat)
    requires n <= |es|
    ensures AllFiveSeen(es, n) <==> forall i :: 0 <= i < ECU_COUNT ==> Heard(es, i, n)
  {
    SeenIsHeard(es, 0, n);
    SeenIsHeard(es, 1, n);
    SeenIsHeard(es, 2, n);
    SeenIsHeard(es, 3, n);
    SeenIsHeard(es, 4, n);
    FiveAreAll(es, n);
  }

  lemma FiveAreAll(es: seq<Event>, n: nat)
    requires n <= |es|
    ensures (forall i :: 0 <= i < ECU_COUNT ==> Heard(es, i, n)) <==>
            Heard(es, 0, n) && Heard(es, 1, n) && Heard(es, 2, n) && Heard(es, 3, n) && Heard(es, 4, n)
  {
    if Heard(es, 0, n) && Heard(es, 1, n) && Heard(es, 2, n) && Heard(es, 3, n) && Heard(es, 4, n) {
      forall i | 0 <= i < ECU_COUNT ensures Heard(es, i, n) {
        assert i == 0 || i == 1 || i == 2 || i == 3 || i == 4;
      }
    }
  }

  /** The numbers of the OTA states. */
  predicate Numbers(code: int, s: OtaState) {
    && (code == 0 <==> s.Idle?) && (code == 1 <==> s.Start?) && (code == 2 <==> s.Receiving?)
    && (code == 3 <==> s.Verifying?) && (code == 4 <==> s.ReadyToActivate?)
    && (code == 5 <==> s.Success?) && (code == 6 <==> s.Failed?)
  }

  lemma FlagNumbers(o: Ota, r: Supervision)
    ensures var f := StatusFlags(o, r);
            && f < 128 && Numbers(f % 8, o.state)
            && (f / 8 % 2 == 1 <==> o.security.unlocked) && (f / 16 % 2 == 1 <==> o.security.locked)
            && (f / 32 % 2 == 1 <==> AnyAliveError(r)) && (f / 64 % 2 == 1 <==> AnyChecksumError(r))
  {
    FlagsAreSum(o, r);
    SumSplits(o.state.Code(), One(o.security.unlocked), One(o.security.locked), One(AnyAliveError(r)), One(AnyChecksumError(r)));
  }

  /** Byte 1: the OTA state in bits 0..2, unlocked in bit 3, locked in bit 4, alive fault in bit 5, checksum fault in
      bit 6, each as the bus has shown it. */
  lemma FlagByteIsHistory(es: seq<Event>, start: nat, n: nat)
    requires n < |es| && es[n].Published?
    ensures var f, t := PublishedFrame(es, start, n).data[1], TraceOf(es);
            && f < 128 && Numbers(f % 8, StateShown(t, n))
            && (f / 8 % 2 == 1 <==> IsUnlocked(t, n)) && (f / 16 % 2 == 1 <==> !IsUnlocked(t, n))
            && (f / 32 % 2 == 1 <==> SomeAliveFault(es, start, n + 1))
            && (f / 64 % 2 == 1 <==> SomeChecksumFault(es, n + 1))
  {
    var g := Packed(es, start, n);
    StatusBody(g);
    FlagNumbers(g.ota, g.rx);
    FaultsAreHistory(es, start, n + 1);
    InvariantHolds(es, n);
    StateIsHistory(es, n);
    UnlockIsHistory(es, n);
  }

  /** Weight of a bit that is set. */
  function Weighted(on: bool, weight: byte): byte {
    if on then weight else 0
  }

  /** Bytes 2 to 6: blocked frames, failures (both up to 255), version, ECUs seen, frame number modulo 16. */
  lemma CountersAreHistory(es: seq<Event>, start: nat, n: nat)
    requires n < |es| && es[n].Published?
    ensures var d, t := PublishedFrame(es, start, n).data, TraceOf(es);
            && d[2] == Min(255, Blocked(es, n))
            && d[3] == Min(255, Lockouts.FailureCount(t, n))
            && d[4] == 1 + Count(t, n, 0x04) % 255
            && d[6] == PublishCount(es, n) % 16
  {
    var g := Packed(es, start, n);
    StatusBody(g);
    BlockedIsHistory(es, start, n);
    Lockouts.RunsAreSecure(es);
    Lockouts.ErrorCounterIsHistory(TraceOf(es), n);
    CountingChain(es, n);
    AliveIsFrameNumber(es, start, n);
  }

  lemma MaskByteIsHistory(es: seq<Event>, start: nat, n: nat)
    requires n < |es| && es[n].Published?
    ensures PublishedFrame(es, start, n).data[5] ==
            Weighted(Seen(es, 0x101, n), 1) + Weighted(Seen(es, 0x201, n), 2) + Weighted(Seen(es, 0x301, n), 4)
            + Weighted(Seen(es, 0x401, n), 8) + Weighted(Seen(es, 0x501, n), 16)
  {
    var g := Packed(es, start, n);
    StatusBody(g);
    MaskIsHistory(es, start, n);
    SeenIsHeard(es, 0, n);
    SeenIsHeard(es, 1, n);
    SeenIsHeard(es, 2, n);
    SeenIsHeard(es, 3, n);
    SeenIsHeard(es, 4, n);
  }

  /** The frame goes out as 0x601 with eight bytes and a checksum that the receivers' rule accepts. */
  lemma StatusIsAddressed(es: seq<Event>, start: nat, n: nat)
    requires n < |es| && es[n].Published?
    ensures var f := PublishedFrame(es, start, n);
            f.id == 0x601 && f.length == 8 && f.data[7] == Xor(0x01, XorAll(f.data[..7]))
  {
  }
}
