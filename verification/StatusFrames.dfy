/** What a reader of the 0x601 status frame learns: the panel's decoding undoes the gateway's packing. */
module StatusFrames {
  import opened Bytes
  import opened Frames
  import opened OtaSpec
  import opened RxSpec
  import opened GatewaySpec
  import opened OtaInvariants
  import opened SupervisionHistory

  /** What the CANoe panel shows after a 0x601 frame. */
  datatype PanelView =
    | PanelView(otaState: byte, unlocked: byte, locked: byte, blocked: byte, version: byte)
    | ChecksumError

  function DecodeStatus(f: Frame): PanelView {
    if f.data[CHECKSUM_BYTE] != FrameChecksum(f) then ChecksumError
    else
      var flags := f.data[1];
      PanelView(flags % 8, (flags / 8) % 2, (flags / 16) % 2, f.data[2], f.data[4])
  }

  function One(on: bool): byte {
    if on then 1 else 0
  }

  /** The four flags and the state code occupy separate bits. */
  lemma FlagsAreSum(o: Ota, r: Supervision)
    ensures StatusFlags(o, r) == o.state.Code() + 8 * One(o.security.unlocked) + 16 * One(o.security.locked)
                                 + 32 * One(AnyAliveError(r)) + 64 * One(AnyChecksumError(r))
  {
  }

  lemma SumSplits(code: byte, u: byte, l: byte, a: byte, c: byte)
    requires code < 8 && u < 2 && l < 2 && a < 2 && c < 2
    ensures var f := code + 8 * u + 16 * l + 32 * a + 64 * c;
            f < 128 && f % 8 == code && (f / 8) % 2 == u && (f / 16) % 2 == l && (f / 32) % 2 == a && (f / 64) % 2 == c
  {
    var f := code + 8 * u + 16 * l + 32 * a + 64 * c;
    assert f / 8 == u + 2 * l + 4 * a + 8 * c;
    assert f / 16 == l + 2 * a + 4 * c;
    assert f / 32 == a + 2 * c;
    assert f / 64 == c;
  }

  /** Byte 1 of a status frame, bit by bit. */
  lemma FlagBits(o: Ota, r: Supervision)
    ensures var f := StatusFlags(o, r);
            && f < 128 && f % 8 == o.state.Code()
            && (HasBit(f, UNLOCKED_BIT) <==> o.security.unlocked)
            && (HasBit(f, LOCKED_BIT) <==> o.security.locked)
            && (HasBit(f, ALIVE_ERROR_BIT) <==> AnyAliveError(r))
            && (HasBit(f, CHECKSUM_ERROR_BIT) <==> AnyChecksumError(r))
  {
    FlagsAreSum(o, r);
    SumSplits(o.state.Code(), One(o.security.unlocked), One(o.security.locked),
              One(AnyAliveError(r)), One(AnyChecksumError(r)));
  }

  /** Different OTA states have different codes, so the code in the frame is the state. */
  lemma CodesAreDistinct(s: OtaState, s': OtaState)
    requires s.Code() == s'.Code()
    ensures s == s'
  {
  }

  /** Status frames published before event `n`. */
  function PublishCount(es: seq<Event>, n: nat): nat
    requires n <= |es|
  {
    if n == 0 then 0 else PublishCount(es, n - 1) + if es[n - 1].Published? then 1 else 0
  }

  lemma AliveStep(g: Gateway, e: Event)
    ensures GatewayAfter(g, e).aliveCounter == if e.Published? then (g.aliveCounter + 1) % 16 else g.aliveCounter
  {
  }

  lemma {:induction false} AliveCountsFrames(es: seq<Event>, start: nat, n: nat)
    requires n <= |es|
    ensures GatewayAt(es, start, n).aliveCounter == PublishCount(es, n) % 16
  {
    if n != 0 {
      AliveCountsFrames(es, start, n - 1);
      AliveStep(GatewayAt(es, start, n - 1), es[n - 1]);
      NextCount(PublishCount(es, n - 1));
    }
  }

  /** Round trip: in every run the panel recovers the OTA state (only one has the code it shows), both security
      flags, the blocked count and the version from a published frame, and the frame passes the gateway's own
      checksum test. */
  lemma StatusRoundTrip(es: seq<Event>, start: nat, n: nat)
    requires n < |es| && es[n].Published?
    ensures var f, o := PublishedFrame(es, start, n), UpdateLockout(OtaAt(es, n), Tick(es[n].lockoutClock));
            && f.id == ID_GATEWAY && ChecksumOk(f)
            && DecodeStatus(f) == PanelView(o.state.Code(), One(o.security.unlocked), One(o.security.locked),
                                            RxAt(es, start, n).blocked, o.version)
            && forall s: OtaState :: s.Code() == DecodeStatus(f).otaState ==> s == o.state
  {
    forall s: OtaState | s.Code() == UpdateLockout(OtaAt(es, n), Tick(es[n].lockoutClock)).state.Code()
      ensures s == UpdateLockout(OtaAt(es, n), Tick(es[n].lockoutClock)).state
    {
      CodesAreDistinct(s, UpdateLockout(OtaAt(es, n), Tick(es[n].lockoutClock)).state);
    }
    var g := Refreshed(GatewayAt(es, start, n), Tick(es[n].lockoutClock), Tick(es[n].checkClock));
    HalvesAreIndependent(es, start, n);
    StatusBody(g);
    FlagBits(g.ota, g.rx);
  }

  /** A status frame corrupted inside eight consecutive data bits is shown as a checksum error. */
  lemma CorruptedStatusIsRejected(good: Frame, bad: Frame, order: BitOrder, position: nat)
    requires ChecksumOk(good) && SameOutsideBurst(good, bad, order, position) && good != bad
    ensures DecodeStatus(bad) == ChecksumError
  {
    BurstDetected(good, bad, order, position);
  }

  lemma StatusBody(g: Gateway)
    ensures var f := StatusFrame(g);
            && f.data[0] == g.gatewayState.Code() && f.data[1] == StatusFlags(g.ota, g.rx)
            && f.data[2] == g.rx.blocked && f.data[3] == g.ota.security.errorCounter
            && f.data[4] == g.ota.version && f.data[5] == g.rx.rxMask && f.data[6] == g.aliveCounter % 16
  {
    var f := StatusFrame(g);
    assert forall k :: 0 <= k < CHECKSUM_BYTE ==> f.data[k] == f.data[..CHECKSUM_BYTE][k];
  }

  /** Exactly one of the security bits, DEGRADED exactly with an error bit, otherwise NORMAL exactly
      with a full mask. */
  predicate Coherent(d: seq<byte>)
    requires |d| == 8
  {
    && d[1] < 128
    && (HasBit(d[1], UNLOCKED_BIT) <==> !HasBit(d[1], LOCKED_BIT))
    && (d[0] == Degraded.Code() <==> HasBit(d[1], ALIVE_ERROR_BIT) || HasBit(d[1], CHECKSUM_ERROR_BIT))
    && (d[0] != Degraded.Code() ==> (d[0] == Normal.Code() <==> d[5] == RX_MASK_ALL))
    && d[0] <= 2 && d[5] <= RX_MASK_ALL
  }

  lemma FrameIsCoherent(g: Gateway)
    requires SecurityOk(g.ota.security) && g.gatewayState == StateOf(g.rx) && g.rx.rxMask <= RX_MASK_ALL
    ensures Coherent(StatusFrame(g).data)
  {
    StatusBody(g);
    FlagBits(g.ota, g.rx);
  }

  lemma MaskInRange(es: seq<Event>, start: nat, n: nat)
    requires n <= |es|
    ensures RxAt(es, start, n).rxMask <= RX_MASK_ALL
  {
    MaskIsHistory(es, start, n);
  }

  lemma LockoutKeepsSecurity(es: seq<Event>, n: nat, tick: nat)
    requires n <= |es|
    ensures SecurityOk(UpdateLockout(OtaAt(es, n), tick).security)
  {
    InvariantHolds(es, n);
    LockoutKeepsInv(OtaAt(es, n), tick);
  }

  /** Every published frame is coherent. */
  lemma StatusIsCoherent(es: seq<Event>, start: nat, n: nat)
    requires n < |es| && es[n].Published?
    ensures Coherent(PublishedFrame(es, start, n).data)
  {
    HalvesAreIndependent(es, start, n);
    LockoutKeepsSecurity(es, n, Tick(es[n].lockoutClock));
    MaskInRange(es, start, n);
    FrameIsCoherent(Refreshed(GatewayAt(es, start, n), Tick(es[n].lockoutClock), Tick(es[n].checkClock)));
  }

  /** ECU `i` counts as an alive error: a check saw it time out, or its alive counter is frozen. */
  predicate AliveFault(es: seq<Event>, start: nat, i: nat, n: nat)
    requires n <= |es|
  {
    SawTimeout(es, start, i, n) || Frozen(es, start, i, n)
  }

  /** ECU `i` has sent an invalid frame and fewer than five valid ones since. */
  predicate ChecksumFault(es: seq<Event>, i: nat, n: nat)
    requires n <= |es|
  {
    0 <= ValidSinceFault(es, i, n) < 5
  }

  predicate SomeAliveFault(es: seq<Event>, start: nat, n: nat)
    requires n <= |es|
  {
    exists i :: 0 <= i < ECU_COUNT && AliveFault(es, start, i, n)
  }

  predicate SomeChecksumFault(es: seq<Event>, n: nat)
    requires n <= |es|
  {
    exists i :: 0 <= i < ECU_COUNT && ChecksumFault(es, i, n)
  }

  /** Some ECU has really been silent for 300 ticks at the latest check, or its alive counter is frozen. */
  predicate SomeSilentOrFrozen(es: seq<Event>, start: nat, n: nat)
    requires n <= |es|
  {
    exists i :: 0 <= i < ECU_COUNT && (Silent(es, start, i, n) || Frozen(es, start, i, n))
  }

  lemma FaultsAreHistory(es: seq<Event>, start: nat, n: nat)
    requires n <= |es|
    ensures AnyAliveError(RxAt(es, start, n)) <==> SomeAliveFault(es, start, n)
    ensures AnyChecksumError(RxAt(es, start, n)) <==> SomeChecksumFault(es, n)
  {
    var r := RxAt(es, start, n);
    forall i | 0 <= i < ECU_COUNT
      ensures (r.monitors[i].timeoutError || r.monitors[i].aliveError) <==> AliveFault(es, start, i, n)
      ensures r.monitors[i].checksumError <==> ChecksumFault(es, i, n)
    {
      MonitorsAreIndependent(es, start, i, n);
      TimeoutIsHistory(es, start, i, n);
      AliveErrorIsHistory(es, start, i, n);
      ChecksumFaultIsHistory(es, start, i, n);
    }
  }

  lemma FaultsInRealTime(es: seq<Event>, start: nat, n: nat)
    requires Monotone(es, start) && Polled(es, start, 0x1_0000_0000 - 300) && n <= |es|
    ensures SomeAliveFault(es, start, n) <==> SomeSilentOrFrozen(es, start, n)
  {
    forall i | 0 <= i < ECU_COUNT
      ensures AliveFault(es, start, i, n) <==> Silent(es, start, i, n) || Frozen(es, start, i, n)
    {
      TimeoutsAreSilences(es, start, i, n);
    }
  }

  lemma FrameShowsFaults(g: Gateway)
    requires g.gatewayState == StateOf(g.rx)
    ensures var d := StatusFrame(g).data;
            && (HasBit(d[1], ALIVE_ERROR_BIT) <==> AnyAliveError(g.rx))
            && (HasBit(d[1], CHECKSUM_ERROR_BIT) <==> AnyChecksumError(g.rx))
            && (d[0] == Degraded.Code() <==> AnyAliveError(g.rx) || AnyChecksumError(g.rx))
  {
    StatusBody(g);
    FlagBits(g.ota, g.rx);
  }

  /** In every run a published frame reports exactly the faults of the history up to and with its own check. */
  lemma StatusShowsFaults(es: seq<Event>, start: nat, n: nat)
    requires n < |es| && es[n].Published?
    ensures var d := PublishedFrame(es, start, n).data;
            && (HasBit(d[1], ALIVE_ERROR_BIT) <==> SomeAliveFault(es, start, n + 1))
            && (HasBit(d[1], CHECKSUM_ERROR_BIT) <==> SomeChecksumFault(es, n + 1))
            && (d[0] == Degraded.Code() <==> SomeAliveFault(es, start, n + 1) || SomeChecksumFault(es, n + 1))
  {
    HalvesAreIndependent(es, start, n);
    FaultsAreHistory(es, start, n + 1);
    FrameShowsFaults(Refreshed(GatewayAt(es, start, n), Tick(es[n].lockoutClock), Tick(es[n].checkClock)));
  }

  /** In polled runs the frame says DEGRADED exactly when some ECU has been silent for 300 ticks, is frozen,
      or has a checksum fault. */
  lemma DegradedInRealTime(es: seq<Event>, start: nat, n: nat)
    requires Monotone(es, start) && Polled(es, start, 0x1_0000_0000 - 300) && n < |es| && es[n].Published?
    ensures PublishedFrame(es, start, n).data[0] == Degraded.Code() <==>
            SomeSilentOrFrozen(es, start, n + 1) || SomeChecksumFault(es, n + 1)
  {
    StatusShowsFaults(es, start, n);
    FaultsInRealTime(es, start, n + 1);
  }

  /** Every published frame carries its own number, modulo 16, as alive counter. */
  lemma AliveIsFrameNumber(es: seq<Event>, start: nat, n: nat)
    requires n < |es| && es[n].Published?
    ensures PublishedFrame(es, start, n).data[6] == PublishCount(es, n) % 16
  {
    AliveCountsFrames(es, start, n);
    NextCount(PublishCount(es, n));
    StatusBody(Refreshed(GatewayAt(es, start, n), Tick(es[n].lockoutClock), Tick(es[n].checkClock)));
  }

  /** Once all five ECUs have sent a valid frame, INIT is never published again. */
  lemma InitialStateEnds(es: seq<Event>, start: nat, n: nat)
    requires n < |es| && es[n].Published?
    requires forall i :: 0 <= i < ECU_COUNT ==> Heard(es, i, n)
    ensures PublishedFrame(es, start, n).data[0] != Initial.Code()
  {
    var g := Refreshed(GatewayAt(es, start, n), Tick(es[n].lockoutClock), Tick(es[n].checkClock));
    HalvesAreIndependent(es, start, n);
    AllSeenIsHistory(es, start, n);
    StatusBody(g);
  }
}
