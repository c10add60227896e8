/** Every supervision field as a function of the unbounded event history. */
module SupervisionHistory {
  import opened Bytes
  import opened Frames
  import opened RxSpec
  import opened GatewaySpec

  // ---------------------------------------------------------------------------------------------
  // One ECU's view of a run

  /** Event `e` is a frame of ECU `i` with a good checksum. */
  predicate ValidFrom(i: nat, e: Event) {
    e.Received? && i < 5 && e.msg.id == 0x101 + 0x100 * i && ChecksumOk(e.msg)
  }

  /** Event `e` is a frame of ECU `i` with a bad checksum or length. */
  predicate InvalidFrom(i: nat, e: Event) {
    e.Received? && i < 5 && e.msg.id == 0x101 + 0x100 * i && !ChecksumOk(e.msg)
  }

  predicate IsCheck(e: Event) {
    e.Checked? || e.Published?
  }

  function MonitorAfter(m: Monitor, i: nat, e: Event): Monitor {
    if ValidFrom(i, e) then m.Accept(e.msg, Tick(e.clock))
    else if InvalidFrom(i, e) then m.SetChecksumError()
    else if IsCheck(e) then m.CheckTimeout(Tick(e.Last()))
    else m
  }

  function MonitorAt(es: seq<Event>, start: nat, i: nat, n: nat): Monitor
    requires n <= |es|
  {
    if n == 0 then InitMonitor(Tick(start)) else MonitorAfter(MonitorAt(es, start, i, n - 1), i, es[n - 1])
  }

  lemma OneMonitorStep(r: Supervision, i: nat, e: Event)
    requires i < ECU_COUNT
    ensures RxAfter(r, e).monitors[i] == MonitorAfter(r.monitors[i], i, e)
  {
  }

  /** Each monitor follows its own ECU only. */
  lemma {:induction false} MonitorsAreIndependent(es: seq<Event>, start: nat, i: nat, n: nat)
    requires n <= |es| && i < ECU_COUNT
    ensures RxAt(es, start, n).monitors[i] == MonitorAt(es, start, i, n)
  {
    if n != 0 {
      MonitorsAreIndependent(es, start, i, n - 1);
      OneMonitorStep(RxAt(es, start, n - 1), i, es[n - 1]);
    }
  }

  // ---------------------------------------------------------------------------------------------
  // Timeouts

  /** Clock of the latest valid frame of ECU `i`, or of initialisation. */
  function LastHeard(es: seq<Event>, start: nat, i: nat, n: nat): nat
    requires n <= |es|
  {
    if n == 0 then start else if ValidFrom(i, es[n - 1]) then es[n - 1].clock else LastHeard(es, start, i, n - 1)
  }

  /** Clock of the latest timeout check, or of initialisation. */
  function LastCheck(es: seq<Event>, start: nat, n: nat): nat
    requires n <= |es|
  {
    if n == 0 then start else if IsCheck(es[n - 1]) then es[n - 1].Last() else LastCheck(es, start, n - 1)
  }

  /** Consecutive timeout checks are at most `gap` ticks apart. */
  predicate Polled(es: seq<Event>, start: nat, gap: int) {
    forall n :: 0 <= n < |es| && IsCheck(es[n]) ==> es[n].Last() - LastCheck(es, start, n) <= gap
  }

  /** What the timeout flag should be: the latest check came 300 or more ticks after the latest valid frame. */
  predicate Silent(es: seq<Event>, start: nat, i: nat, n: nat)
    requires n <= |es|
  {
    LastCheck(es, start, n) - LastHeard(es, start, i, n) >= 300
  }

  lemma {:induction false} HistoryClocks(es: seq<Event>, start: nat, i: nat, n: nat)
    requires Monotone(es, start) && n <= |es|
    ensures start <= LastHeard(es, start, i, n) && start <= LastCheck(es, start, n)
    ensures n < |es| ==> LastHeard(es, start, i, n) <= es[n].First() && LastCheck(es, start, n) <= es[n].First()
  {
    if n != 0 {
      HistoryClocks(es, start, i, n - 1);
    }
  }

  /** The stored tick is the latest valid frame's clock modulo 2^32, and a raised timeout is never
      false: at least 300 ticks have really passed. No proviso. */
  lemma {:induction false} TimeoutNeverFalse(es: seq<Event>, start: nat, i: nat, n: nat)
    requires Monotone(es, start) && n <= |es|
    ensures MonitorAt(es, start, i, n).lastRxTick == Tick(LastHeard(es, start, i, n))
    ensures MonitorAt(es, start, i, n).timeoutError ==> Silent(es, start, i, n)
  {
    if n != 0 {
      TimeoutNeverFalse(es, start, i, n - 1);
      HistoryClocks(es, start, i, n - 1);
      if IsCheck(es[n - 1]) {
        ElapsedTicks(es[n - 1].Last(), LastHeard(es, start, i, n - 1));
      }
    }
  }

  /** The wrapping-tick timeout is the unbounded one: after every event, in runs and silences of any
      length, when checks are at most 2^32 - 300 ticks apart. */
  lemma {:induction false} TimeoutExact(es: seq<Event>, start: nat, i: nat, n: nat)
    requires Monotone(es, start) && Polled(es, start, 0x1_0000_0000 - 300) && n <= |es|
    ensures MonitorAt(es, start, i, n).timeoutError <==> Silent(es, start, i, n)
  {
    if n != 0 {
      TimeoutExact(es, start, i, n - 1);
      TimeoutNeverFalse(es, start, i, n - 1);
      HistoryClocks(es, start, i, n - 1);
      if IsCheck(es[n - 1]) {
        ElapsedTicks(es[n - 1].Last(), LastHeard(es, start, i, n - 1));
      }
    }
  }

  /** After every check: timed out exactly when 300 ticks have passed since the latest valid frame. */
  lemma TimeoutAfterCheck(es: seq<Event>, start: nat, i: nat, n: nat)
    requires Monotone(es, start) && Polled(es, start, 0x1_0000_0000 - 300) && n < |es| && IsCheck(es[n])
    ensures MonitorAt(es, start, i, n + 1).timeoutError <==> es[n].Last() - LastHeard(es, start, i, n) >= 300
  {
    TimeoutExact(es, start, i, n + 1);
  }

  /** The bound on the gap is tight: with checks 2^32 - 299 ticks apart a silence can be missed. */
  lemma TimeoutBoundIsTight()
    ensures var es := [Checked(299), Checked(0x1_0000_0000)];
            && Monotone(es, 0) && Polled(es, 0, 0x1_0000_0000 - 300 + 1)
            && Silent(es, 0, 0, 2) && !MonitorAt(es, 0, 0, 2).timeoutError
  {
    var es := [Checked(299), Checked(0x1_0000_0000)];
    assert LastCheck(es, 0, 0) == 0 && LastCheck(es, 0, 1) == 299 && LastCheck(es, 0, 2) == 0x1_0000_0000;
    assert LastHeard(es, 0, 0, 1) == 0 && LastHeard(es, 0, 0, 2) == 0;
    assert MonitorAt(es, 0, 0, 1) == InitMonitor(0);
    assert MonitorAt(es, 0, 0, 2) == InitMonitor(0);
  }

  // ---------------------------------------------------------------------------------------------
  // Timeouts as the checks see them, with no proviso on the clock

  /** Event `k` is a check that reads 300 or more wrapped ticks since the latest valid frame of ECU `i`. */
  predicate LateCheck(es: seq<Event>, start: nat, i: nat, k: nat)
    requires k < |es|
  {
    IsCheck(es[k]) && Elapsed(Tick(es[k].Last()), Tick(LastHeard(es, start, i, k))) >= 300
  }

  /** Event `k` is a late check, and ECU `i` has sent no valid frame since. */
  predicate LateSince(es: seq<Event>, start: nat, i: nat, k: nat, n: nat)
    requires k < n <= |es|
  {
    LateCheck(es, start, i, k) && forall j :: k < j < n ==> !ValidFrom(i, es[j])
  }

  predicate SawTimeout(es: seq<Event>, start: nat, i: nat, n: nat)
    requires n <= |es|
  {
    exists k :: 0 <= k < n && LateSince(es, start, i, k, n)
  }

  lemma SawTimeoutGrows(es: seq<Event>, start: nat, i: nat, n: nat)
    requires 0 < n <= |es|
    ensures SawTimeout(es, start, i, n) <==>
            LateCheck(es, start, i, n - 1) || (SawTimeout(es, start, i, n - 1) && !ValidFrom(i, es[n - 1]))
  {
    var m := n - 1;
    if k :| 0 <= k < n && LateSince(es, start, i, k, n) {
      assert k < m ==> LateSince(es, start, i, k, m) && !ValidFrom(i, es[m]);
    }
    if SawTimeout(es, start, i, m) && !ValidFrom(i, es[m]) {
      var k :| 0 <= k < m && LateSince(es, start, i, k, m);
      assert LateSince(es, start, i, k, n);
    }
    if LateCheck(es, start, i, m) {
      assert LateSince(es, start, i, m, n);
    }
  }

  /** In every run whatever: the stored tick is that of the latest valid frame, and the timeout flag
      stands exactly when a check since that frame came late by the wrapped tick. */
  lemma {:induction false} TimeoutIsHistory(es: seq<Event>, start: nat, i: nat, n: nat)
    requires n <= |es|
    ensures MonitorAt(es, start, i, n).lastRxTick == Tick(LastHeard(es, start, i, n))
    ensures MonitorAt(es, start, i, n).timeoutError <==> SawTimeout(es, start, i, n)
  {
    if n != 0 {
      TimeoutIsHistory(es, start, i, n - 1);
      SawTimeoutGrows(es, start, i, n);
    }
  }

  /** In polled runs the checks see exactly the real silences. */
  lemma TimeoutsAreSilences(es: seq<Event>, start: nat, i: nat, n: nat)
    requires Monotone(es, start) && Polled(es, start, 0x1_0000_0000 - 300) && n <= |es|
    ensures SawTimeout(es, start, i, n) <==> Silent(es, start, i, n)
  {
    TimeoutIsHistory(es, start, i, n);
    TimeoutExact(es, start, i, n);
  }

  // ---------------------------------------------------------------------------------------------
  // Alive counters

  /** ECU `i` has sent a valid frame. */
  predicate Heard(es: seq<Event>, i: nat, n: nat)
    requires n <= |es|
  {
    exists k :: 0 <= k < n && ValidFrom(i, es[k])
  }

  /** Alive nibble of the latest valid frame of ECU `i`, 0 before the first. */
  function LastNibble(es: seq<Event>, i: nat, n: nat): byte
    requires n <= |es|
  {
    if n == 0 then 0 else if ValidFrom(i, es[n - 1]) then AliveNibble(es[n - 1].msg) else LastNibble(es, i, n - 1)
  }

  /** ECU `i` has a live baseline: it has been heard, and no check has seen it time out since. */
  predicate HasBaseline(es: seq<Event>, start: nat, i: nat, n: nat)
    requires n <= |es|
  {
    Heard(es, i, n) && !SawTimeout(es, start, i, n)
  }

  /** Event `n` is a valid frame that repeats the nibble of a live baseline. */
  predicate RepeatsBaseline(es: seq<Event>, start: nat, i: nat, n: nat)
    requires n < |es|
  {
    ValidFrom(i, es[n]) && HasBaseline(es, start, i, n) && AliveNibble(es[n].msg) == LastNibble(es, i, n)
  }

  /** Event `n` is a valid frame that differs from a live baseline. */
  predicate LeavesBaseline(es: seq<Event>, start: nat, i: nat, n: nat)
    requires n < |es|
  {
    ValidFrom(i, es[n]) && HasBaseline(es, start, i, n) && AliveNibble(es[n].msg) != LastNibble(es, i, n)
  }

  /** Valid frames at the end of the history that repeat the baseline, counted without bound; a timeout
      or a new baseline starts over. */
  function Repeats(es: seq<Event>, start: nat, i: nat, n: nat): nat
    requires n <= |es|
  {
    if n == 0 || SawTimeout(es, start, i, n) then 0
    else if RepeatsBaseline(es, start, i, n - 1) then Repeats(es, start, i, n - 1) + 1
    else if ValidFrom(i, es[n - 1]) then 0
    else Repeats(es, start, i, n - 1)
  }

  /** A third repeat occurred at event `k`, and no valid frame since then has left a live baseline. */
  predicate FrozenSince(es: seq<Event>, start: nat, i: nat, k: nat, n: nat)
    requires k < n <= |es|
  {
    && RepeatsBaseline(es, start, i, k) && Repeats(es, start, i, k + 1) >= 3
    && forall j :: k < j < n ==> !LeavesBaseline(es, start, i, j)
  }

  predicate Frozen(es: seq<Event>, start: nat, i: nat, n: nat)
    requires n <= |es|
  {
    exists k :: 0 <= k < n && FrozenSince(es, start, i, k, n)
  }

  lemma HeardGrows(es: seq<Event>, i: nat, n: nat)
    requires 0 < n <= |es|
    ensures Heard(es, i, n) <==> Heard(es, i, n - 1) || ValidFrom(i, es[n - 1])
  {
    if Heard(es, i, n - 1) {
      var k :| 0 <= k < n - 1 && ValidFrom(i, es[k]);
      assert 0 <= k < n;
    }
    if ValidFrom(i, es[n - 1]) {
      assert 0 <= n - 1 < n;
    }
  }

  /** The baseline is a function of the history, in every run; a timeout takes it away. */
  lemma {:induction false} BaselineIsHistory(es: seq<Event>, start: nat, i: nat, n: nat)
    requires n <= |es|
    ensures var m := MonitorAt(es, start, i, n);
            && m.aliveInitialized == HasBaseline(es, start, i, n) == (Heard(es, i, n) && !m.timeoutError)
            && m.lastAlive == LastNibble(es, i, n)
            && (m.timeoutError ==> !m.aliveInitialized && m.freezeCount == 0)
  {
    TimeoutIsHistory(es, start, i, n);
    if n != 0 {
      BaselineIsHistory(es, start, i, n - 1);
      TimeoutIsHistory(es, start, i, n - 1);
      SawTimeoutGrows(es, start, i, n);
      HeardGrows(es, i, n);
    }
  }

  /** In polled runs the baseline is live exactly when the ECU has been heard and has not been silent. */
  lemma BaselineInRealTime(es: seq<Event>, start: nat, i: nat, n: nat)
    requires Monotone(es, start) && Polled(es, start, 0x1_0000_0000 - 300) && n <= |es|
    ensures MonitorAt(es, start, i, n).aliveInitialized <==> Heard(es, i, n) && !Silent(es, start, i, n)
  {
    BaselineIsHistory(es, start, i, n);
    TimeoutsAreSilences(es, start, i, n);
  }

  /** One event, seen by the alive monitor. */
  lemma AliveStep(m: Monitor, i: nat, e: Event, repeats: nat)
    requires m.freezeCount as int == Min(0xFF, repeats)
    ensures var m1 := MonitorAfter(m, i, e);
            if !ValidFrom(i, e) then
              m1.aliveError == m.aliveError && (m1.freezeCount == m.freezeCount || (m1.timeoutError && m1.freezeCount == 0))
            else if m.aliveInitialized && AliveNibble(e.msg) == m.lastAlive then
              m1.freezeCount as int == Min(0xFF, repeats + 1) && m1.aliveError == (m.aliveError || repeats + 1 >= 3)
            else
              m1.freezeCount == 0 && m1.aliveError == (m.aliveError && !m.aliveInitialized)
  {
  }

  /** How the repeat count moves with one event. */
  lemma RepeatsStep(es: seq<Event>, start: nat, i: nat, n: nat)
    requires n < |es|
    ensures Repeats(es, start, i, n + 1) ==
            if ValidFrom(i, es[n]) then (if RepeatsBaseline(es, start, i, n) then Repeats(es, start, i, n) + 1 else 0)
            else if SawTimeout(es, start, i, n + 1) then 0
            else Repeats(es, start, i, n)
  {
    SawTimeoutGrows(es, start, i, n + 1);
  }

  /** In every run the freeze counter is the saturated number of repeats of the live baseline. */
  lemma {:induction false} FreezeCountIsHistory(es: seq<Event>, start: nat, i: nat, n: nat)
    requires n <= |es|
    ensures MonitorAt(es, start, i, n).freezeCount as int == Min(0xFF, Repeats(es, start, i, n))
  {
    if n != 0 {
      var m := n - 1;
      FreezeCountIsHistory(es, start, i, m);
      BaselineIsHistory(es, start, i, m);
      BaselineIsHistory(es, start, i, n);
      TimeoutIsHistory(es, start, i, n);
      AliveStep(MonitorAt(es, start, i, m), i, es[m], Repeats(es, start, i, m));
      RepeatsStep(es, start, i, m);
    }
  }

  lemma FrozenGrows(es: seq<Event>, start: nat, i: nat, n: nat)
    requires 0 < n <= |es|
    ensures Frozen(es, start, i, n) <==>
            || (RepeatsBaseline(es, start, i, n - 1) && Repeats(es, start, i, n) >= 3)
            || (Frozen(es, start, i, n - 1) && !LeavesBaseline(es, start, i, n - 1))
  {
    var m := n - 1;
    if k :| 0 <= k < n && FrozenSince(es, start, i, k, n) {
      FrozenSinceStep(es, start, i, k, n);
    }
    if Frozen(es, start, i, m) && !LeavesBaseline(es, start, i, m) {
      var k :| 0 <= k < m && FrozenSince(es, start, i, k, m);
      FrozenSinceStep(es, start, i, k, n);
    }
    FrozenSinceStep(es, start, i, m, n);
  }

  /** One more event, for a freeze that began at event `k`. */
  lemma FrozenSinceStep(es: seq<Event>, start: nat, i: nat, k: nat, n: nat)
    requires k < n <= |es|
    ensures FrozenSince(es, start, i, k, n) <==>
            if k == n - 1 then RepeatsBaseline(es, start, i, k) && Repeats(es, start, i, n) >= 3
            else FrozenSince(es, start, i, k, n - 1) && !LeavesBaseline(es, start, i, n - 1)
  {
  }

  /** In every run the alive fault is raised at the third repeat of a live baseline and cleared only by a
      valid frame that leaves a live baseline; in particular a timeout does not clear it. */
  lemma {:induction false} AliveErrorIsHistory(es: seq<Event>, start: nat, i: nat, n: nat)
    requires n <= |es|
    ensures MonitorAt(es, start, i, n).aliveError <==> Frozen(es, start, i, n)
  {
    if n != 0 {
      var m := n - 1;
      AliveErrorIsHistory(es, start, i, m);
      BaselineIsHistory(es, start, i, m);
      FreezeCountIsHistory(es, start, i, m);
      AliveStep(MonitorAt(es, start, i, m), i, es[m], Repeats(es, start, i, m));
      RepeatsStep(es, start, i, m);
      FrozenGrows(es, start, i, n);
    }
  }

  /** In every run a valid frame ends an alive fault exactly when the ECU is not timed out and its nibble has
      changed: "any changed alive value clears the fault" is not true of the first frame after a timeout. */
  lemma ValidFrameClearsIff(es: seq<Event>, start: nat, i: nat, n: nat)
    requires n < |es| && ValidFrom(i, es[n]) && MonitorAt(es, start, i, n).aliveError
    ensures !MonitorAt(es, start, i, n + 1).aliveError <==>
            !MonitorAt(es, start, i, n).timeoutError && AliveNibble(es[n].msg) != LastNibble(es, i, n)
  {
    AliveErrorIsHistory(es, start, i, n);
    var k :| 0 <= k < n && FrozenSince(es, start, i, k, n);
    assert ValidFrom(i, es[k]);
    BaselineIsHistory(es, start, i, n);
    FreezeCountIsHistory(es, start, i, n);
    AliveStep(MonitorAt(es, start, i, n), i, es[n], Repeats(es, start, i, n));
  }

  function AliveFrame(i: nat, nibble: byte): Frame {
    Sealed(EcuId(i), [0, 0, 0, 0, 0, 0, nibble])
  }

  /** From event `n` on: four frames with the same nibble, a silence of 300 ticks, and a frame with another nibble. */
  predicate GoesStale(es: seq<Event>, i: nat, n: nat) {
    && n + 6 <= |es| && MonitorAt(es, 0, i, n) == InitMonitor(0)
    && (forall k :: n <= k < n + 4 ==> es[k] == Received(AliveFrame(i, 0), k))
    && es[n + 4] == Checked(n + 303) && es[n + 5] == Received(AliveFrame(i, 1), n + 304)
  }

  /** Such a run from the very beginning. */
  function StaleRun(i: nat): seq<Event> {
    var f := AliveFrame(i, 0);
    [Received(f, 0), Received(f, 1), Received(f, 2), Received(f, 3), Checked(303), Received(AliveFrame(i, 1), 304)]
  }

  lemma StaleRunGoesStale(i: nat)
    ensures GoesStale(StaleRun(i), i, 0) && Monotone(StaleRun(i), 0)
  {
  }

  lemma AliveFrameIsValid(i: nat, nibble: byte)
    requires i < ECU_COUNT && nibble < 16
    ensures var f := AliveFrame(i, nibble);
            f.id == EcuId(i) && FindEcu(f.id) == i && ChecksumOk(f) && AliveNibble(f) == nibble
  {
    var f := AliveFrame(i, nibble);
    assert f.data[6] == f.data[..CHECKSUM_BYTE][6];
  }

  lemma AliveFrameStep(es: seq<Event>, i: nat, n: nat, nibble: byte, clock: nat)
    requires i < ECU_COUNT && n < |es| && es[n] == Received(AliveFrame(i, nibble), clock) && nibble < 16
    ensures ValidFrom(i, es[n]) && AliveNibble(es[n].msg) == nibble
    ensures MonitorAt(es, 0, i, n + 1) ==
            MonitorAt(es, 0, i, n).UpdateChecksumRecovery().UpdateAlive(nibble).(timeoutError := false, lastRxTick := Tick(clock))
  {
    AliveFrameIsValid(i, nibble);
  }

  /** Four equal frames to a monitor without a baseline raise the fault. */
  lemma FourEqualFrames(es: seq<Event>, i: nat, n: nat)
    requires i < ECU_COUNT && n + 4 <= |es| && MonitorAt(es, 0, i, n) == InitMonitor(0)
    requires forall k :: n <= k < n + 4 ==> es[k] == Received(AliveFrame(i, 0), k)
    ensures MonitorAt(es, 0, i, n + 4) == Monitor(Tick(n + 3), false, 0, 3, true, true, false, 0)
    ensures LastHeard(es, 0, i, n + 4) == n + 3
  {
    AliveFrameStep(es, i, n, 0, n);
    AliveFrameStep(es, i, n + 1, 0, n + 1);
    AliveFrameStep(es, i, n + 2, 0, n + 2);
    AliveFrameStep(es, i, n + 3, 0, n + 3);
  }

  /** A check 300 ticks or more after the latest frame raises the timeout and keeps an alive fault. */
  lemma LateCheckKeepsFault(es: seq<Event>, i: nat, n: nat)
    requires n < |es| && es[n].Checked? && LateCheck(es, 0, i, n)
    ensures MonitorAt(es, 0, i, n + 1).timeoutError && !MonitorAt(es, 0, i, n + 1).aliveInitialized
    ensures MonitorAt(es, 0, i, n + 1).aliveError == MonitorAt(es, 0, i, n).aliveError
    ensures MonitorAt(es, 0, i, n + 1).checksumError == MonitorAt(es, 0, i, n).checksumError
  {
    TimeoutIsHistory(es, 0, i, n);
    TimeoutIsHistory(es, 0, i, n + 1);
    BaselineIsHistory(es, 0, i, n + 1);
    SawTimeoutGrows(es, 0, i, n + 1);
  }

  /** The valid frame with a new nibble that ends the silence clears the timeout and leaves the alive fault. */
  lemma FaultOutlivesTimeout(es: seq<Event>, i: nat, n: nat)
    requires i < ECU_COUNT && GoesStale(es, i, n)
    ensures MonitorAt(es, 0, i, n + 4).aliveError && MonitorAt(es, 0, i, n + 5).timeoutError
    ensures ValidFrom(i, es[n + 5]) && AliveNibble(es[n + 5].msg) != MonitorAt(es, 0, i, n + 4).lastAlive
    ensures MonitorAt(es, 0, i, n + 6).aliveError && !MonitorAt(es, 0, i, n + 6).timeoutError
  {
    FourEqualFrames(es, i, n);
    ElapsedTicks(n + 303, n + 3);
    LateCheckKeepsFault(es, i, n + 4);
    AliveFrameStep(es, i, n + 5, 1, n + 304);
  }

  // ---------------------------------------------------------------------------------------------
  // Checksum faults, blocked frames and the receive mask

  /** Valid frames of ECU `i` since its latest invalid one; -1 when it has sent no invalid frame. */
  function ValidSinceFault(es: seq<Event>, i: nat, n: nat): (c: int)
    requires n <= |es|
    ensures c >= -1
  {
    if n == 0 then -1
    else if InvalidFrom(i, es[n - 1]) then 0
    else
      var c := ValidSinceFault(es, i, n - 1);
      if c >= 0 && ValidFrom(i, es[n - 1]) then c + 1 else c
  }

  /** The checksum fault of an ECU stands exactly while it has sent fewer than five valid frames since an
      invalid one, and the recovery counter counts them, so its 0xFF guard never matters. */
  lemma {:induction false} ChecksumFaultIsHistory(es: seq<Event>, start: nat, i: nat, n: nat)
    requires n <= |es|
    ensures var m, c := MonitorAt(es, start, i, n), ValidSinceFault(es, i, n);
            && (m.checksumError <==> 0 <= c < 5)
            && m.recoveryCount == if m.checksumError then c else 0
  {
    if n != 0 {
      ChecksumFaultIsHistory(es, start, i, n - 1);
    }
  }

  /** A frame with an unknown identifier, or a monitored one with a bad checksum. */
  predicate IsBlocked(msg: Frame) {
    !(msg.id in {0x101, 0x201, 0x301, 0x401, 0x501}) || !ChecksumOk(msg)
  }

  /** Blocked frames among the first `n` events. */
  function Blocked(es: seq<Event>, n: nat): nat
    requires n <= |es|
  {
    if n == 0 then 0
    else
      var e := es[n - 1];
      Blocked(es, n - 1) + if e.Received? && IsBlocked(e.msg) then 1 else 0
  }

  lemma {:induction false} BlockedIsHistory(es: seq<Event>, start: nat, n: nat)
    requires n <= |es|
    ensures RxAt(es, start, n).blocked as int == Min(0xFF, Blocked(es, n))
  {
    if n != 0 {
      BlockedIsHistory(es, start, n - 1);
    }
  }

  /** The byte whose bits 0..4 are `h`. */
  function MaskOf(h: seq<bool>): byte
    requires |h| == ECU_COUNT
  {
    Bit5(h[0], 1) + Bit5(h[1], 2) + Bit5(h[2], 4) + Bit5(h[3], 8) + Bit5(h[4], 16)
  }

  function Bit5(on: bool, weight: int): int {
    if on then weight else 0
  }

  lemma SetMaskBit(h: seq<bool>, i: nat)
    requires |h| == ECU_COUNT && i < ECU_COUNT
    ensures SetBit(MaskOf(h), i) == MaskOf(h[i := true])
    ensures HasBit(MaskOf(h), i) == h[i]
  {
    MaskBits(h[0], h[1], h[2], h[3], h[4], i);
  }

  lemma MaskBits(b0: bool, b1: bool, b2: bool, b3: bool, b4: bool, i: nat)
    requires i < ECU_COUNT
    ensures var m: byte := Bit5(b0, 1) + Bit5(b1, 2) + Bit5(b2, 4) + Bit5(b3, 8) + Bit5(b4, 16);
            HasBit(m, i) == if i == 0 then b0 else if i == 1 then b1 else if i == 2 then b2 else if i == 3 then b3 else b4
  {
  }

  /** Which ECUs have sent a valid frame. */
  function HeardBy(es: seq<Event>, n: nat): seq<bool>
    requires n <= |es|
  {
    seq(ECU_COUNT, i requires 0 <= i < ECU_COUNT => Heard(es, i, n))
  }

  /** `h` once event `e` has been seen. */
  function HeardAfter(h: seq<bool>, e: Event): seq<bool>
    requires |h| == ECU_COUNT
  {
    if e.Received? && FindEcu(e.msg.id) != NO_ECU && ChecksumOk(e.msg) then h[FindEcu(e.msg.id) := true] else h
  }

  lemma MaskStep(r: Supervision, h: seq<bool>, e: Event)
    requires |h| == ECU_COUNT && r.rxMask == MaskOf(h)
    ensures RxAfter(r, e).rxMask == MaskOf(HeardAfter(h, e))
  {
    if e.Received? && FindEcu(e.msg.id) != NO_ECU {
      SetMaskBit(h, FindEcu(e.msg.id));
    }
  }

  lemma HeardStep(es: seq<Event>, n: nat)
    requires 0 < n <= |es|
    ensures HeardBy(es, n) == HeardAfter(HeardBy(es, n - 1), es[n - 1])
  {
    forall i | 0 <= i < ECU_COUNT ensures HeardBy(es, n)[i] == (HeardBy(es, n - 1)[i] || ValidFrom(i, es[n - 1])) {
      HeardGrows(es, i, n);
    }
  }

  /** Bit `i` of the receive mask says whether ECU `i` has ever sent a valid frame. */
  lemma {:induction false} MaskIsHistory(es: seq<Event>, start: nat, n: nat)
    requires n <= |es|
    ensures RxAt(es, start, n).rxMask == MaskOf(HeardBy(es, n))
  {
    if n != 0 {
      MaskIsHistory(es, start, n - 1);
      MaskStep(RxAt(es, start, n - 1), HeardBy(es, n - 1), es[n - 1]);
      HeardStep(es, n);
    }
  }

  lemma FullMask(h: seq<bool>)
    requires |h| == ECU_COUNT
    ensures MaskOf(h) % 0x20 == RX_MASK_ALL <==> h[0] && h[1] && h[2] && h[3] && h[4]
  {
  }

  lemma AllSeenIsHistory(es: seq<Event>, start: nat, n: nat)
    requires n <= |es|
    ensures AllSeen(RxAt(es, start, n)) <==> forall i :: 0 <= i < ECU_COUNT ==> Heard(es, i, n)
  {
    MaskIsHistory(es, start, n);
    var h := HeardBy(es, n);
    FullMask(h);
    assert forall i :: 0 <= i < ECU_COUNT ==> h[i] == Heard(es, i, n);
  }

  /** A frame corrupted inside eight consecutive data bits touches nothing but its ECU's checksum fault
      and the blocked counter. */
  lemma CorruptedFrameIsBlocked(r: Supervision, good: Frame, bad: Frame, order: BitOrder, position: nat, tick: nat)
    requires FindEcu(good.id) != NO_ECU && ChecksumOk(good)
    requires SameOutsideBurst(good, bad, order, position) && good != bad
    ensures var i, r1 := FindEcu(good.id), Receive(r, bad, tick);
            && r1.rxMask == r.rxMask && r1.blocked == Saturate(r.blocked)
            && (forall k :: 0 <= k < ECU_COUNT && k != i ==> r1.monitors[k] == r.monitors[k])
            && r1.monitors[i] == r.monitors[i].(checksumError := true, recoveryCount := 0)
  {
    BurstDetected(good, bad, order, position);
  }
}
