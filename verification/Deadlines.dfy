/** What the CAN task owes and by when: a verified upload becomes ready, and a silent ECU is reported, with the
    first status frame that falls due. */
module LoopDeadlines {
  import opened Bytes
  import opened OtaSpec
  import opened RxSpec
  import opened GatewaySpec
  import opened OtaInvariants
  import opened OtaTraces
  import opened OtaHistory
  import opened SupervisionHistory
  import opened StatusFrames
  import opened CyclicSenders
  import opened CanLoops

  /** Events handled in the first `n` passes. */
  function Pos(ps: seq<Pass>, tx: nat, n: nat): nat
    requires n <= |ps|
  {
    |LoopEvents(ps, tx, n)|
  }

  // ---------------------------------------------------------------------------------------------
  // The loop seen from its whole history

  lemma {:induction false} LoopPrefix(ps: seq<Pass>, tx: nat, m: nat, n: nat)
    requires m <= n <= |ps|
    ensures LoopEvents(ps, tx, m) <= LoopEvents(ps, tx, n)
  {
    if m < n {
      LoopPrefix(ps, tx, m, n - 1);
    }
  }

  /** The status frame of a due pass is its last event. */
  lemma PublishedAt(ps: seq<Pass>, tx: nat, n: nat) returns (p: nat)
    requires n < |ps| && Due(ps, tx, n)
    ensures var es := LoopEvents(ps, tx, |ps|);
            p < |es| && Pos(ps, tx, n + 1) == p + 1 && es[p] == Published(ps[n].lockoutClock, ps[n].statusClock)
  {
    LoopPrefix(ps, tx, n + 1, |ps|);
    p := Pos(ps, tx, n + 1) - 1;
    assert LoopEvents(ps, tx, n + 1)[p] == Published(ps[n].lockoutClock, ps[n].statusClock);
  }

  lemma PassMailIsQuiet(ps: seq<Pass>, start: nat, tx: nat, n: nat, j: nat)
    requires Orderly(ps, start) && n < |ps| && Pos(ps, tx, n) <= j < Pos(ps, tx, n + 1)
    requires Due(ps, tx, n) ==> j + 1 < Pos(ps, tx, n + 1)
    ensures !LoopEvents(ps, tx, n + 1)[j].Published?
  {
    assert InOrder(ps, start, n);
    var k := j - Pos(ps, tx, n);
    assert LoopEvents(ps, tx, n + 1)[j] == PassEvents(ps[n], Due(ps, tx, n))[k];
    assert k < |ps[n].mail| ==> PassEvents(ps[n], Due(ps, tx, n))[k] == ps[n].mail[k];
  }

  /** Passes that are not due publish nothing. */
  lemma {:induction false} NothingPublished(ps: seq<Pass>, start: nat, tx: nat, m: nat, n: nat, j: nat)
    requires Orderly(ps, start) && m <= n <= |ps| && forall k :: m <= k < n ==> !Due(ps, tx, k)
    requires Pos(ps, tx, m) <= j < Pos(ps, tx, n)
    ensures !LoopEvents(ps, tx, n)[j].Published?
  {
    var last := n - 1;
    if j < Pos(ps, tx, last) {
      NothingPublished(ps, start, tx, m, last, j);
      assert LoopEvents(ps, tx, n)[j] == LoopEvents(ps, tx, last)[j];
    } else {
      assert !Due(ps, tx, last);
      PassMailIsQuiet(ps, start, tx, last, j);
    }
  }

  lemma NotPublished(ps: seq<Pass>, start: nat, tx: nat, m: nat, n: nat, j: nat)
    requires Orderly(ps, start) && m <= n < |ps| && Due(ps, tx, n) && forall k :: m <= k < n ==> !Due(ps, tx, k)
    requires Pos(ps, tx, m) <= j && j + 1 < Pos(ps, tx, n + 1)
    ensures j < Pos(ps, tx, |ps|) && !LoopEvents(ps, tx, |ps|)[j].Published?
  {
    if j < Pos(ps, tx, n) {
      NothingPublished(ps, start, tx, m, n, j);
      SameEvent(ps, tx, n, j);
    } else {
      PassMailIsQuiet(ps, start, tx, n, j);
      SameEvent(ps, tx, n + 1, j);
    }
  }

  /** Between the start of pass `m` and the first frame that falls due, in pass `n`, nothing is published. */
  lemma NothingBefore(ps: seq<Pass>, start: nat, tx: nat, m: nat, n: nat, p: nat)
    requires Orderly(ps, start) && m <= n < |ps| && Due(ps, tx, n) && forall k :: m <= k < n ==> !Due(ps, tx, k)
    requires Pos(ps, tx, n + 1) == p + 1 && p < Pos(ps, tx, |ps|)
    ensures forall j :: Pos(ps, tx, m) <= j < p ==> !LoopEvents(ps, tx, |ps|)[j].Published?
  {
    forall j | Pos(ps, tx, m) <= j < p ensures !LoopEvents(ps, tx, |ps|)[j].Published? {
      NotPublished(ps, start, tx, m, n, j);
    }
  }

  lemma SameEvent(ps: seq<Pass>, tx: nat, n: nat, j: nat)
    requires n <= |ps| && j < Pos(ps, tx, n)
    ensures j < Pos(ps, tx, |ps|) && LoopEvents(ps, tx, |ps|)[j] == LoopEvents(ps, tx, n)[j]
  {
    LoopPrefix(ps, tx, n, |ps|);
  }

  // ---------------------------------------------------------------------------------------------
  // The first frame that falls due

  /** From any pass on, the first frame falls due before its predecessor's transmit time is 100 + gap ticks old,
      if the loop goes on until it is 100 ticks old. */
  lemma {:induction false} FirstDue(ps: seq<Pass>, tx: nat, gap: nat, m: nat) returns (n: nat)
    requires Orderly(ps, tx) && Brisk(ps, tx, gap) && gap <= 0x1_0000_0000 - 100 && m < |ps|
    requires ps[|ps| - 1].dueClock - LastTx(ps, tx, m) >= 100
    ensures m <= n < |ps| && Due(ps, tx, n) && forall k :: m <= k < n ==> !Due(ps, tx, k)
    ensures ps[n].dueClock < LastTx(ps, tx, m) + 100 + gap
    decreases |ps| - m
  {
    StatusNotLate(ps, tx, gap, m);
    n := m;
    if !Due(ps, tx, m) {
      n := FirstDue(ps, tx, gap, m + 1);
    }
  }

  /** Every pass ends at most `gap` ticks after the timeout check of the pass before it. */
  predicate OnTime(ps: seq<Pass>, start: nat, gap: nat) {
    forall k :: 0 <= k < |ps| ==> Timely(ps, start, gap, k)
  }

  lemma OnTimeIsBrisk(ps: seq<Pass>, start: nat, tx: nat, gap: nat)
    requires Orderly(ps, tx) && OnTime(ps, start, gap) && start <= tx
    ensures Brisk(ps, tx, gap) && Orderly(ps, start)
  {
    forall n | 0 <= n < |ps| ensures ps[n].dueClock - DueFloor(ps, tx, n) <= gap {
      assert Timely(ps, start, gap, n) && InOrder(ps, tx, n);
      if n != 0 {
        assert InOrder(ps, tx, n - 1);
      }
    }
    forall n | 0 <= n < |ps| ensures InOrder(ps, start, n) {
      assert InOrder(ps, tx, n);
    }
  }

  // ---------------------------------------------------------------------------------------------
  // A verified upload becomes ready

  /** The state after some passes, in the whole history. */
  lemma StateAtPos(ps: seq<Pass>, tx: nat, m: nat)
    requires m <= |ps|
    ensures var es := LoopEvents(ps, tx, |ps|);
            Pos(ps, tx, m) <= |es| && OtaAt(es, Pos(ps, tx, m)) == OtaAt(LoopEvents(ps, tx, m), Pos(ps, tx, m))
  {
    var es, fs := LoopEvents(ps, tx, m), LoopEvents(ps, tx, |ps|);
    LoopPrefix(ps, tx, m, |ps|);
    assert fs == es + fs[|es|..];
    RunPrefix(es, fs[|es|..], 0, |es|);
    HalvesAreIndependent(es, 0, |es|);
    HalvesAreIndependent(fs, 0, |es|);
  }

  /** Once an END has been accepted and the client waits (any request that follows leaves the state alone), the
      first status frame that falls due shows VERIFYING and leaves READY_TO_ACTIVATE behind, and it falls due
      before the transmit time of the frame before is 100 + gap ticks old. */
  lemma EndIsFollowedByReady(ps: seq<Pass>, start: nat, tx: nat, gap: nat, m: nat) returns (n: nat, p: nat)
    requires Orderly(ps, tx) && OnTime(ps, start, gap) && start <= tx && gap <= 0x1_0000_0000 - 100 && m < |ps|
    requires ps[|ps| - 1].dueClock - LastTx(ps, tx, m) >= 100
    requires OtaAt(LoopEvents(ps, tx, m), Pos(ps, tx, m)).state.Verifying?
    requires var t := TraceOf(LoopEvents(ps, tx, |ps|));
             forall j :: Pos(ps, tx, m) <= j < |t.events| && t.events[j].Request? ==> Neutral(t, j)
    ensures m <= n < |ps| && Due(ps, tx, n) && forall k :: m <= k < n ==> !Due(ps, tx, k)
    ensures ps[n].dueClock < LastTx(ps, tx, m) + 100 + gap
    ensures var t := TraceOf(LoopEvents(ps, tx, |ps|));
            && p + 1 == Pos(ps, tx, n + 1) <= |t.events| && PublishesVerifying(t, p)
            && t.states[p + 1].state.ReadyToActivate?
  {
    var t := TraceOf(LoopEvents(ps, tx, |ps|));
    OnTimeIsBrisk(ps, start, tx, gap);
    n := FirstDue(ps, tx, gap, m);
    p := PublishedAt(ps, tx, n);
    NothingBefore(ps, tx, tx, m, n, p);
    LoopPrefix(ps, tx, m, n);
    StateAtPos(ps, tx, m);
    RunsAreLawful(t.events);
    PosBeforeFrame(ps, tx, n, p);
    NeutralKeepsState(t, Pos(ps, tx, m), p);
    assert LawfulStep(t, p);
  }

  lemma PosBeforeFrame(ps: seq<Pass>, tx: nat, n: nat, p: nat)
    requires n < |ps| && Due(ps, tx, n) && Pos(ps, tx, n + 1) == p + 1
    ensures Pos(ps, tx, n) <= p
  {
  }

  // ---------------------------------------------------------------------------------------------
  // A silent ECU is reported

  lemma {:induction false} LastHeardKept(es: seq<Event>, start: nat, i: nat, m: nat, n: nat)
    requires m <= n <= |es| && forall k :: m <= k < n ==> !ValidFrom(i, es[k])
    ensures LastHeard(es, start, i, n) == LastHeard(es, start, i, m)
  {
    if m < n {
      LastHeardKept(es, start, i, m, n - 1);
    }
  }

  lemma {:induction false} LastHeardPrefix(es: seq<Event>, fs: seq<Event>, start: nat, i: nat, n: nat)
    requires es <= fs && n <= |es|
    ensures LastHeard(fs, start, i, n) == LastHeard(es, start, i, n)
  {
    if n != 0 {
      LastHeardPrefix(es, fs, start, i, n - 1);
    }
  }

  /** Clock of the latest valid frame of ECU `i` in the passes before pass `m`, or of initialisation. */
  function HeardBefore(ps: seq<Pass>, start: nat, tx: nat, i: nat, m: nat): nat
    requires m <= |ps|
  {
    LastHeard(LoopEvents(ps, tx, m), start, i, Pos(ps, tx, m))
  }

  /** The frame of a due pass whose check finds an ECU silent says DEGRADED. */
  lemma SilentFrame(ps: seq<Pass>, start: nat, tx: nat, gap: nat, i: nat, n: nat, p: nat)
    requires Orderly(ps, start) && OnTime(ps, start, gap) && gap <= 0x1_0000_0000 - 300 && i < ECU_COUNT
    requires var es := LoopEvents(ps, tx, |ps|);
             n < |ps| && p < |es| && es[p] == Published(ps[n].lockoutClock, ps[n].statusClock)
             && ps[n].statusClock - LastHeard(es, start, i, p) >= 300
    ensures PublishedFrame(LoopEvents(ps, tx, |ps|), start, p).data[0] == Degraded.Code()
  {
    var es := LoopEvents(ps, tx, |ps|);
    LoopIsMonotone(ps, start, tx, |ps|);
    LoopSupervises(ps, start, tx, gap, |ps|);
    SupervisedIsPolled(es, start, gap);
    DegradedInRealTime(es, start, p);
    assert Silent(es, start, i, p + 1);
  }

  /** An ECU that falls silent is reported: if pass `m` is the first whose due test comes 300 ticks or more after
      the ECU's last valid frame, a status frame saying DEGRADED falls due less than 400 + 2 gap ticks after it. */
  lemma SilenceIsReported(ps: seq<Pass>, start: nat, tx: nat, gap: nat, i: nat, m: nat) returns (n: nat, p: nat)
    requires Orderly(ps, tx) && OnTime(ps, start, gap) && start <= tx && gap <= 0x1_0000_0000 - 300 && m < |ps|
    requires i < ECU_COUNT && ps[|ps| - 1].dueClock - LastTx(ps, tx, m) >= 100
    requires var es := LoopEvents(ps, tx, |ps|);
             forall k :: Pos(ps, tx, m) <= k < |es| ==> !ValidFrom(i, es[k])
    requires DueFloor(ps, tx, m) < HeardBefore(ps, start, tx, i, m) + 300 <= ps[m].dueClock
    ensures m <= n < |ps| && Due(ps, tx, n)
    ensures ps[n].dueClock < HeardBefore(ps, start, tx, i, m) + 400 + 2 * gap
    ensures var es := LoopEvents(ps, tx, |ps|);
            && p < |es| && p + 1 == Pos(ps, tx, n + 1) && es[p] == Published(ps[n].lockoutClock, ps[n].statusClock)
            && PublishedFrame(es, start, p).data[0] == Degraded.Code()
  {
    var es := LoopEvents(ps, tx, |ps|);
    OnTimeIsBrisk(ps, start, tx, gap);
    n := FirstDue(ps, tx, gap, m);
    LastTxBefore(ps, tx, m);
    p := PublishedAt(ps, tx, n);
    LoopPrefix(ps, tx, m, n);
    LoopPrefix(ps, tx, m, |ps|);
    LastHeardPrefix(LoopEvents(ps, tx, m), es, start, i, Pos(ps, tx, m));
    PosBeforeFrame(ps, tx, n, p);
    LastHeardKept(es, start, i, Pos(ps, tx, m), p);
    DueInOrder(ps, tx, m, n);
    SilentFrame(ps, start, tx, gap, i, n, p);
  }

  lemma {:induction false} DueInOrder(ps: seq<Pass>, start: nat, m: nat, n: nat)
    requires Orderly(ps, start) && m <= n < |ps|
    ensures ps[m].dueClock <= ps[n].dueClock <= ps[n].statusClock
  {
    assert InOrder(ps, start, n);
    if m < n {
      DueInOrder(ps, start, m, n - 1);
    }
  }
}
