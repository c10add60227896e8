/** The order of work in the CAN task: one pass receives, answers, checks timeouts and, when 100 ticks
    have passed since the last one, publishes a status frame. */
module CanLoops {
  import opened Bytes
  import opened RxSpec
  import opened GatewaySpec
  import opened SupervisionHistory
  import opened CyclicSenders

  const TX_PERIOD := 100

  /** One pass of the loop: the frames it found, and the clock readings it made in order. */
  datatype Pass = Pass(
    mail: seq<Event>,       // Received and Request events, mailbox by mailbox
    checkClock: nat,        // timeout check
    dueClock: nat,          // is a status frame due?
    stampClock: nat,        // taken as the new transmit time
    lockoutClock: nat,      // inside the status builder
    statusClock: nat)

  /** Clock readings within a pass never go backwards, and all come at or after `from`. */
  predicate Ordered(p: Pass, from: nat) {
    && Monotone(p.mail, from)
    && (forall k :: 0 <= k < |p.mail| ==> (p.mail[k].Received? || p.mail[k].Request?) && p.mail[k].Last() <= p.checkClock)
    && from <= p.checkClock <= p.dueClock <= p.stampClock <= p.lockoutClock <= p.statusClock
  }

  /** The tick comparison that decides whether a pass publishes, with the transmit time kept so far. */
  predicate IsDue(p: Pass, last: nat) {
    Elapsed(Tick(p.dueClock), Tick(last)) >= TX_PERIOD
  }

  /** The transmit time kept by the CAN task before pass `n`; initially the clock at task start. */
  function LastTx(ps: seq<Pass>, start: nat, n: nat): nat
    requires n <= |ps|
  {
    if n == 0 then start
    else
      var last := LastTx(ps, start, n - 1);
      if IsDue(ps[n - 1], last) then ps[n - 1].stampClock else last
  }

  predicate Due(ps: seq<Pass>, start: nat, n: nat)
    requires n < |ps|
  {
    IsDue(ps[n], LastTx(ps, start, n))
  }

  function PassEvents(p: Pass, due: bool): seq<Event> {
    p.mail + [Checked(p.checkClock)] + (if due then [Published(p.lockoutClock, p.statusClock)] else [])
  }

  /** Everything the gateway does in the first `n` passes. */
  function LoopEvents(ps: seq<Pass>, start: nat, n: nat): seq<Event>
    requires n <= |ps|
  {
    if n == 0 then [] else LoopEvents(ps, start, n - 1) + PassEvents(ps[n - 1], Due(ps, start, n - 1))
  }

  /** Clock of the timeout check of the pass before pass `n`, or of task start. */
  function PassFloor(ps: seq<Pass>, start: nat, n: nat): nat
    requires n <= |ps|
  {
    if n == 0 then start else ps[n - 1].checkClock
  }

  /** The last clock reading before pass `n`. */
  function PassStart(ps: seq<Pass>, start: nat, n: nat): nat
    requires n <= |ps|
  {
    if n == 0 then start else ps[n - 1].statusClock
  }

  /** Clock at which the due test of the pass before pass `n` was made, or of task start. */
  function DueFloor(ps: seq<Pass>, start: nat, n: nat): nat
    requires n <= |ps|
  {
    if n == 0 then start else ps[n - 1].dueClock
  }

  /** Pass `n` comes after pass `n - 1`, reading by reading. */
  predicate InOrder(ps: seq<Pass>, start: nat, n: nat)
    requires n < |ps|
  {
    Ordered(ps[n], PassStart(ps, start, n))
  }

  predicate Orderly(ps: seq<Pass>, start: nat) {
    forall n :: 0 <= n < |ps| ==> InOrder(ps, start, n)
  }

  // ---------------------------------------------------------------------------------------------
  // Status period

  lemma {:induction false} LastTxBefore(ps: seq<Pass>, start: nat, n: nat)
    requires Orderly(ps, start) && n < |ps|
    ensures start <= LastTx(ps, start, n) <= ps[n].dueClock
  {
    assert InOrder(ps, start, n);
    if n != 0 {
      assert InOrder(ps, start, n - 1);
      LastTxBefore(ps, start, n - 1);
    }
  }

  /** A status frame is only built when the transmit time is really at least 100 ticks old, however the tick wraps. */
  lemma StatusNotEarly(ps: seq<Pass>, start: nat, n: nat)
    requires Orderly(ps, start) && n < |ps| && Due(ps, start, n)
    ensures ps[n].dueClock - LastTx(ps, start, n) >= 100
  {
    LastTxBefore(ps, start, n);
    ElapsedTicks(ps[n].dueClock, LastTx(ps, start, n));
  }

  /** Status frames sent in the first `n` passes. */
  function FramesSent(ps: seq<Pass>, start: nat, n: nat): nat
    requires n <= |ps|
  {
    if n == 0 then 0 else FramesSent(ps, start, n - 1) + if Due(ps, start, n - 1) then 1 else 0
  }

  /** The transmit times advance by 100 ticks a frame or more: never more than one frame per 100 ticks on the whole. */
  lemma {:induction false} TransmitTimesAreSpaced(ps: seq<Pass>, start: nat, n: nat)
    requires Orderly(ps, start) && n <= |ps|
    ensures LastTx(ps, start, n) - start >= 100 * FramesSent(ps, start, n)
  {
    if n != 0 {
      TransmitTimesAreSpaced(ps, start, n - 1);
      assert InOrder(ps, start, n - 1);
      if Due(ps, start, n - 1) {
        StatusNotEarly(ps, start, n - 1);
      }
    }
  }

  lemma {:induction false} TransmitTimeKept(ps: seq<Pass>, start: nat, m: nat, n: nat)
    requires Orderly(ps, start) && m < n <= |ps| && Due(ps, start, m)
    ensures LastTx(ps, start, n) >= ps[m].stampClock
  {
    if m + 1 < n {
      TransmitTimeKept(ps, start, m, n - 1);
      assert InOrder(ps, start, n - 1);
      LastTxBefore(ps, start, n - 1);
    }
  }

  /** A frame is built at least 100 ticks after the transmit time of any earlier one, so two frames can only be
      closer than that by the time which the first one took from its transmit time to its timeout check. */
  lemma FramesApart(ps: seq<Pass>, start: nat, m: nat, n: nat)
    requires Orderly(ps, start) && m < n < |ps| && Due(ps, start, m) && Due(ps, start, n)
    ensures ps[n].lockoutClock - ps[m].stampClock >= 100
    ensures ps[n].statusClock - ps[m].statusClock >= 100 - (ps[m].statusClock - ps[m].stampClock)
  {
    TransmitTimeKept(ps, start, m, n);
    StatusNotEarly(ps, start, n);
    assert InOrder(ps, start, n);
  }

  /** They can be that close: a builder that is held up for 99 ticks is followed by the next frame one tick later. */
  lemma FramesCanCrowd()
    ensures var ps := [Pass([], 100, 100, 100, 199, 199), Pass([], 199, 200, 200, 200, 200)];
            && Orderly(ps, 0) && Due(ps, 0, 0) && Due(ps, 0, 1)
            && ps[1].statusClock - ps[0].statusClock == 1
  {
    var ps := [Pass([], 100, 100, 100, 199, 199), Pass([], 199, 200, 200, 200, 200)];
    assert InOrder(ps, 0, 0) && InOrder(ps, 0, 1);
    assert LastTx(ps, 0, 0) == 0 && LastTx(ps, 0, 1) == 100;
  }

  /** The due tests of consecutive passes are at most `gap` ticks apart. */
  predicate Brisk(ps: seq<Pass>, start: nat, gap: nat) {
    forall n :: 0 <= n < |ps| ==> ps[n].dueClock - DueFloor(ps, start, n) <= gap
  }

  /** With passes at most `gap` ticks apart a status frame is due exactly when the transmit time is really 100
      ticks old, and before it is 100 + gap ticks old. */
  lemma {:induction false} StatusNotLate(ps: seq<Pass>, start: nat, gap: nat, n: nat)
    requires Orderly(ps, start) && Brisk(ps, start, gap) && n < |ps| && gap <= 0x1_0000_0000 - 100
    ensures ps[n].dueClock - LastTx(ps, start, n) < 100 + gap
    ensures Due(ps, start, n) <==> ps[n].dueClock - LastTx(ps, start, n) >= 100
  {
    assert ps[n].dueClock - DueFloor(ps, start, n) <= gap;
    LastTxBefore(ps, start, n);
    if n != 0 {
      StatusNotLate(ps, start, gap, n - 1);
      assert InOrder(ps, start, n - 1);
    }
    ElapsedTicks(ps[n].dueClock, LastTx(ps, start, n));
  }

  // ---------------------------------------------------------------------------------------------
  // Supervision

  lemma {:induction false} LastCheckPrefix(es: seq<Event>, more: seq<Event>, start: nat, n: nat)
    requires n <= |es|
    ensures LastCheck(es + more, start, n) == LastCheck(es, start, n)
  {
    if n != 0 {
      LastCheckPrefix(es, more, start, n - 1);
      assert (es + more)[n - 1] == es[n - 1];
    }
  }

  /** Every event of `es` ends at most `gap` ticks after `floor`. */
  predicate Within(es: seq<Event>, floor: nat, gap: nat) {
    forall k :: 0 <= k < |es| ==> floor <= es[k].Last() <= floor + gap
  }

  lemma AppendOne(es: seq<Event>, e: Event, start: nat, gap: nat, floor: nat)
    requires Supervised(es, start, gap) && floor <= LastCheck(es, start, |es|)
    requires floor <= e.Last() <= floor + gap
    ensures Supervised(es + [e], start, gap) && floor <= LastCheck(es + [e], start, |es| + 1)
  {
    var fs := es + [e];
    LastCheckPrefix(es, [e], start, |es|);
    forall n | 0 <= n < |fs| ensures SupervisedAt(fs, start, gap, n) {
      LastCheckPrefix(es, [e], start, n);
      if n < |es| {
        assert fs[n] == es[n] && SupervisedAt(es, start, gap, n);
      } else {
        assert fs[n] == e;
      }
    }
  }

  /** Appending events that all come within `gap` of a clock that a check has already reached. */
  lemma {:induction false} AppendSupervised(es: seq<Event>, more: seq<Event>, start: nat, gap: nat, floor: nat)
    requires Supervised(es, start, gap) && floor <= LastCheck(es, start, |es|)
    requires Within(more, floor, gap)
    ensures Supervised(es + more, start, gap) && floor <= LastCheck(es + more, start, |es + more|)
  {
    if |more| == 0 {
      assert es + more == es;
    } else {
      var last := |more| - 1;
      AppendSupervised(es, more[..last], start, gap, floor);
      var fs := es + more[..last];
      AppendOne(fs, more[last], start, gap, floor);
      assert es + more == fs + [more[last]];
    }
  }

  lemma PassIsMonotone(p: Pass, due: bool, from: nat)
    requires Ordered(p, from)
    ensures Monotone(PassEvents(p, due), from)
    ensures forall k :: 0 <= k < |PassEvents(p, due)| ==> PassEvents(p, due)[k].Last() <= p.statusClock
  {
  }

  /** The clock never goes backwards over the passes of the loop. */
  lemma {:induction false} LoopIsMonotone(ps: seq<Pass>, start: nat, tx: nat, n: nat)
    requires Orderly(ps, start) && n <= |ps|
    ensures start <= PassStart(ps, start, n) && Monotone(LoopEvents(ps, tx, n), start)
    ensures forall k :: 0 <= k < |LoopEvents(ps, tx, n)| ==> LoopEvents(ps, tx, n)[k].Last() <= PassStart(ps, start, n)
  {
    if n != 0 {
      var p, due := ps[n - 1], Due(ps, tx, n - 1);
      LoopIsMonotone(ps, start, tx, n - 1);
      assert InOrder(ps, start, n - 1);
      PassIsMonotone(p, due, PassStart(ps, start, n - 1));
      AppendMonotone(LoopEvents(ps, tx, n - 1), PassEvents(p, due), start, PassStart(ps, start, n - 1));
    }
  }

  /** Pass `n` ends at most `gap` ticks after the timeout check of the pass before it. */
  predicate Timely(ps: seq<Pass>, start: nat, gap: nat, n: nat)
    requires n < |ps|
  {
    ps[n].statusClock <= PassFloor(ps, start, n) + gap
  }

  lemma PassIsWithin(ps: seq<Pass>, start: nat, due: bool, gap: nat, n: nat)
    requires Orderly(ps, start) && n < |ps| && Timely(ps, start, gap, n)
    ensures Within(ps[n].mail + [Checked(ps[n].checkClock)], PassFloor(ps, start, n), gap)
    ensures Within([Published(ps[n].lockoutClock, ps[n].statusClock)], ps[n].checkClock, gap)
    ensures PassFloor(ps, start, n) <= ps[n].checkClock
  {
    assert InOrder(ps, start, n);
    if n != 0 {
      assert InOrder(ps, start, n - 1);
    }
  }

  /** When every pass ends at most `gap` ticks after the timeout check of the pass before it, every event
      of the gateway comes at most `gap` ticks after a timeout check. */
  lemma {:induction false} LoopSupervises(ps: seq<Pass>, start: nat, tx: nat, gap: nat, n: nat)
    requires Orderly(ps, start) && n <= |ps|
    requires forall k :: 0 <= k < |ps| ==> Timely(ps, start, gap, k)
    ensures Supervised(LoopEvents(ps, tx, n), start, gap)
    ensures PassFloor(ps, start, n) <= LastCheck(LoopEvents(ps, tx, n), start, |LoopEvents(ps, tx, n)|)
  {
    if n != 0 {
      var m := n - 1;
      var p, es := ps[m], LoopEvents(ps, tx, m);
      LoopSupervises(ps, start, tx, gap, m);
      assert Timely(ps, start, gap, m);
      PassIsWithin(ps, start, Due(ps, tx, m), gap, m);
      var upTo := p.mail + [Checked(p.checkClock)];
      AppendSupervised(es, upTo, start, gap, PassFloor(ps, start, m));
      var fs := es + upTo;
      assert fs[|fs| - 1] == Checked(p.checkClock);
      if Due(ps, tx, m) {
        AppendSupervised(fs, [Published(p.lockoutClock, p.statusClock)], start, gap, p.checkClock);
        assert LoopEvents(ps, tx, n) == fs + [Published(p.lockoutClock, p.statusClock)];
      } else {
        assert LoopEvents(ps, tx, n) == fs;
      }
    }
  }

  /** The whole chain: a cyclic sender, a lossy bus and the CAN task. If every pass of the CAN task ends at most
      `gap` ticks after the timeout check of the pass before, frames are read at most `delay` ticks after
      they were sent, and 300 + gap + delay <= 16 periods, no loss pattern ever raises the freeze fault. */
  lemma LoopNeverFreezes(ps: seq<Pass>, start: nat, tx: nat, gap: nat, i: nat, sent: seq<Sent>, no: seq<nat>,
                         first: nat, period: nat, alive: nat, delay: nat)
    requires i < ECU_COUNT && Orderly(ps, start) && forall k :: 0 <= k < |ps| ==> Timely(ps, start, gap, k)
    requires Schedule(sent, EcuId(i), first, period, alive) && Delivers(LoopEvents(ps, tx, |ps|), i, sent, no, delay)
    requires 300 + gap + delay <= 16 * period && gap <= 0x1_0000_0000 - 300
    ensures var es := LoopEvents(ps, tx, |ps|);
            !RxAt(es, start, |es|).monitors[i].aliveError && RxAt(es, start, |es|).monitors[i].freezeCount == 0
  {
    var es := LoopEvents(ps, tx, |ps|);
    LoopIsMonotone(ps, start, tx, |ps|);
    LoopSupervises(ps, start, tx, gap, |ps|);
    LossNeverFreezes(es, start, i, sent, no, first, period, alive, delay, gap, |es|);
    MonitorsAreIndependent(es, start, i, |es|);
  }
}
