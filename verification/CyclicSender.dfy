/** The simulated ECUs that send their status cyclically, and what the gateway makes of their alive counters. */
module CyclicSenders {
  import opened Bytes
  import opened Frames
  import opened RxSpec
  import opened GatewaySpec
  import opened SupervisionHistory
  import Capl

  /** A frame put on the bus at a clock. */
  datatype Sent = Sent(clock: nat, frame: Frame)

  /** Frame number `k` of a sender of `id` that starts at clock `first` with alive counter `alive`. */
  predicate OnSchedule(s: Sent, k: nat, id: nat, first: nat, period: nat, alive: nat) {
    && s.clock == first + k * period
    && s.frame.id == id && ChecksumOk(s.frame)
    && AliveNibble(s.frame) == (alive + k) % 16
  }

  /** `sent` is what such a sender emits, one frame per period. */
  predicate Schedule(sent: seq<Sent>, id: nat, first: nat, period: nat, alive: nat) {
    forall k :: 0 <= k < |sent| ==> OnSchedule(sent[k], k, id, first, period, alive)
  }

  class CyclicSender {
    const canId: nat
    const period: nat
    const message: CanMessage
    var alive: byte

    predicate Valid()
      reads this
    {
      message.Valid() && alive < 16
    }

    constructor (canId: nat, period: nat)
      ensures Valid() && this.canId == canId && this.period == period && alive == 0
      ensures fresh(message) && fresh(message.data)
    {
      this.canId, this.period := canId, period;
      message := new CanMessage();
      alive := 0;
    }

    /** Fills the status message in place, outputs it and steps the alive counter. */
    method SendStatus(payload: seq<byte>) returns (output: Frame)
      requires Valid() && |payload| == 6
      modifies this`alive, message, message.data
      ensures Valid() && alive == (old(alive) + 1) % 16
      ensures output.id == canId && ChecksumOk(output)
      ensures output.data[..6] == payload && AliveNibble(output) == old(alive)
    {
      var nibble := alive % 16;
      assert nibble == alive && nibble % 16 == nibble;
      message.Write(canId, payload[0], payload[1], payload[2], payload[3], payload[4], payload[5], nibble);
      var d := message.data;
      ghost var body := d[..CHECKSUM_BYTE];
      var checksum := Capl.CalcChecksum(canId, d[0], d[1], d[2], d[3], d[4], d[5], d[6]);
      assert body == [d[0], d[1], d[2], d[3], d[4], d[5], d[6]];
      d[CHECKSUM_BYTE] := checksum;
      output := Frame(0, canId, 8, d[..]);
      assert output.data[..CHECKSUM_BYTE] == body;
      assert output.data[..6] == body[..6] == payload;
      assert output.data[ALIVE_COUNTER_BYTE] == body[ALIVE_COUNTER_BYTE] == nibble;
      alive := (alive + 1) % 16;
    }

    /** Sends one frame; it is number `k` of the schedule when the clock and the counter are. */
    method SendOnTimer(payload: seq<byte>, clock: nat, ghost k: nat, ghost first: nat, ghost alive0: nat) returns (s: Sent)
      requires Valid() && |payload| == 6
      requires clock == first + k * period && alive == (alive0 + k) % 16
      modifies this`alive, message, message.data
      ensures Valid() && alive == (alive0 + k + 1) % 16
      ensures OnSchedule(s, k, canId, first, period, alive0)
    {
      var output := SendStatus(payload);
      s := Sent(clock, output);
      NextCount(alive0 + k);
    }

    /** Sends at start and then each time the timer, always set to the same period, runs out. */
    method Run(first: nat, payloads: seq<seq<byte>>) returns (sent: seq<Sent>)
      requires Valid() && forall k :: 0 <= k < |payloads| ==> |payloads[k]| == 6
      modifies this`alive, message, message.data
      ensures Valid() && |sent| == |payloads| && Schedule(sent, canId, first, period, old(alive))
    {
      sent := [];
      var clock := first;
      ghost var alive0 := alive;
      while |sent| < |payloads|
        invariant Valid() && |sent| <= |payloads|
        invariant Schedule(sent, canId, first, period, alive0)
        invariant clock == first + |sent| * period
        invariant alive == (alive0 + |sent|) % 16
      {
        var s := SendOnTimer(payloads[|sent|], clock, |sent|, first, alive0);
        NextPeriod(|sent|, period);
        sent := sent + [s];
        clock := clock + period;
      }
    }
  }

  lemma NextPeriod(k: nat, period: nat)
    ensures (k + 1) * period == k * period + period
  {
  }

  // ---------------------------------------------------------------------------------------------
  // Composition with the gateway

  /** The valid frames of ECU `i` in the run are, in order, some of the frames sent: event `n` delivers
      number `no[n]`, at most `delay` ticks after it was sent. Frames may be lost at will. */
  predicate Delivers(es: seq<Event>, i: nat, sent: seq<Sent>, no: seq<nat>, delay: nat) {
    && |no| == |es|
    && (forall n :: 0 <= n < |es| && ValidFrom(i, es[n]) ==>
          && no[n] < |sent| && es[n].msg == sent[no[n]].frame
          && sent[no[n]].clock <= es[n].clock <= sent[no[n]].clock + delay)
    && (forall m, n :: 0 <= m < n < |es| && ValidFrom(i, es[m]) && ValidFrom(i, es[n]) ==> no[m] < no[n])
  }

  /** Event `n` comes at most `gap` ticks after the timeout check before it. */
  predicate SupervisedAt(es: seq<Event>, start: nat, gap: nat, n: nat)
    requires n < |es|
  {
    es[n].Last() - LastCheck(es, start, n) <= gap
  }

  predicate Supervised(es: seq<Event>, start: nat, gap: nat) {
    forall n :: 0 <= n < |es| ==> SupervisedAt(es, start, gap, n)
  }

  lemma SupervisedIsPolled(es: seq<Event>, start: nat, gap: nat)
    requires Supervised(es, start, gap) && gap <= 0x1_0000_0000 - 300
    ensures Polled(es, start, 0x1_0000_0000 - 300)
  {
    forall k | 0 <= k < |es| && IsCheck(es[k]) ensures es[k].Last() - LastCheck(es, start, k) <= 0x1_0000_0000 - 300 {
      assert SupervisedAt(es, start, gap, k);
    }
  }

  /** The latest valid frame before event `n`. */
  lemma {:induction false} LastValid(es: seq<Event>, start: nat, i: nat, n: nat) returns (p: nat)
    requires n <= |es| && Heard(es, i, n)
    ensures p < n && ValidFrom(i, es[p])
    ensures LastHeard(es, start, i, n) == es[p].clock && LastNibble(es, i, n) == AliveNibble(es[p].msg)
  {
    p := n - 1;
    if !ValidFrom(i, es[p]) {
      HeardGrows(es, i, n);
      p := LastValid(es, start, i, n - 1);
    }
  }

  lemma SameNibble(a: nat, b: nat, alive: nat)
    requires a < b && (alive + a) % 16 == (alive + b) % 16
    ensures b - a >= 16
  {
  }

  lemma PeriodsApart(a: nat, b: nat, period: nat)
    requires b - a >= 16
    ensures b * period - a * period >= 16 * period
  {
    assert (b - a - 16) * period >= 0;
    assert b * period == (b - a - 16) * period + a * period + 16 * period;
  }

  /** Frames with the same nibble are sent at least sixteen periods apart. */
  lemma SixteenPeriods(s: Sent, r: Sent, a: nat, b: nat, id: nat, first: nat, period: nat, alive: nat)
    requires OnSchedule(s, a, id, first, period, alive) && OnSchedule(r, b, id, first, period, alive)
    requires a < b && AliveNibble(s.frame) == AliveNibble(r.frame)
    ensures r.clock - s.clock >= 16 * period
  {
    SameNibble(a, b, alive);
    PeriodsApart(a, b, period);
  }

  /** A valid frame that repeats the nibble of the one before comes only after a silence that a check has reached. */
  lemma NoRepeat(es: seq<Event>, start: nat, i: nat, sent: seq<Sent>, no: seq<nat>,
                 first: nat, period: nat, alive: nat, delay: nat, gap: nat, n: nat)
    requires Schedule(sent, EcuId(i), first, period, alive) && Delivers(es, i, sent, no, delay)
    requires Supervised(es, start, gap) && 300 + gap + delay <= 16 * period
    requires n < |es| && ValidFrom(i, es[n]) && Heard(es, i, n) && AliveNibble(es[n].msg) == LastNibble(es, i, n)
    ensures Silent(es, start, i, n)
  {
    if !Silent(es, start, i, n) {
      assert SupervisedAt(es, start, gap, n);
      var p := LastValid(es, start, i, n);
      var s, r := sent[no[p]], sent[no[n]];
      assert r.clock - s.clock >= 16 * period by {
        SixteenPeriods(s, r, no[p], no[n], EcuId(i), first, period, alive);
      }
    }
  }

  /** A cyclic sender whose 4-bit alive counter steps by one per period never raises the freeze fault,
      however many of its frames are lost, when every event comes at most `gap` ticks after a timeout
      check, frames are delivered at most `delay` ticks late, and 300 + gap + delay <= 16 periods. */
  lemma {:induction false} LossNeverFreezes(es: seq<Event>, start: nat, i: nat, sent: seq<Sent>, no: seq<nat>,
                                            first: nat, period: nat, alive: nat, delay: nat, gap: nat, n: nat)
    requires Monotone(es, start) && n <= |es|
    requires Schedule(sent, EcuId(i), first, period, alive) && Delivers(es, i, sent, no, delay)
    requires Supervised(es, start, gap) && gap <= 0x1_0000_0000 - 300
    requires 300 + gap + delay <= 16 * period
    ensures MonitorAt(es, start, i, n).freezeCount == 0 && !MonitorAt(es, start, i, n).aliveError
  {
    SupervisedIsPolled(es, start, gap);
    forall k | 0 <= k < n ensures !RepeatsBaseline(es, start, i, k) {
      if RepeatsBaseline(es, start, i, k) {
        NoRepeat(es, start, i, sent, no, first, period, alive, delay, gap, k);
        TimeoutsAreSilences(es, start, i, k);
      }
    }
    NeverRepeats(es, start, i, n);
    FreezeCountIsHistory(es, start, i, n);
    AliveErrorIsHistory(es, start, i, n);
  }

  lemma {:induction false} NeverRepeats(es: seq<Event>, start: nat, i: nat, n: nat)
    requires n <= |es| && forall k :: 0 <= k < n ==> !RepeatsBaseline(es, start, i, k)
    ensures Repeats(es, start, i, n) == 0 && !Frozen(es, start, i, n)
  {
    if n != 0 {
      NeverRepeats(es, start, i, n - 1);
    }
  }

  // ---------------------------------------------------------------------------------------------
  // The bound is tight

  /** The timetable of a sender of ECU `i` whose frame number 0 leaves at clock 0. */
  function Timetable(i: nat, period: nat, n: nat): seq<Sent> {
    seq(n, k requires 0 <= k < n => Sent(k * period, AliveFrame(i, k % 16)))
  }

  /** Only every sixteenth frame arrives, and the checks come just too early to see the silences. */
  function TightRun(i: nat, period: nat): seq<Event> {
    var f, turn := AliveFrame(i, 0), 16 * period;
    [Received(f, 0), Checked(299),
     Received(f, turn), Checked(turn), Checked(turn + 299),
     Received(f, 2 * turn), Checked(2 * turn), Checked(2 * turn + 299),
     Received(f, 3 * turn)]
  }

  const TIGHT_NUMBERS: seq<nat> := [0, 0, 16, 0, 0, 32, 0, 0, 48]

  lemma TimetableIsSchedule(i: nat, period: nat, n: nat)
    requires i < ECU_COUNT
    ensures Schedule(Timetable(i, period, n), EcuId(i), 0, period, 0)
  {
    forall k | 0 <= k < n ensures OnSchedule(Timetable(i, period, n)[k], k, EcuId(i), 0, period, 0) {
      AliveFrameIsValid(i, k % 16);
    }
  }

  lemma FrameInTime(i: nat, period: nat, turns: nat)
    requires turns < 4
    ensures Timetable(i, period, 49)[16 * turns] == Sent(turns * (16 * period), AliveFrame(i, 0))
  {
    SixteenTurns(turns, period);
  }

  lemma SixteenTurns(turns: nat, period: nat)
    ensures (16 * turns) * period == turns * (16 * period) && (16 * turns) % 16 == 0
  {
  }

  lemma TightRunDelivers(i: nat, period: nat)
    requires i < ECU_COUNT
    ensures Delivers(TightRun(i, period), i, Timetable(i, period, 49), TIGHT_NUMBERS, 0)
  {
    FrameInTime(i, period, 0);
    FrameInTime(i, period, 1);
    FrameInTime(i, period, 2);
    FrameInTime(i, period, 3);
    OnTime(TightRun(i, period), i, Timetable(i, period, 49));
  }

  lemma OnTime(es: seq<Event>, i: nat, sent: seq<Sent>)
    requires |es| == 9 && |sent| == 49 && forall n :: 0 <= n < 9 && es[n].Received? ==> n == 0 || n == 2 || n == 5 || n == 8
    requires es[0] == Received(sent[0].frame, sent[0].clock) && es[2] == Received(sent[16].frame, sent[16].clock)
    requires es[5] == Received(sent[32].frame, sent[32].clock) && es[8] == Received(sent[48].frame, sent[48].clock)
    ensures Delivers(es, i, sent, TIGHT_NUMBERS, 0)
  {
  }

  lemma CheckStep(es: seq<Event>, n: nat)
    requires n < |es|
    ensures LastCheck(es, 0, n + 1) == if IsCheck(es[n]) then es[n].Last() else LastCheck(es, 0, n)
  {
  }

  /** A frame within the bound and the two checks that follow it at once and 299 ticks later. */
  lemma TurnIsSupervised(es: seq<Event>, n: nat, clock: nat, gap: nat)
    requires n + 2 < |es| && es[n].Received? && es[n].clock == clock <= LastCheck(es, 0, n) + gap
    requires es[n + 1] == Checked(clock) && es[n + 2] == Checked(clock + 299) && gap >= 299
    ensures SupervisedAt(es, 0, gap, n) && SupervisedAt(es, 0, gap, n + 1) && SupervisedAt(es, 0, gap, n + 2)
    ensures LastCheck(es, 0, n + 3) == clock + 299
  {
    CheckStep(es, n);
    CheckStep(es, n + 1);
    CheckStep(es, n + 2);
  }

  lemma TightRunIsSupervised(i: nat, period: nat)
    requires 16 * period >= 598
    ensures Monotone(TightRun(i, period), 0) && Supervised(TightRun(i, period), 0, 16 * period + 1 - 300)
  {
    var es, turn := TightRun(i, period), 16 * period;
    var gap := turn - 299;
    CheckStep(es, 0);
    CheckStep(es, 1);
    TurnIsSupervised(es, 2, turn, gap);
    TurnIsSupervised(es, 5, 2 * turn, gap);
    forall n | 0 <= n < |es| ensures SupervisedAt(es, 0, gap, n) {
      assert n == 0 || n == 1 || 2 <= n < 5 || 5 <= n < 8 || n == 8;
    }
  }

  /** One frame and the checks that follow it within 299 ticks. */
  lemma TightStep(es: seq<Event>, i: nat, n: nat, clock: nat)
    requires i < ECU_COUNT && n + 1 < |es| && es[n] == Received(AliveFrame(i, 0), clock)
    requires es[n + 1].Checked? && clock <= es[n + 1].clock <= clock + 299
    ensures MonitorAt(es, 0, i, n + 2) == MonitorAt(es, 0, i, n + 1)
    ensures n + 2 < |es| && es[n + 2].Checked? && clock <= es[n + 2].clock <= clock + 299 ==>
              MonitorAt(es, 0, i, n + 3) == MonitorAt(es, 0, i, n + 1)
  {
    AliveFrameStep(es, i, n, 0, clock);
    ElapsedTicks(es[n + 1].clock, clock);
    if n + 2 < |es| && es[n + 2].Checked? && clock <= es[n + 2].clock <= clock + 299 {
      ElapsedTicks(es[n + 2].clock, clock);
    }
  }

  lemma TightRunFreezes(es: seq<Event>, i: nat, period: nat)
    requires i < ECU_COUNT && es == TightRun(i, period)
    ensures MonitorAt(es, 0, i, 9).freezeCount == 3 && MonitorAt(es, 0, i, 9).aliveError
  {
    var turn := 16 * period;
    AliveFrameStep(es, i, 0, 0, 0);
    TightStep(es, i, 0, 0);
    AliveFrameStep(es, i, 2, 0, turn);
    TightStep(es, i, 2, turn);
    AliveFrameStep(es, i, 5, 0, 2 * turn);
    TightStep(es, i, 5, 2 * turn);
    AliveFrameStep(es, i, 8, 0, 3 * turn);
  }

  /** With one tick more than LossNeverFreezes allows, no delay and the same checks otherwise, losing fifteen
      frames in sixteen raises the freeze fault: for every ECU and every period of 38 ticks or more. */
  lemma LossBoundIsTight(i: nat, period: nat)
    requires i < ECU_COUNT && period >= 38
    ensures var es, gap := TightRun(i, period), 16 * period + 1 - 300;
            && Monotone(es, 0) && Supervised(es, 0, gap)
            && Schedule(Timetable(i, period, 49), EcuId(i), 0, period, 0)
            && Delivers(es, i, Timetable(i, period, 49), TIGHT_NUMBERS, 0)
            && MonitorAt(es, 0, i, |es|).aliveError
  {
    TimetableIsSchedule(i, period, 49);
    TightRunDelivers(i, period);
    TightRunIsSupervised(i, period);
    TightRunFreezes(TightRun(i, period), i, period);
  }
}
