/** The counter scheduler: a 10 ms loop that derives the 100 ms and 1000 ms counts from its own cycle. */
module Schedulers {
  import opened Bytes

  const TEN := 10
  const HUNDRED := 100

  /** The four counters after `n` iterations. */
  datatype Counts = Counts(count10ms: nat, count100ms: nat, count1000ms: nat, lastCycle: nat)

  /** Plain division of the iteration number, each counter modulo 2^32; the published cycle runs 1..100. */
  function CountsAfter(n: nat): Counts {
    Counts(n % 0x1_0000_0000, n / 10 % 0x1_0000_0000, n / 100 % 0x1_0000_0000, if n == 0 then 0 else (n - 1) % 100 + 1)
  }

  class ComScheduler {
    var gComScheduler10msCount: nat
    var gComScheduler100msCount: nat
    var gComScheduler1000msCount: nat
    var gComSchedulerLastCycle10ms: nat

    constructor ()
      ensures View() == CountsAfter(0)
    {
      gComScheduler10msCount, gComScheduler100msCount := 0, 0;
      gComScheduler1000msCount, gComSchedulerLastCycle10ms := 0, 0;
    }

    function View(): Counts
      reads this
    {
      Counts(gComScheduler10msCount, gComScheduler100msCount, gComScheduler1000msCount, gComSchedulerLastCycle10ms)
    }

    method Task10ms()
      modifies this`gComScheduler10msCount
      ensures gComScheduler10msCount == (old(gComScheduler10msCount) + 1) % WRAP
    {
      gComScheduler10msCount := (gComScheduler10msCount + 1) % WRAP;
    }

    method Task100ms()
      modifies this`gComScheduler100msCount
      ensures gComScheduler100msCount == (old(gComScheduler100msCount) + 1) % WRAP
    {
      gComScheduler100msCount := (gComScheduler100msCount + 1) % WRAP;
    }

    method Task1000ms()
      modifies this`gComScheduler1000msCount
      ensures gComScheduler1000msCount == (old(gComScheduler1000msCount) + 1) % WRAP
    {
      gComScheduler1000msCount := (gComScheduler1000msCount + 1) % WRAP;
    }

    /** The first `iterations` rounds of the endless scheduler loop. The cycle counter is put back to 0
        at 100, so it stays below 100 and both divisions stay exact when the 10 ms counter wraps. */
    method SchedulerTask(iterations: nat)
      requires View() == CountsAfter(0)
      modifies this
      ensures View() == CountsAfter(iterations)
    {
      var cycle10ms := 0;
      var round := 0;
      while round < iterations
        invariant 0 <= round <= iterations
        invariant cycle10ms == round % HUNDRED
        invariant View() == CountsAfter(round)
      {
        NextRound(round);
        Task10ms();
        cycle10ms := cycle10ms + 1;
        gComSchedulerLastCycle10ms := cycle10ms;
        if cycle10ms % TEN == 0 {
          Task100ms();
        }
        if cycle10ms % HUNDRED == 0 {
          Task1000ms();
          cycle10ms := 0;
        }
        round := round + 1;
      }
    }
  }

  /** When the cycle counter of round `n` triggers a slower task, the true quotient steps, and only then. */
  lemma NextRound(n: nat)
    ensures var c := n % 100 + 1;
            && (n + 1) / 10 == n / 10 + (if c % 10 == 0 then 1 else 0)
            && (n + 1) / 100 == n / 100 + (if c % 100 == 0 then 1 else 0)
            && (n + 1) % 100 == (if c % 100 == 0 then 0 else c)
    ensures forall q: nat :: (q % WRAP + 1) % WRAP == (q + 1) % WRAP
  {
  }
}
