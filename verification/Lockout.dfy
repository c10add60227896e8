/** Failure streak and lockout over whole runs, against an unbounded clock. */
module Lockouts {
  import opened Bytes
  import opened Frames
  import opened OtaSpec
  import opened GatewaySpec
  import opened OtaInvariants
  import opened OtaTraces

  // ---------------------------------------------------------------------------------------------
  // What events do to the lockout

  /** Event `e` runs the lockout update. */
  predicate Observes(e: Event) {
    e.Published? || (e.Request? && WellFormed(e.request) && KnownCommand(e.request.data[0]))
  }

  /** Event `n` records a failure: a wrong key or a wrong authentication byte. */
  predicate Fails(t: Trace, n: nat)
    requires n < |t.events|
  {
    t.answers[n].Failure()
  }

  predicate Unlocks(t: Trace, n: nat)
    requires n < |t.events|
  {
    t.answers[n].Unlock()
  }

  /** The state once event `e` has updated the lockout. */
  function Observed(o: Ota, e: Event): Ota {
    if Observes(e) then UpdateLockout(o, Tick(e.First())) else o
  }

  /** Nothing but the last command and the response counter differs. */
  predicate Unmoved(o: Ota, o1: Ota) {
    o1 == o.(lastCommand := o1.lastCommand, responseCounter := o1.responseCounter)
  }

  /** What event `e`, answered with `a`, does to the failure streak and the lockout. */
  predicate SecurityLaw(o: Ota, e: Event, a: Answer, o1: Ota) {
    var u, s1 := Observed(o, e), o1.security;
    && SecurityOk(o.security) && SecurityOk(s1)
    && (a.Answer? <==> e.Request?)
    && (a.Failure() ==>
          && Observes(e) && !u.security.lockoutActive
          && s1.failureStreak == u.security.failureStreak + 1
          && (s1.lockoutActive ==> s1.lockoutStart == Tick(e.Last())))
    && s1.errorCounter == (if a.Failure() then Saturate(o.security.errorCounter) else o.security.errorCounter)
    && (a.Unlock() ==> Observes(e) && !u.security.lockoutActive && s1.failureStreak == 0)
    && (!a.Failure() && !a.Unlock() ==>
          && s1.failureStreak == u.security.failureStreak && s1.lockoutActive == u.security.lockoutActive
          && s1.lockoutStart == u.security.lockoutStart)
    && (u.security.lockoutActive ==>
          && Unmoved(u, o1)
          && (a.Answer? ==> a.code == NACK)
          && (a.Answer? && Observes(e) ==> a.detail == SECURITY_LOCKOUT))
  }

  predicate LawfulSecurity(t: Trace, n: nat)
    requires n < |t.events|
  {
    SecurityLaw(t.states[n], t.events[n], t.answers[n], t.states[n + 1])
  }

  predicate Secure(t: Trace) {
    && t.states[0] == InitOta()
    && forall n :: 0 <= n < |t.events| ==> LawfulSecurity(t, n)
  }

  /** The part of SecurityLaw that concerns the decision on a well-formed, known request. */
  predicate DecisionLaw(u: Ota, fail: nat, d: Decision) {
    var a, s1 := Answer(d.code, d.command, d.detail), d.ota.security;
    && SecurityOk(s1)
    && (a.Failure() ==>
          && !u.security.lockoutActive && s1.failureStreak == u.security.failureStreak + 1
          && (s1.lockoutActive ==> s1.lockoutStart == fail))
    && s1.errorCounter == (if a.Failure() then Saturate(u.security.errorCounter) else u.security.errorCounter)
    && (a.Unlock() ==> !u.security.lockoutActive && s1.failureStreak == 0)
    && (!a.Failure() && !a.Unlock() ==>
          && s1.failureStreak == u.security.failureStreak && s1.lockoutActive == u.security.lockoutActive
          && s1.lockoutStart == u.security.lockoutStart)
    && (u.security.lockoutActive ==> d.ota == u && d.code == NACK && d.detail == SECURITY_LOCKOUT)
  }

  lemma KnownDecision(u: Ota, request: Frame, fail: nat)
    requires OtaInv(u) && KnownCommand(request.data[0])
    ensures DecisionLaw(u, fail, DecideKnown(u, request, fail))
  {
    DecisionKeepsInv(u, request, fail);
  }

  lemma RequestIsSecure(o: Ota, e: Event)
    requires OtaInv(o) && e.Request?
    ensures var d := Decide(o, e.request, Tick(e.gateClock), Tick(e.failClock));
            SecurityLaw(o, e, Answer(d.code, d.command, d.detail), Answered(d))
  {
    if Observes(e) {
      var o1 := o.(lastCommand := e.request.data[0]);
      LockoutKeepsInv(o1, Tick(e.gateClock));
      KnownDecision(UpdateLockout(o1, Tick(e.gateClock)), e.request, Tick(e.failClock));
    }
  }

  lemma StepIsSecure(es: seq<Event>, n: nat)
    requires n < |es|
    ensures LawfulSecurity(TraceOf(es), n)
  {
    InvariantHolds(es, n);
    InvariantHolds(es, n + 1);
    if es[n].Request? {
      RequestIsSecure(OtaAt(es, n), es[n]);
    }
  }

  lemma RunsAreSecure(es: seq<Event>)
    ensures Secure(TraceOf(es))
  {
    forall n | 0 <= n < |es| ensures LawfulSecurity(TraceOf(es), n) {
      StepIsSecure(es, n);
    }
  }

  /** Wrong keys and wrong authentication bytes among the first `n` events. */
  function FailureCount(t: Trace, n: nat): nat
    requires n <= |t.events|
  {
    if n == 0 then 0 else FailureCount(t, n - 1) + if Fails(t, n - 1) then 1 else 0
  }

  /** The error counter counts exactly the failures of the whole run, up to 255. */
  lemma {:induction false} ErrorCounterIsHistory(t: Trace, n: nat)
    requires Secure(t) && n <= |t.events|
    ensures t.states[n].security.errorCounter as int == Min(0xFF, FailureCount(t, n))
  {
    if n != 0 {
      ErrorCounterIsHistory(t, n - 1);
      assert LawfulSecurity(t, n - 1);
    }
  }

  // ---------------------------------------------------------------------------------------------
  // The reference: the lockout on an unbounded clock

  /** Failures counted since the last unlock or expiry, and the clock of the latest of them. */
  datatype Lock = Lock(streak: nat, since: nat)

  const NO_LOCK := Lock(0, 0)

  function Expired(l: Lock, e: Event): bool {
    Observes(e) && l.streak == 3 && e.First() - l.since >= 3000
  }

  /** The lockout as the event history defines it: three failures without an unlock in between lock
      for 3000 ticks, seen at the next update. */
  function IdealLock(t: Trace, n: nat): Lock
    requires n <= |t.events|
  {
    if n == 0 then NO_LOCK
    else
      var e, l := t.events[n - 1], IdealLock(t, n - 1);
      var l1 := if Expired(l, e) then NO_LOCK else l;
      if Fails(t, n - 1) then Lock(l1.streak + 1, e.Last())
      else if Unlocks(t, n - 1) then NO_LOCK
      else l1
  }

  /** Clock of the latest lockout update before event `n`, or of initialisation. */
  function LastObserved(t: Trace, start: nat, n: nat): nat
    requires n <= |t.events|
  {
    if n == 0 then start
    else if Observes(t.events[n - 1]) then t.events[n - 1].First()
    else LastObserved(t, start, n - 1)
  }

  /** The lockout update runs at least once per 2^32 - 3000 ticks. */
  predicate LockoutPolled(t: Trace, start: nat) {
    forall n :: 0 <= n < |t.events| && Observes(t.events[n]) ==>
      t.events[n].First() - LastObserved(t, start, n) <= 0x1_0000_0000 - 3000
  }

  lemma {:induction false} LastObservedBounds(t: Trace, start: nat, n: nat)
    requires Monotone(t.events, start) && n <= |t.events|
    ensures start <= LastObserved(t, start, n)
    ensures n < |t.events| ==> LastObserved(t, start, n) <= t.events[n].First()
  {
    if n != 0 && !Observes(t.events[n - 1]) {
      LastObservedBounds(t, start, n - 1);
    }
  }

  /** The wrapping lockout follows the unbounded reference exactly. */
  lemma {:induction false} LockoutRefines(t: Trace, start: nat, n: nat)
    requires Secure(t) && Monotone(t.events, start) && LockoutPolled(t, start) && n <= |t.events|
    ensures var s, l := t.states[n].security, IdealLock(t, n);
            && s.failureStreak == l.streak
            && (s.lockoutActive <==> l.streak == 3)
            && (s.lockoutActive ==> s.lockoutStart == Tick(l.since) && LastObserved(t, start, n) - l.since < 3000)
            && (n < |t.events| ==> l.since <= t.events[n].First())
  {
    if n != 0 {
      var m := n - 1;
      var e, l := t.events[m], IdealLock(t, m);
      LockoutRefines(t, start, m);
      assert LawfulSecurity(t, m);
      if l.streak == 3 {
        ElapsedTicks(e.First(), l.since);
      }
      assert n < |t.events| ==> e.First() <= e.Last() <= t.events[n].First();
    }
  }

  /** Event `k` is the third failure, the one that starts a lockout. */
  predicate ThirdFailure(t: Trace, k: nat)
    requires k < |t.events|
  {
    Fails(t, k) && IdealLock(t, k + 1).streak == 3
  }

  /** The failure that a standing lock dates from. */
  lemma {:induction false} LockWitness(t: Trace, n: nat) returns (k: nat)
    requires Secure(t) && n <= |t.events| && IdealLock(t, n).streak == 3
    ensures k < n && ThirdFailure(t, k) && IdealLock(t, n).since == t.events[k].Last()
  {
    k := n - 1;
    if !Fails(t, k) {
      k := LockWitness(t, n - 1);
    }
  }

  lemma LockKeeps(t: Trace, m: nat, since: nat)
    requires Secure(t) && m < |t.events| && IdealLock(t, m) == Lock(3, since)
    requires t.states[m].security.lockoutActive && t.states[m].security.lockoutStart == Tick(since)
    requires since <= t.events[m].First() < since + 3000
    ensures IdealLock(t, m + 1) == Lock(3, since)
  {
    assert LawfulSecurity(t, m);
    ElapsedTicks(t.events[m].First(), since);
  }

  /** A lock stands until an update 3000 or more ticks after its third failure. */
  lemma {:induction false} LockStands(t: Trace, start: nat, k: nat, n: nat)
    requires Secure(t) && Monotone(t.events, start) && LockoutPolled(t, start) && k < n < |t.events|
    requires ThirdFailure(t, k) && t.events[n].First() - t.events[k].Last() < 3000
    ensures IdealLock(t, n) == Lock(3, t.events[k].Last())
  {
    if k + 1 < n {
      var m := n - 1;
      assert t.events[m].First() <= t.events[m].Last() <= t.events[n].First();
      LockStands(t, start, k, m);
      LockoutRefines(t, start, m);
      LockKeeps(t, m, t.events[k].Last());
    }
  }

  /** At each update the lockout is active exactly when fewer than 3000 ticks have passed since a
      third failure, for runs of any length, when updates come at least once per 2^32 - 3000 ticks. */
  lemma LockoutWindow(es: seq<Event>, start: nat, n: nat)
    requires Monotone(es, start) && LockoutPolled(TraceOf(es), start) && n < |es| && Observes(es[n])
    ensures Observed(OtaAt(es, n), es[n]).security.lockoutActive <==>
            exists k :: 0 <= k < n && ThirdFailure(TraceOf(es), k) && es[n].First() - es[k].Last() < 3000
  {
    var t := TraceOf(es);
    RunsAreSecure(es);
    LockoutRefines(t, start, n);
    var l := IdealLock(t, n);
    if l.streak == 3 {
      LastObservedBounds(t, start, n);
      ElapsedTicks(es[n].First(), l.since);
      var k := LockWitness(t, n);
    }
    if k :| 0 <= k < n && ThirdFailure(t, k) && es[n].First() - es[k].Last() < 3000 {
      LockStands(t, start, k, n);
    }
  }

  /** From a third failure until 3000 ticks later no event changes anything but the last command and
      the response counter, and every request is refused; this needs no proviso. */
  lemma {:induction false} LockoutFreezes(t: Trace, start: nat, k: nat, n: nat)
    requires Secure(t) && Monotone(t.events, start) && k < n <= |t.events|
    requires Fails(t, k) && t.states[k + 1].security.lockoutActive
    requires t.events[n - 1].First() - t.events[k].Last() < 3000
    ensures Unmoved(t.states[k + 1], t.states[n])
    ensures forall j :: k < j < n && t.events[j].Request? ==>
              && t.answers[j].Answer? && t.answers[j].code == NACK
              && (Observes(t.events[j]) ==> t.answers[j].detail == SECURITY_LOCKOUT)
  {
    assert LawfulSecurity(t, k);
    if k + 1 < n {
      var m := n - 1;
      assert m - 1 > k ==> t.events[m - 1].First() <= t.events[m].First();
      LockoutFreezes(t, start, k, m);
      assert LawfulSecurity(t, m);
      ElapsedTicks(t.events[m].First(), t.events[k].Last());
    }
  }

  lemma LockoutIsFrozen(es: seq<Event>, start: nat, k: nat, n: nat)
    requires Monotone(es, start) && k < n <= |es| && es[n - 1].First() - es[k].Last() < 3000
    requires Fails(TraceOf(es), k) && OtaAt(es, k + 1).security.lockoutActive
    ensures Unmoved(OtaAt(es, k + 1), OtaAt(es, n))
    ensures forall j :: k < j < n && es[j].Request? ==> TraceOf(es).answers[j].Answer? && TraceOf(es).answers[j].code == NACK
  {
    RunsAreSecure(es);
    LockoutFreezes(TraceOf(es), start, k, n);
  }

  /** Why updates must be that frequent: the first update after a silence of `d` ticks since the third
      failure keeps the lockout exactly when `d` modulo 2^32 is below 3000, so a lockout that should be
      over survives whenever a whole number of counter turns plus less than 3000 ticks have passed. */
  lemma LateUpdate(o: Ota, since: nat, d: nat)
    requires o.security.lockoutActive && o.security.lockoutStart == Tick(since)
    ensures UpdateLockout(o, Tick(since + d)).security.lockoutActive <==> d % 0x1_0000_0000 < 3000
    ensures UpdateLockout(o, Tick(since + 0x1_0000_0000)).security.lockoutActive
  {
    ElapsedTicks(since + d, since);
    ElapsedTicks(since + 0x1_0000_0000, since);
  }

  // ---------------------------------------------------------------------------------------------
  // Failure spacing

  /** The clock of the latest failure among the first `n` events. */
  function LastFailure(t: Trace, n: nat): nat
    requires n <= |t.events|
  {
    if n == 0 then 0 else if Fails(t, n - 1) then t.events[n - 1].Last() else LastFailure(t, n - 1)
  }

  /** An active lockout dates from the latest failure, whatever the tick has done since. */
  lemma {:induction false} LockoutDatesFromFailure(t: Trace, start: nat, n: nat)
    requires Secure(t) && Monotone(t.events, start) && n <= |t.events|
    ensures t.states[n].security.lockoutActive ==> t.states[n].security.lockoutStart == Tick(LastFailure(t, n))
    ensures n < |t.events| ==> LastFailure(t, n) <= t.events[n].First()
  {
    if n != 0 {
      LockoutDatesFromFailure(t, start, n - 1);
      assert LawfulSecurity(t, n - 1);
    }
  }

  lemma {:induction false} LastFailureAfter(t: Trace, start: nat, a: nat, n: nat)
    requires Monotone(t.events, start) && a < n <= |t.events| && Fails(t, a)
    ensures LastFailure(t, n) >= t.events[a].Last()
  {
    if !Fails(t, n - 1) {
      LastFailureAfter(t, start, a, n - 1);
    }
  }

  /** Less than 3000 ticks after a failure, only an unlock makes the streak shorter. */
  lemma {:induction false} StreakKept(t: Trace, start: nat, a: nat, b: nat, n: nat)
    requires Secure(t) && Monotone(t.events, start) && a < b <= n < |t.events| && Fails(t, a)
    requires forall j :: b <= j < n ==> !Unlocks(t, j)
    requires t.events[n].First() - t.events[a].Last() < 3000
    ensures t.states[b].security.failureStreak <= t.states[n].security.failureStreak
    ensures Observed(t.states[n], t.events[n]).security.failureStreak == t.states[n].security.failureStreak
  {
    LockoutDatesFromFailure(t, start, n);
    LastFailureAfter(t, start, a, n);
    ElapsedTicks(t.events[n].First(), LastFailure(t, n));
    if b < n {
      var m := n - 1;
      assert t.events[m].First() <= t.events[n].First();
      StreakKept(t, start, a, b, m);
      assert LawfulSecurity(t, m) && !Unlocks(t, m);
    }
  }

  /** Four failures with no unlock in between take at least 3000 ticks, however the tick wraps. */
  lemma FourFailures(t: Trace, start: nat, a: nat, b: nat, c: nat, d: nat)
    requires Secure(t) && Monotone(t.events, start) && a < b < c < d < |t.events|
    requires Fails(t, a) && Fails(t, b) && Fails(t, c) && Fails(t, d)
    requires forall j :: a < j < d ==> !Unlocks(t, j)
    ensures t.events[d].First() - t.events[a].Last() >= 3000
  {
    if t.events[d].First() - t.events[a].Last() < 3000 {
      assert LawfulSecurity(t, a) && LawfulSecurity(t, b) && LawfulSecurity(t, c) && LawfulSecurity(t, d);
      assert t.events[b].First() <= t.events[d].First() && t.events[c].First() <= t.events[d].First();
      StreakKept(t, start, a, a + 1, b);
      StreakKept(t, start, a, b + 1, c);
      StreakKept(t, start, a, c + 1, d);
    }
  }

  lemma FailureSpacing(es: seq<Event>, start: nat, a: nat, b: nat, c: nat, d: nat)
    requires Monotone(es, start) && a < b < c < d < |es|
    requires Fails(TraceOf(es), a) && Fails(TraceOf(es), b) && Fails(TraceOf(es), c) && Fails(TraceOf(es), d)
    requires forall j :: a < j < d ==> !Unlocks(TraceOf(es), j)
    ensures es[d].First() - es[a].Last() >= 3000
  {
    RunsAreSecure(es);
    FourFailures(TraceOf(es), start, a, b, c, d);
  }
}
