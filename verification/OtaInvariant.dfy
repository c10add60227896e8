/** The inductive invariant of the OTA and security machine, and what an accepted command tells. */
module OtaInvariants {
  import opened Bytes
  import opened Frames
  import opened OtaSpec
  import opened GatewaySpec

  predicate SecurityOk(s: Security) {
    && s.unlocked == !s.locked
    && (s.seedIssued ==> s.locked)
    && s.failureStreak <= 3
    && (s.lockoutActive <==> s.failureStreak == 3)
    && (s.lockoutActive ==> s.locked && !s.seedIssued)
  }

  /** The bytes behind the stored payload are all zero. */
  predicate ZeroTail(u: Upload) {
    forall k :: u.length <= k < BUFFER_SIZE ==> u.buffer[k] == 0
  }

  predicate Verified(u: Upload) {
    u.verifyOk && u.calculatedChecksum == u.expectedChecksum == XorAll(u.Stored())
  }

  /** Every state in which an upload is under way or done needs the unlock that only START tests. */
  predicate OtaInv(o: Ota) {
    && SecurityOk(o.security)
    && (o.security.seedIssued ==> o.state.Idle? || o.state.Failed?)
    && (o.security.locked ==> o.state.Idle? || o.state.Failed?)
    && (o.security.lockoutActive ==> o.state.Failed?)
    && (o.verifyPending <==> o.state.Verifying?)
    && (o.state.Verifying? || o.state.ReadyToActivate? || o.state.Success? ==> Verified(o.upload))
    && (o.upload.overflow ==> o.state.Failed?)
    && ZeroTail(o.upload)
    && o.version != 0
    && o.responseCounter < 16
  }

  lemma LockoutKeepsInv(o: Ota, tick: nat)
    requires OtaInv(o)
    ensures OtaInv(UpdateLockout(o, tick))
  {
  }

  lemma FailureKeepsInv(o: Ota, tick: nat)
    requires OtaInv(o) && !o.security.lockoutActive
    ensures OtaInv(RecordFailure(o, tick))
  {
  }

  lemma AppendKeepsTail(u: Upload, payload: seq<byte>)
    requires ZeroTail(u) && u.length + |payload| <= BUFFER_SIZE
    ensures ZeroTail(Append(u, payload)) && Append(u, payload).Stored() == u.Stored() + payload
  {
  }

  lemma CommandKeepsInv(o: Ota, request: Frame, tick: nat)
    requires OtaInv(o) && !o.security.lockoutActive
    ensures OtaInv(ApplyCommand(o, request, tick).ota)
  {
    if request.data[0] == CMD_DATA && o.state.Open() && request.data[2] <= PAYLOAD_MAX {
      var u := Authenticate(o.upload, o.security.seed, request);
      FailureKeepsInv(o.(upload := u), tick);
      if u.length + request.data[2] <= BUFFER_SIZE {
        AppendKeepsTail(u, Payload(request));
      }
    }
  }

  lemma RequestKeepsInv(o: Ota, request: Frame, gate: nat, fail: nat)
    requires OtaInv(o)
    ensures OtaInv(AfterRequest(o, request, gate, fail))
  {
    if WellFormed(request) && KnownCommand(request.data[0]) {
      var o1 := UpdateLockout(o.(lastCommand := request.data[0]), gate);
      LockoutKeepsInv(o.(lastCommand := request.data[0]), gate);
      DecisionKeepsInv(o1, request, fail);
    }
  }

  lemma DecisionKeepsInv(o: Ota, request: Frame, fail: nat)
    requires OtaInv(o)
    ensures OtaInv(DecideKnown(o, request, fail).ota)
  {
    if !o.security.lockoutActive {
      FailureKeepsInv(o, fail);
      CommandKeepsInv(o, request, fail);
    }
  }

  lemma EventKeepsInv(o: Ota, e: Event)
    requires OtaInv(o)
    ensures OtaInv(OtaAfter(o, e))
  {
    match e
    case Request(request, gate, fail) => RequestKeepsInv(o, request, Tick(gate), Tick(fail));
    case Published(lockout, _) => LockoutKeepsInv(o, Tick(lockout));
    case _ =>
  }

  /** The invariant holds in every reachable state, so only START needs to test the unlock: in every
      state where DATA, END or ACTIVATE can be accepted the session is unlocked. */
  lemma {:induction false} InvariantHolds(es: seq<Event>, n: nat)
    requires n <= |es|
    ensures OtaInv(OtaAt(es, n))
  {
    if n != 0 {
      InvariantHolds(es, n - 1);
      EventKeepsInv(OtaAt(es, n - 1), es[n - 1]);
    }
  }

  /** The state machine never takes its "verification failed" branch: publishing VERIFYING always
      leads to READY_TO_ACTIVATE. */
  lemma VerificationNeverFails(es: seq<Event>, n: nat, tick: nat)
    requires n <= |es| && OtaAt(es, n).state.Verifying?
    ensures AfterPublish(UpdateLockout(OtaAt(es, n), tick)).state.ReadyToActivate?
  {
    InvariantHolds(es, n);
  }
}
