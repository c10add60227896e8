/** Where the host models and the firmware agree, and exactly where they do not. */
module HostAgreement {
  import opened Bytes
  import opened Frames
  import opened OtaSpec
  import opened RxSpec
  import opened GatewaySpec
  import opened OtaInvariants
  import opened OtaTraces
  import opened Lockouts
  import opened HostSpec
  import History = SupervisionHistory

  // ---------------------------------------------------------------------------------------------
  // GatewayModel

  /** The host gateway follows event `e`: its clock is advanced to the event's, then it receives or checks. */
  function HostGatewayAfter(h: HostGateway, e: Event, start: nat): HostGateway
    requires start <= e.Last()
  {
    var h1 := h.(nowMs := e.Last() - start);
    if e.Received? then HostReceive(h1, e.msg)
    else if e.Checked? || e.Published? then HostCheckTimeouts(h1)
    else h1
  }

  function HostGatewayAt(es: seq<Event>, start: nat, n: nat): HostGateway
    requires n <= |es| && Monotone(es, start)
  {
    if n == 0 then InitHostGateway() else HostGatewayAfter(HostGatewayAt(es, start, n - 1), es[n - 1], start)
  }

  /** The model's running checksum is the firmware's XOR of the same bytes. */
  lemma {:induction false} ChecksumsAgree(id: nat, items: seq<byte>)
    ensures HostChecksum(id, items) == Xor(LowByte(id), XorAll(items))
  {
    if |items| == 0 {
      XorUnit(LowByte(id));
    } else {
      var last := |items| - 1;
      ChecksumsAgree(id, items[..last]);
      XorAssoc(LowByte(id), XorAll(items[..last]), items[last]);
    }
  }

  /** Same timeout, baseline, freeze count and alive fault; a firmware checksum fault is one of the model too. */
  predicate SameMonitor(m: Monitor, h: HostMonitor) {
    && h.timeoutError == m.timeoutError
    && h.aliveInitialized == m.aliveInitialized
    && h.lastAlive == m.lastAlive
    && h.freezeCount == m.freezeCount
    && h.aliveError == m.aliveError
    && (m.checksumError ==> h.checksumError)
  }

  /** The host's record of ECU `i`. */
  function HostMonitorAfter(h: HostMonitor, i: nat, e: Event, start: nat): HostMonitor
    requires start <= e.Last()
  {
    if History.ValidFrom(i, e) then h.Accept(AliveNibble(e.msg), e.clock - start)
    else if History.InvalidFrom(i, e) then h.(checksumError := true)
    else if History.IsCheck(e) then h.CheckTimeout(e.Last() - start)
    else h
  }

  lemma HostMonitorStep(h: HostGateway, i: nat, e: Event, start: nat)
    requires h.monitors.Keys == MonitoredIds() && i < ECU_COUNT && start <= e.Last()
    ensures HostGatewayAfter(h, e, start).monitors.Keys == MonitoredIds()
    ensures HostGatewayAfter(h, e, start).monitors[EcuId(i)] == HostMonitorAfter(h.monitors[EcuId(i)], i, e, start)
  {
    if e.Received? {
      ChecksumsAgree(e.msg.id, e.msg.data[..7]);
      IdsAreDistinct(i, e.msg.id);
    }
  }

  lemma IdsAreDistinct(i: nat, id: nat)
    requires i < ECU_COUNT
    ensures EcuId(i) in MonitoredIds() && EcuId(i) == 0x101 + 0x100 * i && (id == 0x101 + 0x100 * i ==> id in MonitoredIds())
  {
  }

  lemma MonitorLockstep(m: Monitor, h: HostMonitor, i: nat, e: Event, start: nat)
    requires SameMonitor(m, h) && start <= e.Last()
    requires m.timeoutError ==> !m.aliveInitialized && m.freezeCount == 0
    requires History.IsCheck(e) ==>
               ((m.CheckTimeout(Tick(e.Last())).timeoutError <==> e.Last() - start - h.lastRxMs >= 300))
    ensures SameMonitor(History.MonitorAfter(m, i, e), HostMonitorAfter(h, i, e, start))
  {
  }

  function HostMonitorAt(es: seq<Event>, start: nat, i: nat, n: nat): HostMonitor
    requires n <= |es| && Monotone(es, start)
  {
    if n == 0 then FRESH_MONITOR else HostMonitorAfter(HostMonitorAt(es, start, i, n - 1), i, es[n - 1], start)
  }

  lemma {:induction false} HostMonitorsAreIndependent(es: seq<Event>, start: nat, i: nat, n: nat)
    requires n <= |es| && Monotone(es, start) && i < ECU_COUNT
    ensures HostGatewayAt(es, start, n).monitors.Keys == MonitoredIds()
    ensures HostGatewayAt(es, start, n).monitors[EcuId(i)] == HostMonitorAt(es, start, i, n)
  {
    if n != 0 {
      HostMonitorsAreIndependent(es, start, i, n - 1);
      HostMonitorStep(HostGatewayAt(es, start, n - 1), i, es[n - 1], start);
    }
  }

  lemma {:induction false} MonitorsAgree(es: seq<Event>, start: nat, i: nat, n: nat)
    requires Monotone(es, start) && History.Polled(es, start, 0x1_0000_0000 - 300) && n <= |es|
    ensures SameMonitor(History.MonitorAt(es, start, i, n), HostMonitorAt(es, start, i, n))
    ensures HostMonitorAt(es, start, i, n).lastRxMs == History.LastHeard(es, start, i, n) - start
  {
    if n != 0 {
      var e := es[n - 1];
      MonitorsAgree(es, start, i, n - 1);
      History.BaselineIsHistory(es, start, i, n - 1);
      if History.IsCheck(e) {
        History.TimeoutAfterCheck(es, start, i, n - 1);
      }
      MonitorLockstep(History.MonitorAt(es, start, i, n - 1), HostMonitorAt(es, start, i, n - 1), i, e, start);
    }
  }

  /** In every run, with checks at most 2^32 - 300 ticks apart, every monitor of the host model is in the
      firmware's state. */
  lemma GatewayModelAgrees(es: seq<Event>, start: nat, i: nat, n: nat)
    requires Monotone(es, start) && History.Polled(es, start, 0x1_0000_0000 - 300) && n <= |es| && i < ECU_COUNT
    ensures HostGatewayAt(es, start, n).monitors.Keys == MonitoredIds()
    ensures SameMonitor(RxAt(es, start, n).monitors[i], HostGatewayAt(es, start, n).monitors[EcuId(i)])
  {
    History.MonitorsAreIndependent(es, start, i, n);
    HostMonitorsAreIndependent(es, start, i, n);
    MonitorsAgree(es, start, i, n);
  }

  /** The blocked counters agree in every run, with no proviso. */
  lemma {:induction false} BlockedCountAgrees(es: seq<Event>, start: nat, n: nat)
    requires Monotone(es, start) && n <= |es|
    ensures HostGatewayAt(es, start, n).monitors.Keys == MonitoredIds()
    ensures HostGatewayAt(es, start, n).blocked == RxAt(es, start, n).blocked
  {
    if n != 0 {
      BlockedCountAgrees(es, start, n - 1);
      if es[n - 1].Received? {
        ChecksumsAgree(es[n - 1].msg.id, es[n - 1].msg.data[..7]);
      }
    }
  }

  /** The model's checksum fault never recovers: it differs from the firmware's exactly when the ECU has
      sent five or more valid frames since an invalid one. */
  lemma {:induction false} ModelChecksumNeverRecovers(es: seq<Event>, start: nat, i: nat, n: nat)
    requires Monotone(es, start) && n <= |es|
    ensures HostMonitorAt(es, start, i, n).checksumError <==> History.ValidSinceFault(es, i, n) >= 0
    ensures HostMonitorAt(es, start, i, n).checksumError != History.MonitorAt(es, start, i, n).checksumError <==>
            History.ValidSinceFault(es, i, n) >= 5
  {
    History.ChecksumFaultIsHistory(es, start, i, n);
    if n != 0 {
      ModelChecksumNeverRecovers(es, start, i, n - 1);
    }
  }

  // ---------------------------------------------------------------------------------------------
  // OtaModel

  /** The model holds the firmware's session; its verification flags only matter while they can be used. */
  predicate Mirrors(h: HostOta, o: Ota) {
    && h.state == o.state && h.version == o.version
    && h.unlocked == o.security.unlocked && h.locked == o.security.locked
    && h.seed == o.security.seed && h.seedIssued == o.security.seedIssued
    && h.errorCounter == o.security.errorCounter && h.failureStreak == o.security.failureStreak
    && h.lockoutActive == o.security.lockoutActive
    && h.responseCounter == o.responseCounter
    && h.buffer == o.upload.Stored()
    && (o.state.Verifying? ==> h.verifyPending && h.verifyOk)
    && (o.state.ReadyToActivate? ==> h.verifyOk)
  }

  /** The model's answer to the bytes of a request frame. */
  function HostOnFrame(h: HostOta, request: Frame): HostVerdict {
    HostDecide(h, request.data[0], request.data[1], request.data[2], request.data[3],
               request.data[PAYLOAD_OFFSET..PAYLOAD_OFFSET + PAYLOAD_MAX])
  }

  /** The requests on which model and firmware agree, in a state `u` whose lockout is up to date. */
  predicate InDomain(u: Ota, request: Frame) {
    var command := request.data[0];
    if u.security.lockoutActive then KnownCommand(command)
    else
      && command != CMD_ABORT
      && (command == CMD_SEND_KEY ==> u.security.seedIssued)
      && (command == CMD_END ==> u.state.Open())
      && (command == CMD_DATA && u.state.Open() ==> request.data[2] <= PAYLOAD_MAX)
  }

  predicate SameAnswer(d: Decision, v: HostVerdict) {
    d.code == v.code && d.detail == v.detail
  }

  /** What agreement means for one request: same answer, same session, same lockout clock. */
  predicate Agree(h: HostOta, d: Decision, v: HostVerdict) {
    && SameAnswer(d, v) && Mirrors(v.host, d.ota) && v.host.nowMs == h.nowMs
    && (v.host.lockoutActive ==> v.host.lockoutStartMs == if h.lockoutActive then h.lockoutStartMs else h.nowMs)
  }

  lemma FailuresAgree(u: Ota, h: HostOta, tick: nat)
    requires SecurityOk(u.security) && Mirrors(h, u) && !u.security.lockoutActive
    ensures var u1, h1 := RecordFailure(u, tick).(verifyPending := false, state := Failed), HostRecordFailure(h).(state := Failed);
            && Mirrors(h1, u1) && h1.nowMs == h.nowMs && (h1.lockoutActive ==> h1.lockoutStartMs == h.nowMs)
  {
  }

  lemma DataAgrees(u: Ota, h: HostOta, request: Frame, fail: nat)
    requires OtaInv(u) && Mirrors(h, u) && !u.security.lockoutActive
    requires request.data[0] == CMD_DATA && u.state.Open() && request.data[2] <= PAYLOAD_MAX
    ensures Agree(h, DecideKnown(u, request, fail), HostOnFrame(h, request))
  {
    var a := Authenticate(u.upload, u.security.seed, request);
    assert a.Stored() == u.upload.Stored();
    if a.receivedAuth != a.expectedAuth {
      FailuresAgree(u.(upload := a), h, fail);
    } else if a.length + request.data[2] <= BUFFER_SIZE {
      var payload := request.data[PAYLOAD_OFFSET..PAYLOAD_OFFSET + PAYLOAD_MAX];
      assert Prefix(payload, request.data[2]) == Payload(request);
      AppendKeepsTail(a, Payload(request));
    }
  }

  lemma SecurityAgrees(u: Ota, h: HostOta, request: Frame, fail: nat)
    requires OtaInv(u) && Mirrors(h, u) && InDomain(u, request)
    requires request.data[0] == CMD_REQUEST_SEED || request.data[0] == CMD_SEND_KEY
    ensures Agree(h, DecideKnown(u, request, fail), HostOnFrame(h, request))
  {
  }

  lemma UploadAgrees(u: Ota, h: HostOta, request: Frame, fail: nat)
    requires OtaInv(u) && Mirrors(h, u) && KnownCommand(request.data[0]) && InDomain(u, request)
    requires request.data[0] != CMD_REQUEST_SEED && request.data[0] != CMD_SEND_KEY
    requires request.data[0] == CMD_DATA ==> !u.state.Open() || u.security.lockoutActive
    ensures Agree(h, DecideKnown(u, request, fail), HostOnFrame(h, request))
  {
  }

  lemma OffDomainDiffers(u: Ota, h: HostOta, request: Frame, fail: nat)
    requires OtaInv(u) && Mirrors(h, u) && KnownCommand(request.data[0]) && !InDomain(u, request)
    ensures !SameAnswer(DecideKnown(u, request, fail), HostOnFrame(h, request))
  {
  }

  /** Model and firmware give the same answer to a well-formed request exactly on the domain, and there
      the model goes on mirroring the firmware. Both directions. */
  lemma AnswersAgreeIff(u: Ota, h: HostOta, request: Frame, fail: nat)
    requires OtaInv(u) && Mirrors(h, u) && KnownCommand(request.data[0])
    ensures SameAnswer(DecideKnown(u, request, fail), HostOnFrame(h, request)) <==> InDomain(u, request)
    ensures InDomain(u, request) ==> Agree(h, DecideKnown(u, request, fail), HostOnFrame(h, request))
  {
    if InDomain(u, request) {
      if request.data[0] == CMD_REQUEST_SEED || request.data[0] == CMD_SEND_KEY {
        SecurityAgrees(u, h, request, fail);
      } else if request.data[0] == CMD_DATA && u.state.Open() && !u.security.lockoutActive {
        DataAgrees(u, h, request, fail);
      } else {
        UploadAgrees(u, h, request, fail);
      }
    } else {
      OffDomainDiffers(u, h, request, fail);
    }
  }

  /** What the model does where the firmware does otherwise: it knows no ABORT, takes a key and an END at any time,
      and stores all four payload bytes of a longer DATA. */
  lemma ModelOffDomain(h: HostOta, request: Frame)
    requires !h.lockoutActive
    ensures var q, v := request.data, HostOnFrame(h, request);
            && (q[0] == 0x05 ==> v == HostVerdict(h, 0x7F, 0x12))
            && (q[0] == 0x11 ==>
                  if q[2] == Xor(h.seed, 0xA5) then
                    v == HostVerdict(h.(unlocked := true, locked := false, seedIssued := false, failureStreak := 0), 0x79, 0)
                  else v.code == 0x7F && v.detail == 0x22 && !v.host.unlocked && v.host.locked && !v.host.seedIssued
                       && v.host.errorCounter == Min(255, h.errorCounter + 1) && v.host.failureStreak == Min(3, h.failureStreak + 1))
            && (q[0] == 0x03 ==>
                  v == if q[2] == XorAll(h.buffer) then HostVerdict(h.(verifyOk := true, verifyPending := true, state := Verifying), 0x79, 0)
                       else HostVerdict(h.(verifyOk := false, verifyPending := false, state := Failed), 0x7F, 0x17))
            && (q[0] == 0x02 && h.state.Open() && q[2] > 4 && q[3] == Xor(Xor(Xor(h.seed, q[1]), q[2]), 0xC3) ==>
                  if |h.buffer| + q[2] > 256 then v.code == 0x7F && v.detail == 0x16 && v.host.buffer == h.buffer
                  else v.code == 0x79 && v.host.buffer == h.buffer + q[4..8])
  {
  }

  /** An unknown command is answered alike exactly outside lockout: the firmware tests the command first,
      the model the lockout. */
  lemma UnknownCommandsAgreeIff(o: Ota, h: HostOta, request: Frame, gate: nat, fail: nat)
    requires WellFormed(request) && !KnownCommand(request.data[0])
    ensures SameAnswer(Decide(o, request, gate, fail), HostOnFrame(h, request)) <==> !h.lockoutActive
  {
  }

  /** The bytes of the two response frames are the same when answers, states, versions and counters are. */
  lemma ResponsesAgree(d: Decision, v: HostVerdict)
    requires SameAnswer(d, v) && v.host.state == d.ota.state && v.host.version == d.ota.version
    requires v.host.responseCounter == d.ota.responseCounter
    ensures HostResponse(v, d.command, d.sequence) == Response(d).data
  {
    var body := [v.code, d.command, d.sequence, v.detail, StateNumber(v.host.state) % 8, v.host.version, v.host.responseCounter % 16];
    var r := Response(d);
    ChecksumsAgree(0x651, body);
    assert r.data[..CHECKSUM_BYTE] == body;
    assert r.data == body + [r.data[CHECKSUM_BYTE]];
  }

  /** Milliseconds from the model's clock to `clock`. */
  function Wait(h: HostOta, clock: nat, start: nat): nat {
    if clock - start >= h.nowMs then clock - start - h.nowMs else 0
  }

  /** The model brought to `clock`. */
  function HostReady(h: HostOta, clock: nat, start: nat): HostOta {
    HostAdvance(h, Wait(h, clock, start))
  }

  /** The model follows event `e`: it is brought to `clock`, then it handles the request or publishes. */
  function HostOtaAfter(h: HostOta, e: Event, clock: nat, start: nat): HostOta {
    match e
    case Request(request, _, _) => HostAnswered(HostOnFrame(HostUpdateLockout(HostReady(h, clock, start)), request))
    case Published(_, _) => HostPublish(HostReady(h, clock, start))
    case _ => h
  }

  /** The one clock reading at which the model handles event `n`: that of the failure when the firmware
      records one, else the first. */
  function Instant(t: Trace, n: nat): nat
    requires n < |t.events|
  {
    if Fails(t, n) then t.events[n].Last() else t.events[n].First()
  }

  function HostOtaAt(es: seq<Event>, start: nat, n: nat): HostOta
    requires n <= |es|
  {
    if n == 0 then InitHostOta()
    else HostOtaAfter(HostOtaAt(es, start, n - 1), es[n - 1], Instant(TraceOf(es), n - 1), start)
  }

  /** The eight bytes the model answers the request `e` with. */
  function ResponseTo(h: HostOta, e: Event, clock: nat, start: nat): seq<byte>
    requires e.Request?
  {
    HostResponse(HostOnFrame(HostUpdateLockout(HostReady(h, clock, start)), e.request), e.request.data[0], e.request.data[1])
  }

  function HostResponseAt(es: seq<Event>, start: nat, n: nat): seq<byte>
    requires n < |es| && es[n].Request?
  {
    ResponseTo(HostOtaAt(es, start, n), es[n], Instant(TraceOf(es), n), start)
  }

  /** Advancing the model's clock in two steps is the same as in one. */
  lemma AdvanceInSteps(h: HostOta, a: nat, b: nat)
    requires h.lockoutActive ==> h.lockoutStartMs <= h.nowMs
    ensures HostAdvance(HostAdvance(h, a), b) == HostAdvance(h, a + b)
  {
  }

  /** The model as it would be if an unknown command did not make it look at its clock, as in the firmware. */
  function LagAfter(h: HostOta, e: Event, clock: nat, start: nat): HostOta {
    if e.Request? && !Observes(e) then h.(responseCounter := (h.responseCounter + 1) % 16)
    else HostOtaAfter(h, e, clock, start)
  }

  function LagAt(es: seq<Event>, start: nat, n: nat): HostOta
    requires n <= |es|
  {
    if n == 0 then InitHostOta()
    else LagAfter(LagAt(es, start, n - 1), es[n - 1], Instant(TraceOf(es), n - 1), start)
  }

  /** `h` is a model after the first `n` events: it mirrors the firmware, its clock has not passed the next
      event, and an active lockout dates from the same clock on both sides. */
  predicate InStep(h: HostOta, t: Trace, start: nat, n: nat)
    requires n <= |t.events|
  {
    && Mirrors(h, t.states[n])
    && (n < |t.events| ==> h.nowMs + start <= t.events[n].First())
    && (h.lockoutActive ==> h.lockoutStartMs + start == IdealLock(t, n).since)
  }

  /** The requests on which whole runs agree: well formed, and either unknown outside lockout, or known and
      on the domain of agreement. */
  predicate DomainAt(t: Trace, n: nat)
    requires n < |t.events|
  {
    var o, e := t.states[n], t.events[n];
    e.Request? ==>
      && WellFormed(e.request)
      && if KnownCommand(e.request.data[0]) then
           InDomain(Observed(o, e), e.request)
         else
           !UpdateLockout(o, Tick(e.gateClock)).security.lockoutActive
  }

  predicate OnDomain(t: Trace) {
    forall n :: 0 <= n < |t.events| ==> DomainAt(t, n)
  }

  /** Both sides let a lockout expire at the same event, even if the model looks at its clock later than the
      firmware, as it does when the firmware is no longer locked out. */
  lemma ExpiryAgrees(h: HostOta, o: Ota, gate: nat, clock: nat, since: nat, start: nat)
    requires Mirrors(h, o) && SecurityOk(o.security) && h.nowMs + start <= gate <= clock && start <= since <= gate
    requires h.lockoutActive ==> o.security.lockoutStart == Tick(since) && h.lockoutStartMs + start == since && gate - since < 0x1_0000_0000
    requires clock == gate || !UpdateLockout(o, Tick(gate)).security.lockoutActive
    ensures Mirrors(HostAdvance(h, clock - start - h.nowMs), UpdateLockout(o, Tick(gate)))
  {
    ElapsedTicks(gate, since);
  }

  /** The model's reading lies within the event. */
  lemma InstantBounds(t: Trace, start: nat, n: nat)
    requires Monotone(t.events, start) && n < |t.events|
    ensures start <= t.events[n].First() <= Instant(t, n) <= t.events[n].Last()
    ensures n + 1 < |t.events| ==> t.events[n].Last() <= t.events[n + 1].First()
  {
  }

  /** Before an event that updates the lockout, model and firmware agree once both have done so. */
  lemma ReadyInStep(h: HostOta, t: Trace, start: nat, n: nat)
    requires Secure(t) && Monotone(t.events, start) && LockoutPolled(t, start) && n < |t.events|
    requires InStep(h, t, start, n) && Observes(t.events[n])
    ensures var h1, o1 := HostReady(h, Instant(t, n), start), Observed(t.states[n], t.events[n]);
            && HostUpdateLockout(h1) == h1 && Mirrors(h1, o1) && h1.nowMs + start == Instant(t, n)
            && (h1.lockoutActive ==> h.lockoutActive && h1.lockoutStartMs == h.lockoutStartMs)
  {
    var e, l := t.events[n], IdealLock(t, n);
    LockoutRefines(t, start, n);
    assert LawfulSecurity(t, n);
    LastObservedBounds(t, start, n);
    InstantBounds(t, start, n);
    ExpiryAgrees(h, t.states[n], e.First(), Instant(t, n), if h.lockoutActive then l.since else e.First(), start);
  }

  /** The clock a lockout dates from after event `n`: the event's own if the failure was recorded by it. */
  lemma LockSince(t: Trace, start: nat, n: nat)
    requires Secure(t) && Monotone(t.events, start) && LockoutPolled(t, start) && n < |t.events|
    requires t.states[n + 1].security.lockoutActive
    ensures IdealLock(t, n + 1).since ==
            if Observed(t.states[n], t.events[n]).security.lockoutActive then IdealLock(t, n).since else t.events[n].Last()
  {
    LockoutRefines(t, start, n);
    LockoutRefines(t, start, n + 1);
    assert LawfulSecurity(t, n);
    if IdealLock(t, n).streak == 3 {
      ElapsedTicks(t.events[n].First(), IdealLock(t, n).since);
    }
  }

  /** One request, from a model that mirrors the firmware once both have updated their lockout. */
  lemma RequestAgrees(h: HostOta, o: Ota, e: Event)
    requires OtaInv(o) && e.Request? && WellFormed(e.request) && KnownCommand(e.request.data[0])
    requires Mirrors(h, Observed(o, e)) && InDomain(Observed(o, e), e.request)
    ensures var d, v := Decide(o, e.request, Tick(e.gateClock), Tick(e.failClock)), HostOnFrame(h, e.request);
            Agree(h, d, v) && HostResponse(v, e.request.data[0], e.request.data[1]) == Response(d).data
  {
    var u := Gated(o, e);
    LockoutKeepsInv(o.(lastCommand := e.request.data[0]), Tick(e.gateClock));
    GatedDecides(o, e);
    AnswersAgreeIff(u, h, e.request, Tick(e.failClock));
    ResponsesAgree(DecideKnown(u, e.request, Tick(e.failClock)), HostOnFrame(h, e.request));
  }

  /** The state in which a well-formed, known request is decided. */
  function Gated(o: Ota, e: Event): Ota
    requires e.Request?
  {
    UpdateLockout(o.(lastCommand := e.request.data[0]), Tick(e.gateClock))
  }

  lemma GatedDecides(o: Ota, e: Event)
    requires e.Request? && WellFormed(e.request) && KnownCommand(e.request.data[0])
    ensures Decide(o, e.request, Tick(e.gateClock), Tick(e.failClock)) == DecideKnown(Gated(o, e), e.request, Tick(e.failClock))
    ensures Gated(o, e) == Observed(o, e).(lastCommand := e.request.data[0])
  {
  }

  lemma AnsweredMirrors(h: HostOta, d: Decision, v: HostVerdict)
    requires Agree(h, d, v)
    ensures Mirrors(HostAnswered(v), Answered(d)) && HostAnswered(v).nowMs == h.nowMs
    ensures HostAnswered(v).lockoutActive ==>
              HostAnswered(v).lockoutStartMs == if h.lockoutActive then h.lockoutStartMs else h.nowMs
  {
  }

  lemma AnswerInStep(h: HostOta, o: Ota, e: Event)
    requires OtaInv(o) && e.Request? && WellFormed(e.request) && KnownCommand(e.request.data[0])
    requires Mirrors(h, Observed(o, e)) && InDomain(Observed(o, e), e.request)
    ensures var d, v := Decide(o, e.request, Tick(e.gateClock), Tick(e.failClock)), HostOnFrame(h, e.request);
            && HostResponse(v, e.request.data[0], e.request.data[1]) == Response(d).data
            && Mirrors(HostAnswered(v), Answered(d)) && HostAnswered(v).nowMs == h.nowMs
            && (HostAnswered(v).lockoutActive ==>
                  HostAnswered(v).lockoutStartMs == if h.lockoutActive then h.lockoutStartMs else h.nowMs)
  {
    RequestAgrees(h, o, e);
    AnsweredMirrors(h, Decide(o, e.request, Tick(e.gateClock), Tick(e.failClock)), HostOnFrame(h, e.request));
  }

  /** Over an event the model goes on mirroring the firmware; its lockout is kept, or dates from `clock`. */
  predicate MovesWith(h: HostOta, h1: HostOta, o: Ota, o1: Ota, e: Event, clock: nat, start: nat) {
    var locked := Observed(o, e).security.lockoutActive;
    && Mirrors(h1, o1) && h1.nowMs + start == clock
    && (h1.lockoutActive ==> h1.lockoutStartMs + start == if locked then h.lockoutStartMs + start else clock)
    && (locked ==> h.lockoutActive)
  }

  /** One request, from a model that mirrors the firmware once both have looked at their clocks. */
  lemma RequestMoves(h: HostOta, h1: HostOta, o: Ota, o1: Ota, e: Event, clock: nat, start: nat)
    requires OtaInv(o) && e.Request? && Observes(e) && InDomain(Observed(o, e), e.request)
    requires var r := HostReady(h, clock, start);
             && HostUpdateLockout(r) == r && Mirrors(r, Observed(o, e)) && r.nowMs + start == clock
             && (r.lockoutActive ==> h.lockoutActive && r.lockoutStartMs == h.lockoutStartMs)
    requires h1 == LagAfter(h, e, clock, start) && o1 == OtaAfter(o, e)
    ensures MovesWith(h, h1, o, o1, e, clock, start)
    ensures ResponseTo(h, e, clock, start) == Response(Decide(o, e.request, Tick(e.gateClock), Tick(e.failClock))).data
  {
    AnswerInStep(HostReady(h, clock, start), o, e);
  }

  lemma OneEvent(es: seq<Event>, start: nat, n: nat)
    requires n < |es|
    ensures LagAt(es, start, n + 1) == LagAfter(LagAt(es, start, n), es[n], Instant(TraceOf(es), n), start)
    ensures HostOtaAt(es, start, n + 1) == HostOtaAfter(HostOtaAt(es, start, n), es[n], Instant(TraceOf(es), n), start)
    ensures OtaAt(es, n + 1) == OtaAfter(OtaAt(es, n), es[n])
  {
  }

  lemma RequestAnswered(es: seq<Event>, start: nat, n: nat)
    requires Monotone(es, start) && LockoutPolled(TraceOf(es), start) && OnDomain(TraceOf(es))
    requires n < |es| && es[n].Request? && Observes(es[n]) && InStep(LagAt(es, start, n), TraceOf(es), start, n)
    ensures ResponseTo(LagAt(es, start, n), es[n], Instant(TraceOf(es), n), start) == ResponseAt(es, n).data
    ensures MovesWith(LagAt(es, start, n), LagAt(es, start, n + 1), OtaAt(es, n), OtaAt(es, n + 1), es[n],
                      Instant(TraceOf(es), n), start)
  {
    var t, e, h := TraceOf(es), es[n], LagAt(es, start, n);
    assert DomainAt(t, n);
    RunsAreSecure(es);
    ReadyInStep(h, t, start, n);
    InvariantHolds(es, n);
    OneEvent(es, start, n);
    RequestMoves(h, LagAt(es, start, n + 1), OtaAt(es, n), OtaAt(es, n + 1), e, Instant(t, n), start);
  }

  lemma RequestMirrors(es: seq<Event>, start: nat, n: nat)
    requires Monotone(es, start) && LockoutPolled(TraceOf(es), start) && OnDomain(TraceOf(es))
    requires n < |es| && es[n].Request? && Observes(es[n]) && InStep(LagAt(es, start, n), TraceOf(es), start, n)
    ensures var t := TraceOf(es);
            MovesWith(LagAt(es, start, n), LagAt(es, start, n + 1), t.states[n], t.states[n + 1], t.events[n], Instant(t, n), start)
  {
    TraceHolds(es, n);
    RequestAnswered(es, start, n);
  }

  lemma TraceHolds(es: seq<Event>, n: nat)
    requires n < |es|
    ensures TraceOf(es).states[n] == OtaAt(es, n) && TraceOf(es).states[n + 1] == OtaAt(es, n + 1)
    ensures TraceOf(es).events[n] == es[n]
  {
  }

  /** A lockout that starts with this request dates from the clock at which the model handles it. */
  lemma StartsAtInstant(t: Trace, n: nat)
    requires Secure(t) && n < |t.events| && t.events[n].Request?
    requires t.states[n + 1].security.lockoutActive && !Observed(t.states[n], t.events[n]).security.lockoutActive
    ensures Instant(t, n) == t.events[n].Last()
  {
    assert LawfulSecurity(t, n);
  }

  /** A model that mirrors the firmware after an event is in step when its lockout kept or took the event's clock. */
  lemma StaysInStep(h: HostOta, h1: HostOta, t: Trace, start: nat, n: nat)
    requires Secure(t) && Monotone(t.events, start) && LockoutPolled(t, start) && n < |t.events|
    requires t.events[n].Request? && Observes(t.events[n]) && InStep(h, t, start, n)
    requires MovesWith(h, h1, t.states[n], t.states[n + 1], t.events[n], Instant(t, n), start)
    ensures InStep(h1, t, start, n + 1)
  {
    InstantBounds(t, start, n);
    if t.states[n + 1].security.lockoutActive {
      LockSince(t, start, n);
      if !Observed(t.states[n], t.events[n]).security.lockoutActive {
        StartsAtInstant(t, n);
      }
    }
  }

  lemma RequestInStep(es: seq<Event>, start: nat, n: nat)
    requires Monotone(es, start) && LockoutPolled(TraceOf(es), start) && OnDomain(TraceOf(es))
    requires n < |es| && es[n].Request? && Observes(es[n]) && InStep(LagAt(es, start, n), TraceOf(es), start, n)
    ensures InStep(LagAt(es, start, n + 1), TraceOf(es), start, n + 1)
  {
    RequestMirrors(es, start, n);
    RunsAreSecure(es);
    StaysInStep(LagAt(es, start, n), LagAt(es, start, n + 1), TraceOf(es), start, n);
  }

  /** An unknown command steps the response counter and nothing else that the model holds. */
  lemma UnknownDecision(o: Ota, request: Frame, gate: nat, fail: nat)
    requires WellFormed(request) && !KnownCommand(request.data[0])
    ensures Decide(o, request, gate, fail) ==
            Decision(o.(lastCommand := request.data[0]), request.data[0], request.data[1], NACK, UNKNOWN_COMMAND)
  {
  }

  lemma UnknownInStep(es: seq<Event>, start: nat, n: nat)
    requires Monotone(es, start)
    requires n < |es| && es[n].Request? && WellFormed(es[n].request) && !KnownCommand(es[n].request.data[0])
    requires InStep(LagAt(es, start, n), TraceOf(es), start, n)
    ensures InStep(LagAt(es, start, n + 1), TraceOf(es), start, n + 1)
  {
    UnknownMirrors(LagAt(es, start, n), OtaAt(es, n), es[n], Instant(TraceOf(es), n), start);
    InstantBounds(TraceOf(es), start, n);
    SameLock(es, n);
  }

  lemma UnknownMirrors(h: HostOta, o: Ota, e: Event, clock: nat, start: nat)
    requires e.Request? && WellFormed(e.request) && !KnownCommand(e.request.data[0]) && Mirrors(h, o)
    ensures var h1 := LagAfter(h, e, clock, start);
            && Mirrors(h1, OtaAfter(o, e)) && h1.nowMs == h.nowMs
            && h1.lockoutActive == h.lockoutActive && h1.lockoutStartMs == h.lockoutStartMs
  {
    UnknownDecision(o, e.request, Tick(e.gateClock), Tick(e.failClock));
  }

  /** An unknown command does not enter the reference lockout. */
  lemma SameLock(es: seq<Event>, n: nat)
    requires n < |es| && es[n].Request? && WellFormed(es[n].request) && !KnownCommand(es[n].request.data[0])
    ensures IdealLock(TraceOf(es), n + 1) == IdealLock(TraceOf(es), n)
  {
    UnknownDecision(OtaAt(es, n), es[n].request, Tick(es[n].gateClock), Tick(es[n].failClock));
  }

  lemma PublishInStep(es: seq<Event>, start: nat, n: nat)
    requires Monotone(es, start) && LockoutPolled(TraceOf(es), start)
    requires n < |es| && es[n].Published? && InStep(LagAt(es, start, n), TraceOf(es), start, n)
    ensures InStep(LagAt(es, start, n + 1), TraceOf(es), start, n + 1)
  {
    var t := TraceOf(es);
    RunsAreSecure(es);
    ReadyInStep(LagAt(es, start, n), t, start, n);
    InvariantHolds(es, n);
    InstantBounds(t, start, n);
    if t.states[n + 1].security.lockoutActive {
      LockSince(t, start, n);
    }
  }

  lemma QuietInStep(es: seq<Event>, start: nat, n: nat)
    requires Monotone(es, start)
    requires n < |es| && !es[n].Request? && !es[n].Published? && InStep(LagAt(es, start, n), TraceOf(es), start, n)
    ensures InStep(LagAt(es, start, n + 1), TraceOf(es), start, n + 1)
  {
    InstantBounds(TraceOf(es), start, n);
  }

  lemma StartInStep(es: seq<Event>, start: nat)
    requires Monotone(es, start)
    ensures InStep(LagAt(es, start, 0), TraceOf(es), start, 0)
  {
  }

  /** One event keeps model and firmware in step. */
  lemma EventInStep(es: seq<Event>, start: nat, n: nat)
    requires Monotone(es, start) && LockoutPolled(TraceOf(es), start) && OnDomain(TraceOf(es)) && n < |es|
    requires InStep(LagAt(es, start, n), TraceOf(es), start, n)
    ensures InStep(LagAt(es, start, n + 1), TraceOf(es), start, n + 1)
  {
    assert DomainAt(TraceOf(es), n);
    match es[n]
    case Request(_, _, _) =>
      if Observes(es[n]) {
        RequestInStep(es, start, n);
      } else {
        UnknownInStep(es, start, n);
      }
    case Published(_, _) => PublishInStep(es, start, n);
    case _ => QuietInStep(es, start, n);
  }

  lemma {:induction false} LagInStep(es: seq<Event>, start: nat, n: nat)
    requires Monotone(es, start) && LockoutPolled(TraceOf(es), start) && OnDomain(TraceOf(es)) && n <= |es|
    ensures InStep(LagAt(es, start, n), TraceOf(es), start, n)
  {
    if n == 0 {
      StartInStep(es, start);
    } else {
      LagInStep(es, start, n - 1);
      EventInStep(es, start, n - 1);
    }
  }

  // The model itself: an unknown command has only brought it to a later clock.

  /** An active lockout of the model started in its past. */
  predicate Sane(h: HostOta) {
    h.lockoutActive ==> h.lockoutStartMs <= h.nowMs
  }

  /** `h` is `l` advanced to the clock of `h`, up to a lockout that has run out meanwhile. */
  predicate Ahead(h: HostOta, l: HostOta) {
    Sane(h) && Sane(l) && l.nowMs <= h.nowMs && HostUpdateLockout(h) == HostAdvance(l, h.nowMs - l.nowMs)
  }

  lemma AdvanceAhead(h: HostOta, l: HostOta, w: nat)
    requires Ahead(h, l)
    ensures HostAdvance(h, w) == HostAdvance(l, h.nowMs - l.nowMs + w)
  {
    var m := HostUpdateLockout(h);
    UpdateThenAdvance(h, m, w);
    AdvanceInSteps(l, h.nowMs - l.nowMs, w);
  }

  lemma UpdateThenAdvance(h: HostOta, m: HostOta, w: nat)
    requires Sane(h) && m == HostUpdateLockout(h)
    ensures HostAdvance(m, w) == HostAdvance(h, w)
  {
  }

  lemma AdvanceIsSane(h: HostOta, w: nat)
    requires Sane(h)
    ensures Sane(HostAdvance(h, w)) && HostAdvance(h, w).nowMs == h.nowMs + w
  {
  }

  /** Before the next event there is no difference between the two. */
  lemma ReadyAlike(h: HostOta, l: HostOta, clock: nat, start: nat)
    requires Ahead(h, l) && h.nowMs + start <= clock
    ensures HostReady(h, clock, start) == HostReady(l, clock, start)
    ensures HostReady(h, clock, start).nowMs + start == clock && Sane(HostReady(h, clock, start))
  {
    var w := clock - start - h.nowMs;
    AdvanceAhead(h, l, w);
    AdvanceIsSane(h, w);
  }

  lemma DecideIsSane(h: HostOta, request: Frame)
    requires Sane(h)
    ensures Sane(HostOnFrame(h, request).host) && HostOnFrame(h, request).host.nowMs == h.nowMs
    ensures !KnownCommand(request.data[0]) ==> HostOnFrame(h, request).host == h
  {
  }

  lemma SameIsAhead(h: HostOta)
    requires Sane(h)
    ensures Ahead(h, h)
  {
    assert h.(nowMs := h.nowMs + 0) == h;
  }

  lemma KnownAhead(r: HostOta, request: Frame)
    requires Sane(r)
    ensures var v := HostOnFrame(HostUpdateLockout(r), request);
            Sane(HostAnswered(v)) && HostAnswered(v).nowMs == r.nowMs
  {
    DecideIsSane(HostUpdateLockout(r), request);
  }

  lemma RequestAhead(l: HostOta, r: HostOta, e: Event, clock: nat, start: nat)
    requires Sane(l) && Sane(r) && r == HostReady(l, clock, start) && e.Request? && WellFormed(e.request)
    ensures var h1 := HostAnswered(HostOnFrame(HostUpdateLockout(r), e.request));
            Ahead(h1, LagAfter(l, e, clock, start)) && h1.nowMs == r.nowMs
  {
    KnownAhead(r, e.request);
    if KnownCommand(e.request.data[0]) {
      SameIsAhead(HostAnswered(HostOnFrame(HostUpdateLockout(r), e.request)));
    } else {
      DecideIsSane(HostUpdateLockout(r), e.request);
      UnknownAhead(r, l, Wait(l, clock, start));
    }
  }

  lemma AheadStep(h: HostOta, l: HostOta, e: Event, clock: nat, start: nat)
    requires Ahead(h, l) && h.nowMs + start <= clock
    requires e.Request? ==> WellFormed(e.request)
    ensures Ahead(HostOtaAfter(h, e, clock, start), LagAfter(l, e, clock, start))
    ensures HostOtaAfter(h, e, clock, start).nowMs + start <= clock
  {
    ReadyAlike(h, l, clock, start);
    var r := HostReady(h, clock, start);
    match e
    case Request(request, _, _) =>
      RequestAhead(l, r, e, clock, start);
    case Published(_, _) =>
      SameIsAhead(HostPublish(r));
    case _ =>
  }

  /** Answering an unknown command keeps the advanced model ahead. */
  lemma UnknownAhead(r: HostOta, l: HostOta, d: nat)
    requires Sane(r) && Sane(l) && r == HostAdvance(l, d)
    ensures var c := (r.responseCounter + 1) % 16;
            Ahead(HostUpdateLockout(r).(responseCounter := c), l.(responseCounter := (l.responseCounter + 1) % 16))
  {
  }

  lemma AheadNext(h: HostOta, l: HostOta, h1: HostOta, l1: HostOta, e: Event, clock: nat, start: nat)
    requires Ahead(h, l) && h.nowMs + start <= clock && (e.Request? ==> WellFormed(e.request))
    requires h1 == HostOtaAfter(h, e, clock, start) && l1 == LagAfter(l, e, clock, start)
    ensures Ahead(h1, l1) && h1.nowMs + start <= clock
  {
    AheadStep(h, l, e, clock, start);
  }

  lemma {:induction false} HostIsAhead(es: seq<Event>, start: nat, n: nat)
    requires Monotone(es, start) && OnDomain(TraceOf(es)) && n <= |es|
    ensures Ahead(HostOtaAt(es, start, n), LagAt(es, start, n))
    ensures n < |es| ==> HostOtaAt(es, start, n).nowMs + start <= es[n].First()
  {
    if n != 0 {
      HostIsAhead(es, start, n - 1);
      assert DomainAt(TraceOf(es), n - 1);
      InstantBounds(TraceOf(es), start, n - 1);
      OneEvent(es, start, n - 1);
      AheadNext(HostOtaAt(es, start, n - 1), LagAt(es, start, n - 1), HostOtaAt(es, start, n), LagAt(es, start, n),
                es[n - 1], Instant(TraceOf(es), n - 1), start);
    }
  }

  /** Where the firmware sees no lockout by its wrapped tick, the model sees none by its clock. */
  lemma NoLockoutAlike(h: HostOta, t: Trace, start: nat, n: nat)
    requires Secure(t) && Monotone(t.events, start) && LockoutPolled(t, start) && n < |t.events|
    requires InStep(h, t, start, n)
    requires !UpdateLockout(t.states[n], Tick(t.events[n].First())).security.lockoutActive
    ensures !HostReady(h, t.events[n].First(), start).lockoutActive
  {
    LockoutRefines(t, start, n);
    LastObservedBounds(t, start, n);
    if h.lockoutActive {
      ElapsedTicks(t.events[n].First(), IdealLock(t, n).since);
    }
  }

  lemma UnknownAnswered(es: seq<Event>, start: nat, n: nat)
    requires Monotone(es, start) && LockoutPolled(TraceOf(es), start) && n < |es| && es[n].Request?
    requires WellFormed(es[n].request) && !KnownCommand(es[n].request.data[0])
    requires !UpdateLockout(OtaAt(es, n), Tick(es[n].gateClock)).security.lockoutActive
    requires InStep(LagAt(es, start, n), TraceOf(es), start, n)
    ensures ResponseTo(LagAt(es, start, n), es[n], Instant(TraceOf(es), n), start) == ResponseAt(es, n).data
  {
    var e, h := es[n], LagAt(es, start, n);
    RunsAreSecure(es);
    NoLockoutAlike(h, TraceOf(es), start, n);
    UnknownDecision(OtaAt(es, n), e.request, Tick(e.gateClock), Tick(e.failClock));
    ResponsesAgree(DecisionAt(es, n), HostOnFrame(HostUpdateLockout(HostReady(h, e.First(), start)), e.request));
  }

  /** In every run on the domain, with lockout updates at most 2^32 - 3000 ticks apart, the host model
      answers every request with the very bytes the firmware sends, and shows the same state and version. */
  lemma OtaModelAgrees(es: seq<Event>, start: nat, n: nat)
    requires Monotone(es, start) && LockoutPolled(TraceOf(es), start) && OnDomain(TraceOf(es)) && n < |es|
    ensures es[n].Request? ==> HostResponseAt(es, start, n) == ResponseAt(es, n).data
    ensures HostOtaAt(es, start, n).version == OtaAt(es, n).version && HostOtaAt(es, start, n).state == OtaAt(es, n).state
  {
    LagInStep(es, start, n);
    HostIsAhead(es, start, n);
    assert DomainAt(TraceOf(es), n);
    if es[n].Request? {
      InstantBounds(TraceOf(es), start, n);
      ReadyAlike(HostOtaAt(es, start, n), LagAt(es, start, n), Instant(TraceOf(es), n), start);
      if Observes(es[n]) {
        RequestAnswered(es, start, n);
      } else {
        UnknownAnswered(es, start, n);
      }
    }
  }
}
