/** When each answer is given: for every request of every run, which response goes out and what becomes of the
    session, with the numbers of the protocol written out.

    The states are those of the run; `History` lemmas at the end say what of them the bus has shown before. */
module OtaAnswers {
  import opened Bytes
  import opened Frames
  import opened OtaSpec
  import opened GatewaySpec
  import opened OtaInvariants
  import opened OtaEffects
  import opened OtaTraces
  import opened OtaHistory
  import opened Lockouts

  /** Event `n` is a well-formed request with this command byte. */
  predicate Asked(es: seq<Event>, n: nat, command: byte) {
    && n < |es| && es[n].Request? && es[n].request.id == 0x650 && es[n].request.length == 8
    && es[n].request.data[0] == command
  }

  /** The state in which event `n` is handled, its lockout brought up to date. */
  function Handled(es: seq<Event>, n: nat): Ota
    requires n < |es|
  {
    Observed(OtaAt(es, n), es[n])
  }

  predicate LockedOut(es: seq<Event>, n: nat)
    requires n < |es|
  {
    Handled(es, n).security.lockoutActive
  }

  /** Request `n` is answered with code and detail, its own command and sequence number. */
  predicate Answers(es: seq<Event>, n: nat, code: byte, detail: byte)
    requires n < |es| && es[n].Request?
  {
    var r, q := ResponseAt(es, n), es[n].request;
    && r.id == 0x651 && r.length == 8 && r.data[0] == code && r.data[3] == detail
    && r.data[1] == q.data[0] && r.data[2] == q.data[1]
  }

  /** After event `n` the machine is in state `o`, but for the command noted and the response numbered. */
  predicate Leaves(es: seq<Event>, n: nat, o: Ota)
    requires n < |es| && es[n].Request?
  {
    OtaAt(es, n + 1) == o.(lastCommand := es[n].request.data[0], responseCounter := (OtaAt(es, n).responseCounter + 1) % 16)
  }

  lemma AnswerBytes(es: seq<Event>, n: nat)
    requires n < |es| && es[n].Request?
    ensures var r, d := ResponseAt(es, n), DecisionAt(es, n);
            && r.id == 0x651 && r.length == 8
            && r.data[0] == d.code && r.data[1] == d.command && r.data[2] == d.sequence && r.data[3] == d.detail
  {
    var r := ResponseAt(es, n);
    assert r.data[2] == r.data[..CHECKSUM_BYTE][2];
  }

  // ---------------------------------------------------------------------------------------------
  // Requests that are not commands

  /** The seven commands. */
  predicate IsCommand(command: byte) {
    command in {0x01, 0x02, 0x03, 0x04, 0x05, 0x10, 0x11}
  }

  lemma MalformedDecision(o: Ota, q: Frame, gate: nat, fail: nat)
    requires OtaInv(o)
    ensures var d := Decide(o, q, gate, fail);
            && (q.id != 0x650 <==> d.code == 0x7F && d.detail == 0x10)
            && (q.id == 0x650 && q.length != 8 <==> d.code == 0x7F && d.detail == 0x11)
            && (q.id != 0x650 || q.length != 8 ==> d.command == 0 && d.sequence == 0 && d.ota == o)
            && (q.id == 0x650 && q.length == 8 && !IsCommand(q.data[0]) <==> d.code == 0x7F && d.detail == 0x12)
            && (q.id == 0x650 && q.length == 8 ==> d.command == q.data[0] && d.sequence == q.data[1])
            && (d.code == 0x7F && d.detail == 0x12 ==> d.ota == o.(lastCommand := q.data[0]))
  {
    RequestEffect(o, q, gate, fail);
  }

  /** A wrong identifier is answered 0x10, a wrong length 0x11, and a command byte that is none of the seven 0x12;
      no other request gets these details. */
  lemma MalformedIsDecided(es: seq<Event>, n: nat)
    requires n < |es| && es[n].Request?
    ensures var q, r := es[n].request, ResponseAt(es, n);
            && (q.id != 0x650 <==> r.data[0] == 0x7F && r.data[3] == 0x10)
            && (q.id == 0x650 && q.length != 8 <==> r.data[0] == 0x7F && r.data[3] == 0x11)
            && (q.id == 0x650 && q.length == 8 && !IsCommand(q.data[0]) <==> r.data[0] == 0x7F && r.data[3] == 0x12)
  {
    AnswerBytes(es, n);
    InvariantHolds(es, n);
    MalformedDecision(OtaAt(es, n), es[n].request, Tick(es[n].gateClock), Tick(es[n].failClock));
  }

  /** The first two are answered without echo and change nothing; an unknown command byte is echoed and noted. */
  lemma MalformedIsHarmless(es: seq<Event>, n: nat)
    requires n < |es| && es[n].Request?
    ensures var q, r, o, o1 := es[n].request, ResponseAt(es, n), OtaAt(es, n), OtaAt(es, n + 1);
            && (q.id != 0x650 || q.length != 8 ==>
                  && r.data[1] == 0 && r.data[2] == 0
                  && o1 == o.(responseCounter := (o.responseCounter + 1) % 16))
            && (q.id == 0x650 && q.length == 8 && !IsCommand(q.data[0]) ==> Answers(es, n, 0x7F, 0x12) && Leaves(es, n, o))
  {
    AnswerBytes(es, n);
    InvariantHolds(es, n);
    MalformedDecision(OtaAt(es, n), es[n].request, Tick(es[n].gateClock), Tick(es[n].failClock));
    assert OtaAt(es, n + 1) == Answered(DecisionAt(es, n));
  }

  /** During a lockout each of the seven commands is answered 0x23 and changes nothing. */
  lemma LockoutIsDecided(es: seq<Event>, n: nat, command: byte)
    requires Asked(es, n, command) && IsCommand(command)
    ensures LockedOut(es, n) <==> ResponseAt(es, n).data[0] == 0x7F && ResponseAt(es, n).data[3] == 0x23
    ensures LockedOut(es, n) ==> Answers(es, n, 0x7F, 0x23) && Leaves(es, n, OtaAt(es, n))
  {
    AnswerBytes(es, n);
    InvariantHolds(es, n);
  }

  // ---------------------------------------------------------------------------------------------
  // Security commands

  /** REQUEST_SEED is acknowledged exactly outside lockout: a new seed is out, the session locked, the upload gone. */
  lemma SeedIsDecided(es: seq<Event>, n: nat)
    requires Asked(es, n, 0x10)
    ensures ResponseAt(es, n).data[0] == 0x79 <==> !LockedOut(es, n)
    ensures !LockedOut(es, n) ==>
              var o := Handled(es, n);
              var seed := Xor(Xor(Xor(0x5A, o.responseCounter), o.security.errorCounter), o.version);
              && Answers(es, n, 0x79, seed)
              && Leaves(es, n, o.(state := Idle, verifyPending := false, upload := EmptyUpload(),
                                  security := o.security.(unlocked := false, locked := true, seedIssued := true, seed := seed)))
  {
    AnswerBytes(es, n);
    InvariantHolds(es, n);
  }

  /** What a wrong key or a wrong authentication byte does to the security record. */
  function Failing(s: Security, tick: nat): Security {
    var third := s.failureStreak == 2;
    s.(errorCounter := Min(0xFF, s.errorCounter + 1), failureStreak := Min(3, s.failureStreak + 1),
       lockoutActive := third, lockoutStart := if third then tick else s.lockoutStart,
       unlocked := s.unlocked && !third, locked := s.locked || third, seedIssued := s.seedIssued && !third)
  }

  lemma FailingRecords(o: Ota, tick: nat)
    requires OtaInv(o) && !o.security.lockoutActive
    ensures RecordFailure(o, tick) ==
            o.(security := Failing(o.security, tick), state := if o.security.failureStreak == 2 then Failed else o.state,
               verifyPending := o.verifyPending && o.security.failureStreak != 2)
  {
  }

  /** SEND_KEY outside lockout: with a seed out it is acknowledged exactly if it carries the seed XOR 0xA5, and
      refused with 0x22 if not; without one it is refused with 0x21 and nothing changes. */
  lemma KeyIsDecided(es: seq<Event>, n: nat)
    requires Asked(es, n, 0x11) && !LockedOut(es, n)
    ensures var o, right, r := Handled(es, n), es[n].request.data[2] == Xor(OtaAt(es, n).security.seed, 0xA5), ResponseAt(es, n);
            && (o.security.seedIssued && right <==> r.data[0] == 0x79)
            && (o.security.seedIssued && !right <==> r.data[0] == 0x7F && r.data[3] == 0x22)
            && (!o.security.seedIssued <==> r.data[0] == 0x7F && r.data[3] == 0x21)
    ensures var o, right := Handled(es, n), es[n].request.data[2] == Xor(OtaAt(es, n).security.seed, 0xA5);
            if !o.security.seedIssued then Answers(es, n, 0x7F, 0x21) && Leaves(es, n, o)
            else if right then
              Answers(es, n, 0x79, 0) &&
              Leaves(es, n, o.(security := o.security.(unlocked := true, locked := false, seedIssued := false,
                                                       failureStreak := 0, lockoutActive := false, lockoutStart := 0)))
            else
              var third := o.security.failureStreak == 2;
              Answers(es, n, 0x7F, 0x22) &&
              Leaves(es, n, o.(security := Failing(o.security, Tick(es[n].failClock)).(unlocked := false, locked := true, seedIssued := false),
                               state := if third then Failed else o.state))
  {
    AnswerBytes(es, n);
    InvariantHolds(es, n);
    LockoutKeepsInv(OtaAt(es, n), Tick(es[n].gateClock));
    FailingRecords(Handled(es, n), Tick(es[n].failClock));
  }

  // ---------------------------------------------------------------------------------------------
  // Upload commands

  /** START outside lockout is acknowledged exactly when unlocked, and opens an empty upload. */
  lemma StartIsDecided(es: seq<Event>, n: nat)
    requires Asked(es, n, 0x01) && !LockedOut(es, n)
    ensures var o := Handled(es, n);
            if o.security.unlocked then
              Answers(es, n, 0x79, 0) && Leaves(es, n, o.(state := Start, verifyPending := false, upload := EmptyUpload()))
            else
              Answers(es, n, 0x7F, 0x20) && Leaves(es, n, o)
  {
    AnswerBytes(es, n);
    InvariantHolds(es, n);
  }

  /** What DATA, END and ACTIVATE do out of sequence. */
  predicate OutOfSequence(es: seq<Event>, n: nat)
    requires n < |es| && es[n].Request?
  {
    Answers(es, n, 0x7F, 0x14) && Leaves(es, n, Handled(es, n).(state := Failed, verifyPending := false))
  }

  /** Byte 3 is the seed XOR the sequence number XOR the length XOR 0xC3. */
  function AuthByte(seed: byte, request: Frame): byte {
    Xor(Xor(Xor(seed, request.data[1]), request.data[2]), 0xC3)
  }

  /** DATA outside lockout, from state `o` to `o1`: out of sequence unless an upload is open; then the length is
      tested, then the authentication, then the room, and only then is the payload stored. */
  predicate DataOutcome(o: Ota, q: Frame, tick: nat, code: byte, detail: byte, o1: Ota) {
    var auth := AuthByte(o.security.seed, q);
    var u := o.upload.(receivedAuth := q.data[3], expectedAuth := auth);
    if !(o.state.Start? || o.state.Receiving?) then
      code == 0x7F && detail == 0x14 && o1 == o.(state := Failed, verifyPending := false)
    else if q.data[2] > 4 then
      code == 0x7F && detail == 0x15 && o1 == o.(state := Failed)
    else if q.data[3] != auth then
      code == 0x7F && detail == 0x18 && o1 == o.(state := Failed, upload := u, security := Failing(o.security, tick))
    else if o.upload.length + q.data[2] > 256 then
      code == 0x7F && detail == 0x16 && o1 == o.(state := Failed, upload := u.(overflow := true))
    else
      && code == 0x79 && detail == 0 && o1.upload.Stored() == o.upload.Stored() + q.data[4..4 + q.data[2]]
      && o1 == o.(state := Receiving, upload := u.(length := o1.upload.length, buffer := o1.upload.buffer))
  }

  lemma DataDecision(o: Ota, q: Frame, tick: nat)
    requires OtaInv(o) && !o.security.lockoutActive && q.data[0] == 0x02
    ensures var d := DecideKnown(o, q, tick); DataOutcome(o, q, tick, d.code, d.detail, d.ota)
  {
  }

  /** The state after event `n`, but for the command noted and the response numbered. */
  function Next(es: seq<Event>, n: nat): Ota
    requires n < |es|
  {
    var o := OtaAt(es, n);
    OtaAt(es, n + 1).(lastCommand := o.lastCommand, responseCounter := o.responseCounter)
  }

  lemma DataIsDecided(es: seq<Event>, n: nat)
    requires Asked(es, n, 0x02) && !LockedOut(es, n)
    ensures var r := ResponseAt(es, n);
            && Answers(es, n, r.data[0], r.data[3]) && Leaves(es, n, Next(es, n))
            && DataOutcome(Handled(es, n), es[n].request, Tick(es[n].failClock), r.data[0], r.data[3], Next(es, n))
  {
    var o, q := OtaAt(es, n), es[n].request;
    var u := UpdateLockout(o.(lastCommand := q.data[0]), Tick(es[n].gateClock));
    AnswerBytes(es, n);
    InvariantHolds(es, n);
    LockoutKeepsInv(o, Tick(es[n].gateClock));
    DataDecision(u, q, Tick(es[n].failClock));
    assert DecisionAt(es, n) == DecideKnown(u, q, Tick(es[n].failClock));
    assert Handled(es, n) == u.(lastCommand := o.lastCommand);
    assert Next(es, n) == DecisionAt(es, n).ota.(lastCommand := o.lastCommand);
  }

  /** END outside lockout: out of sequence unless an upload is open; acknowledged exactly if byte 2 is the XOR of
      the bytes stored. Both bytes are kept. */
  lemma EndIsDecided(es: seq<Event>, n: nat)
    requires Asked(es, n, 0x03) && !LockedOut(es, n)
    ensures var o, expected := Handled(es, n), es[n].request.data[2];
            var x := XorAll(o.upload.Stored());
            var u := o.upload.(expectedChecksum := expected, calculatedChecksum := x, verifyOk := x == expected);
            if !(o.state.Start? || o.state.Receiving?) then OutOfSequence(es, n)
            else if x == expected then
              Answers(es, n, 0x79, 0) && Leaves(es, n, o.(state := Verifying, verifyPending := true, upload := u))
            else
              Answers(es, n, 0x7F, 0x17) && Leaves(es, n, o.(state := Failed, upload := u))
  {
    AnswerBytes(es, n);
    InvariantHolds(es, n);
    LockoutKeepsInv(OtaAt(es, n), Tick(es[n].gateClock));
  }

  /** ACTIVATE outside lockout: acknowledged exactly in READY_TO_ACTIVATE, and the version steps, 255 to 1. */
  lemma ActivateIsDecided(es: seq<Event>, n: nat)
    requires Asked(es, n, 0x04) && !LockedOut(es, n)
    ensures var o := Handled(es, n);
            if !o.state.ReadyToActivate? then OutOfSequence(es, n)
            else
              Answers(es, n, 0x79, 0) && Leaves(es, n, o.(state := Success, version := if o.version == 255 then 1 else o.version + 1))
  {
    AnswerBytes(es, n);
    InvariantHolds(es, n);
    LockoutKeepsInv(OtaAt(es, n), Tick(es[n].gateClock));
  }

  /** ABORT is acknowledged exactly outside lockout: the session fails, the buffer is cleared, and version and
      security record, the unlock too, stay what they were. */
  lemma AbortIsDecided(es: seq<Event>, n: nat)
    requires Asked(es, n, 0x05)
    ensures ResponseAt(es, n).data[0] == 0x79 <==> !LockedOut(es, n)
    ensures !LockedOut(es, n) ==>
              && Answers(es, n, 0x79, 0)
              && Leaves(es, n, Handled(es, n).(state := Failed, verifyPending := false, upload := EmptyUpload()))
    ensures !LockedOut(es, n) ==>
              var o, o1 := Handled(es, n), OtaAt(es, n + 1);
              && o1.state.Failed? && o1.security == o.security && o1.version == o.version
              && o1.upload.length == 0 && forall k :: 0 <= k < 256 ==> o1.upload.buffer[k] == 0
  {
    AnswerBytes(es, n);
    InvariantHolds(es, n);
  }

  // ---------------------------------------------------------------------------------------------
  // What the bus has shown before: the tests above as functions of earlier answers

  predicate Accepts(a: Answer, command: byte) {
    a.Answer? && a.code == 0x79 && a.command == command
  }

  predicate Refuses(a: Answer, detail: byte) {
    a.Answer? && a.code == 0x7F && a.detail == detail
  }

  /** Event `n` is a key attempt: a SEND_KEY accepted, or refused as wrong. */
  predicate Attempt(t: Trace, n: nat)
    requires n < |t.events|
  {
    Accepts(t.answers[n], 0x11) || Refuses(t.answers[n], 0x22)
  }

  predicate SeedOutSince(t: Trace, k: nat, n: nat)
    requires k < n <= |t.events|
  {
    t.answers[k] == Answer(0x79, 0x10, t.states[k + 1].security.seed) && forall j :: k < j < n ==> !Attempt(t, j)
  }

  predicate SeedOut(t: Trace, n: nat)
    requires n <= |t.events|
  {
    exists k :: 0 <= k < n && SeedOutSince(t, k, n)
  }

  lemma SeedStep(t: Trace, n: nat)
    requires Lawful(t) && Secure(t) && 0 < n <= |t.events|
    ensures t.states[n].security.seedIssued <==>
            SeedOutSince(t, n - 1, n) || (t.states[n - 1].security.seedIssued && !Attempt(t, n - 1))
  {
    assert LawfulStep(t, n - 1) && LawfulSecurity(t, n - 1);
  }

  lemma SeedOutGrows(t: Trace, n: nat)
    requires 0 < n <= |t.events|
    ensures SeedOut(t, n) <==> SeedOutSince(t, n - 1, n) || (SeedOut(t, n - 1) && !Attempt(t, n - 1))
  {
    var m := n - 1;
    if k :| 0 <= k < n && SeedOutSince(t, k, n) {
      assert k < m ==> SeedOutSince(t, k, m) && !Attempt(t, m);
    }
    if SeedOut(t, m) && !Attempt(t, m) {
      var k :| 0 <= k < m && SeedOutSince(t, k, m);
      assert SeedOutSince(t, k, n);
    }
  }

  /** A seed is outstanding exactly if one has been sent in an acknowledged reply and no key tried since. */
  lemma SeedOutIsHistory(es: seq<Event>, n: nat)
    requires n <= |es|
    ensures OtaAt(es, n).security.seedIssued <==> SeedOut(TraceOf(es), n)
  {
    RunsAreLawful(es);
    RunsAreSecure(es);
    SeedOutOnTrace(TraceOf(es), n);
  }

  lemma {:induction false} SeedOutOnTrace(t: Trace, n: nat)
    requires Lawful(t) && Secure(t) && n <= |t.events|
    ensures t.states[n].security.seedIssued <==> SeedOut(t, n)
  {
    if n != 0 {
      SeedOutOnTrace(t, n - 1);
      SeedStep(t, n);
      SeedOutGrows(t, n);
    }
  }

  /** Event `n` ends an unlocked session: an acknowledged REQUEST_SEED, or the wrong authentication byte that starts
      a lockout. */
  predicate Relocks(t: Trace, n: nat)
    requires n < |t.events|
  {
    Accepts(t.answers[n], 0x10) || (Refuses(t.answers[n], 0x18) && t.states[n + 1].security.lockoutActive)
  }

  predicate UnlockedSince(t: Trace, k: nat, n: nat)
    requires k < n <= |t.events|
  {
    Accepts(t.answers[k], 0x11) && forall j :: k < j < n ==> !Relocks(t, j)
  }

  predicate IsUnlocked(t: Trace, n: nat)
    requires n <= |t.events|
  {
    exists k :: 0 <= k < n && UnlockedSince(t, k, n)
  }

  lemma UnlockStep(t: Trace, n: nat)
    requires Lawful(t) && Secure(t) && 0 < n <= |t.events|
    ensures t.states[n].security.unlocked <==>
            UnlockedSince(t, n - 1, n) || (t.states[n - 1].security.unlocked && !Relocks(t, n - 1))
  {
    assert LawfulStep(t, n - 1) && LawfulSecurity(t, n - 1);
  }

  lemma UnlockGrows(t: Trace, n: nat)
    requires 0 < n <= |t.events|
    ensures IsUnlocked(t, n) <==> UnlockedSince(t, n - 1, n) || (IsUnlocked(t, n - 1) && !Relocks(t, n - 1))
  {
    var m := n - 1;
    if k :| 0 <= k < n && UnlockedSince(t, k, n) {
      assert k < m ==> UnlockedSince(t, k, m) && !Relocks(t, m);
    }
    if IsUnlocked(t, m) && !Relocks(t, m) {
      var k :| 0 <= k < m && UnlockedSince(t, k, m);
      assert UnlockedSince(t, k, n);
    }
  }

  /** A session is unlocked exactly if a key has been accepted and nothing since has locked it again; ABORT does not. */
  lemma UnlockIsHistory(es: seq<Event>, n: nat)
    requires n <= |es|
    ensures OtaAt(es, n).security.unlocked <==> IsUnlocked(TraceOf(es), n)
  {
    RunsAreLawful(es);
    RunsAreSecure(es);
    IsUnlockedOnTrace(TraceOf(es), n);
  }

  lemma {:induction false} IsUnlockedOnTrace(t: Trace, n: nat)
    requires Lawful(t) && Secure(t) && n <= |t.events|
    ensures t.states[n].security.unlocked <==> IsUnlocked(t, n)
  {
    if n != 0 {
      IsUnlockedOnTrace(t, n - 1);
      UnlockStep(t, n);
      UnlockGrows(t, n);
    }
  }

  /** The state that an answer leaves behind. */
  function Moved(s: OtaState, a: Answer, locked: bool): OtaState {
    if a.NoAnswer? then s
    else if a.code == 0x79 then
      match a.command
      case 0x10 => Idle
      case 0x01 => Start
      case 0x02 => Receiving
      case 0x03 => Verifying
      case 0x04 => Success
      case 0x05 => Failed
      case _ => s
    else if 0x14 <= a.detail <= 0x18 then Failed
    else if a.detail == 0x22 && locked then Failed
    else s
  }

  /** The OTA state as the answers and status frames of the run make it. */
  function StateShown(t: Trace, n: nat): OtaState
    requires n <= |t.events|
  {
    if n == 0 then Idle
    else
      var s := StateShown(t, n - 1);
      if t.events[n - 1].Published? then (if s.Verifying? then ReadyToActivate else s)
      else Moved(s, t.answers[n - 1], t.states[n].security.lockoutActive)
  }

  lemma MoveIsLawful(o: Ota, request: Frame, a: Answer, o1: Ota)
    requires OtaInv(o) && LawfulRequest(o, request, a, o1)
    requires a.code == 0x7F ==> a.detail in {0x10, 0x11, 0x12, 0x14, 0x15, 0x16, 0x17, 0x18, 0x20, 0x21, 0x22, 0x23}
    ensures o1.state == Moved(o.state, a, o1.security.lockoutActive)
  {
  }

  /** No other refusals exist. */
  lemma RefusalsAreTwelve(es: seq<Event>, n: nat)
    requires n < |es| && es[n].Request?
    ensures var r := ResponseAt(es, n).data;
            r[0] == 0x79 || (r[0] == 0x7F && r[3] in {0x10, 0x11, 0x12, 0x14, 0x15, 0x16, 0x17, 0x18, 0x20, 0x21, 0x22, 0x23})
  {
    AnswerBytes(es, n);
  }

  /** In every run the OTA state is determined by the answers and status frames on the bus, and by which wrong keys
      started a lockout. */
  lemma {:induction false} StateIsHistory(es: seq<Event>, n: nat)
    requires n <= |es|
    ensures OtaAt(es, n).state == StateShown(TraceOf(es), n)
  {
    if n != 0 {
      var t, m := TraceOf(es), n - 1;
      StateIsHistory(es, m);
      StepIsLawful(es, m);
      if es[m].Request? {
        RefusalsAreTwelve(es, m);
        AnswersAreOnTheBus(es, m);
        MoveIsLawful(t.states[m], es[m].request, t.answers[m], t.states[n]);
      }
    }
  }

  /** Command byte of the latest well-formed request, 0 before the first. */
  function LatestCommand(es: seq<Event>, n: nat): byte
    requires n <= |es|
  {
    if n == 0 then 0
    else if es[n - 1].Request? && es[n - 1].request.id == 0x650 && es[n - 1].request.length == 8 then es[n - 1].request.data[0]
    else LatestCommand(es, n - 1)
  }

  lemma CommandIsNoted(o: Ota, e: Event)
    ensures OtaAfter(o, e).lastCommand ==
            if e.Request? && e.request.id == 0x650 && e.request.length == 8 then e.request.data[0] else o.lastCommand
  {
  }

  lemma {:induction false} LastCommandIsHistory(es: seq<Event>, n: nat)
    requires n <= |es|
    ensures OtaAt(es, n).lastCommand == LatestCommand(es, n)
  {
    if n != 0 {
      LastCommandIsHistory(es, n - 1);
      CommandIsNoted(OtaAt(es, n - 1), es[n - 1]);
    }
  }
}
