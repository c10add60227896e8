/** What the OTA state says about the requests that led to it: the activation protocol, the upload
    buffer and the version number, each as a function of the whole run. */
module OtaHistory {
  import opened Bytes
  import opened OtaSpec
  import opened GatewaySpec
  import opened OtaInvariants
  import opened OtaTraces

  // ---------------------------------------------------------------------------------------------
  // The activation protocol

  /** The latest seed issued before event `n` was issued by event `seedAt`. */
  predicate SeedFrom(t: Trace, n: nat, seedAt: nat)
    requires n <= |t.events|
  {
    && seedAt < n && Acked(t, seedAt, CMD_REQUEST_SEED)
    && forall j :: seedAt < j < n ==> !Acked(t, j, CMD_REQUEST_SEED)
  }

  /** The session open before event `n` was unlocked at `keyAt` with the key of the seed issued at `seedAt`. */
  predicate UnlockedBy(t: Trace, n: nat, seedAt: nat, keyAt: nat)
    requires n <= |t.events|
  {
    && SeedFrom(t, n, seedAt) && seedAt < keyAt < n && Acked(t, keyAt, CMD_SEND_KEY)
    && t.events[keyAt].request.data[2] == Key(t.answers[seedAt].detail)
  }

  /** Concatenation, in order, of the payloads accepted by events `from .. to`. */
  function Payloads(t: Trace, from: nat, to: nat): seq<byte>
    requires to <= |t.events|
  {
    if to <= from then []
    else Payloads(t, from, to - 1) + (if Acked(t, to - 1, CMD_DATA) then Payload(t.events[to - 1].request) else [])
  }

  /** Since the START accepted at `startAt`, every request was an accepted DATA or left the state alone. */
  predicate Uploading(t: Trace, n: nat, startAt: nat)
    requires n <= |t.events|
  {
    && startAt < n && Acked(t, startAt, CMD_START)
    && forall j :: startAt < j < n && t.events[j].Request? ==> Acked(t, j, CMD_DATA) || Neutral(t, j)
  }

  /** The upload started at `startAt` was ended at `endAt` by an END that carries the XOR of exactly
      the payloads accepted since, and every later request left the state alone. */
  predicate Ended(t: Trace, n: nat, startAt: nat, endAt: nat)
    requires n <= |t.events|
  {
    && endAt < n && Uploading(t, endAt, startAt) && Acked(t, endAt, CMD_END)
    && t.events[endAt].request.data[2] == XorAll(Payloads(t, startAt + 1, endAt))
    && forall j :: endAt < j < n && t.events[j].Request? ==> Neutral(t, j)
  }

  lemma {:induction false} SeedWitness(t: Trace, n: nat) returns (seedAt: nat)
    requires Lawful(t) && n <= |t.events| && t.states[n].security.seedIssued
    ensures SeedFrom(t, n, seedAt) && t.answers[seedAt].detail == t.states[n].security.seed
  {
    var m := n - 1;
    assert LawfulStep(t, m);
    if Acked(t, m, CMD_REQUEST_SEED) {
      seedAt := m;
    } else {
      seedAt := SeedWitness(t, m);
    }
  }

  lemma {:induction false} UnlockWitness(t: Trace, n: nat) returns (seedAt: nat, keyAt: nat)
    requires Lawful(t) && n <= |t.events| && t.states[n].security.unlocked
    ensures UnlockedBy(t, n, seedAt, keyAt)
  {
    var m := n - 1;
    assert LawfulStep(t, m);
    if Acked(t, m, CMD_SEND_KEY) {
      seedAt := SeedWitness(t, m);
      keyAt := m;
    } else {
      seedAt, keyAt := UnlockWitness(t, m);
    }
  }

  lemma {:induction false} UploadWitness(t: Trace, n: nat) returns (startAt: nat)
    requires Lawful(t) && n <= |t.events| && t.states[n].state.Open()
    ensures Uploading(t, n, startAt) && t.states[n].upload.Stored() == Payloads(t, startAt + 1, n)
  {
    var m := n - 1;
    assert LawfulStep(t, m);
    if Acked(t, m, CMD_START) {
      startAt := m;
    } else {
      startAt := UploadWitness(t, m);
    }
  }

  lemma {:induction false} EndWitness(t: Trace, n: nat) returns (startAt: nat, endAt: nat)
    requires Lawful(t) && n <= |t.events| && t.states[n].state.Verifying?
    ensures Ended(t, n, startAt, endAt) && forall j :: endAt < j < n ==> !t.events[j].Published?
  {
    var m := n - 1;
    assert LawfulStep(t, m);
    if Acked(t, m, CMD_END) {
      startAt := UploadWitness(t, m);
      endAt := m;
    } else {
      startAt, endAt := EndWitness(t, m);
    }
  }

  lemma {:induction false} ReadyWitness(t: Trace, n: nat) returns (startAt: nat, endAt: nat, publishAt: nat)
    requires Lawful(t) && n <= |t.events| && t.states[n].state.ReadyToActivate?
    ensures Ended(t, n, startAt, endAt) && endAt < publishAt < n
    ensures PublishesVerifying(t, publishAt) && forall j :: endAt < j < publishAt ==> !t.events[j].Published?
  {
    var m := n - 1;
    assert LawfulStep(t, m);
    if PublishesVerifying(t, m) {
      startAt, endAt := EndWitness(t, m);
      publishAt := m;
    } else {
      startAt, endAt, publishAt := ReadyWitness(t, m);
    }
  }

  /** The events of a whole, uninterrupted activation: the latest seed, its key, START, the accepted
      DATA, END, the first status frame after it, and nothing in between that touches the OTA state. */
  predicate ProtocolBefore(t: Trace, n: nat, seedAt: nat, keyAt: nat, startAt: nat, endAt: nat, publishAt: nat)
    requires n <= |t.events|
  {
    && UnlockedBy(t, n, seedAt, keyAt)
    && keyAt < startAt < endAt < publishAt < n
    && Ended(t, n, startAt, endAt)
    && PublishesVerifying(t, publishAt)
    && forall j :: endAt < j < publishAt ==> !t.events[j].Published?
  }

  lemma ActivationWitness(t: Trace, n: nat) returns (seedAt: nat, keyAt: nat, startAt: nat, endAt: nat, publishAt: nat)
    requires Lawful(t) && n < |t.events| && Acked(t, n, CMD_ACTIVATE)
    ensures ProtocolBefore(t, n, seedAt, keyAt, startAt, endAt, publishAt)
  {
    assert LawfulStep(t, n);
    startAt, endAt, publishAt := ReadyWitness(t, n);
    assert LawfulStep(t, startAt);
    seedAt, keyAt := UnlockWitness(t, startAt);
    assert SeedFrom(t, n, seedAt);
  }

  /** In every run, an accepted ACTIVATE is the end of a complete protocol run, although ACTIVATE, END
      and DATA never test the unlock themselves. */
  lemma ActivationNeedsProtocol(es: seq<Event>, n: nat)
    requires n < |es| && Acked(TraceOf(es), n, CMD_ACTIVATE)
    ensures exists seedAt, keyAt, startAt, endAt, publishAt ::
              ProtocolBefore(TraceOf(es), n, seedAt, keyAt, startAt, endAt, publishAt)
  {
    RunsAreLawful(es);
    var seedAt, keyAt, startAt, endAt, publishAt := ActivationWitness(TraceOf(es), n);
  }

  /** Requests that leave the state alone keep VERIFYING and READY_TO_ACTIVATE in place. */
  lemma {:induction false} NeutralKeepsState(t: Trace, from: nat, n: nat)
    requires Lawful(t) && from <= n <= |t.events|
    requires forall j :: from <= j < n && t.events[j].Request? ==> Neutral(t, j)
    requires t.states[from].state.ReadyToActivate?
          || (t.states[from].state.Verifying? && forall j :: from <= j < n ==> !t.events[j].Published?)
    ensures t.states[n].state == t.states[from].state
  {
    if from < n {
      NeutralKeepsState(t, from, n - 1);
      assert LawfulStep(t, n - 1);
    }
  }

  lemma ProtocolReachesReady(t: Trace, n: nat, seedAt: nat, keyAt: nat, startAt: nat, endAt: nat, publishAt: nat)
    requires Lawful(t) && n <= |t.events| && ProtocolBefore(t, n, seedAt, keyAt, startAt, endAt, publishAt)
    ensures t.states[n].state.ReadyToActivate?
  {
    assert LawfulStep(t, endAt);
    NeutralKeepsState(t, endAt + 1, publishAt);
    assert LawfulStep(t, publishAt);
    NeutralKeepsState(t, publishAt + 1, n);
  }

  /** READY_TO_ACTIVATE is all that a well-formed ACTIVATE needs. */
  lemma ReadyAccepts(es: seq<Event>, n: nat)
    requires n < |es| && es[n].Request? && WellFormed(es[n].request) && es[n].request.data[0] == CMD_ACTIVATE
    requires OtaAt(es, n).state.ReadyToActivate?
    ensures Acked(TraceOf(es), n, CMD_ACTIVATE)
  {
    InvariantHolds(es, n);
  }

  /** A well-formed ACTIVATE is accepted exactly at the end of a complete protocol run. */
  lemma ActivationIffProtocol(es: seq<Event>, n: nat)
    requires n < |es| && es[n].Request? && WellFormed(es[n].request) && es[n].request.data[0] == CMD_ACTIVATE
    ensures Acked(TraceOf(es), n, CMD_ACTIVATE) <==>
            exists seedAt, keyAt, startAt, endAt, publishAt ::
              ProtocolBefore(TraceOf(es), n, seedAt, keyAt, startAt, endAt, publishAt)
  {
    RunsAreLawful(es);
    if Acked(TraceOf(es), n, CMD_ACTIVATE) {
      ActivationNeedsProtocol(es, n);
    }
    if seedAt, keyAt, startAt, endAt, publishAt :|
      ProtocolBefore(TraceOf(es), n, seedAt, keyAt, startAt, endAt, publishAt)
    {
      ProtocolReachesReady(TraceOf(es), n, seedAt, keyAt, startAt, endAt, publishAt);
      ReadyAccepts(es, n);
    }
  }

  // ---------------------------------------------------------------------------------------------
  // The upload buffer

  predicate ResetsBuffer(t: Trace, n: nat)
    requires n < |t.events|
  {
    Acked(t, n, CMD_REQUEST_SEED) || Acked(t, n, CMD_START) || Acked(t, n, CMD_ABORT)
  }

  /** The payload bytes accepted, in order, since the buffer was last reset. */
  function AcceptedBytes(t: Trace, n: nat): seq<byte>
    requires n <= |t.events|
  {
    if n == 0 || ResetsBuffer(t, n - 1) then []
    else AcceptedBytes(t, n - 1) + (if Acked(t, n - 1, CMD_DATA) then Payload(t.events[n - 1].request) else [])
  }

  lemma {:induction false} StoredIsHistory(t: Trace, n: nat)
    requires Lawful(t) && n <= |t.events|
    ensures t.states[n].upload.Stored() == AcceptedBytes(t, n)
  {
    if n != 0 {
      assert LawfulStep(t, n - 1);
      StoredIsHistory(t, n - 1);
    }
  }

  /** `u` holds exactly the bytes `accepted`, followed by zeros, and their XOR is that of the whole array. */
  predicate Holds(u: Upload, accepted: seq<byte>) {
    && u.length == |accepted|
    && u.buffer == accepted + Zeros(256 - u.length)
    && XorAll(u.Stored()) == XorAll(u.buffer) == XorAll(accepted)
  }

  lemma TailIsZero(u: Upload)
    requires ZeroTail(u)
    ensures Holds(u, u.Stored())
  {
    assert u.buffer == u.Stored() + Zeros(256 - u.length);
    XorConcat(u.Stored(), Zeros(256 - u.length));
    XorZeros(Zeros(256 - u.length));
    XorUnit(XorAll(u.Stored()));
  }

  /** In every run the 256-byte array is the payload accepted since the last reset followed by zeros. */
  lemma BufferIsHistory(es: seq<Event>, n: nat)
    requires n <= |es|
    ensures Holds(OtaAt(es, n).upload, AcceptedBytes(TraceOf(es), n))
  {
    RunsAreLawful(es);
    StoredIsHistory(TraceOf(es), n);
    InvariantHolds(es, n);
    TailIsZero(OtaAt(es, n).upload);
  }

  // ---------------------------------------------------------------------------------------------
  // Version number and counting

  /** How many of the first `n` events are requests with this command, answered with ACK. */
  function Count(t: Trace, n: nat, command: byte): nat
    requires n <= |t.events|
  {
    if n == 0 then 0 else Count(t, n - 1, command) + if Acked(t, n - 1, command) then 1 else 0
  }

  function CountVerifying(t: Trace, n: nat): nat
    requires n <= |t.events|
  {
    if n == 0 then 0 else CountVerifying(t, n - 1) + if PublishesVerifying(t, n - 1) then 1 else 0
  }

  /** The slack in the counting chain is what the state accounts for. */
  lemma {:induction false} CountsByState(t: Trace, n: nat)
    requires Lawful(t) && n <= |t.events|
    ensures var s := t.states[n].state;
            && Count(t, n, CMD_ACTIVATE) + (if s.ReadyToActivate? then 1 else 0) <= CountVerifying(t, n)
            && CountVerifying(t, n) + (if s.Verifying? then 1 else 0) <= Count(t, n, CMD_END)
            && Count(t, n, CMD_END) + (if s.Open() then 1 else 0) <= Count(t, n, CMD_START)
  {
    if n != 0 {
      assert LawfulStep(t, n - 1);
      CountsByState(t, n - 1);
    }
  }

  lemma {:induction false} VersionCounts(t: Trace, n: nat)
    requires Lawful(t) && n <= |t.events|
    ensures t.states[n].version == 1 + Count(t, n, CMD_ACTIVATE) % 255
  {
    if n != 0 {
      assert LawfulStep(t, n - 1);
      VersionCounts(t, n - 1);
    }
  }

  /** The version counts accepted activations modulo 255, and each one used up its own published
      VERIFYING frame, its own accepted END and its own accepted START. */
  lemma CountingChain(es: seq<Event>, n: nat)
    requires n <= |es|
    ensures var t := TraceOf(es);
            && OtaAt(es, n).version == 1 + Count(t, n, CMD_ACTIVATE) % 255
            && Count(t, n, CMD_ACTIVATE) <= CountVerifying(t, n) <= Count(t, n, CMD_END) <= Count(t, n, CMD_START)
  {
    RunsAreLawful(es);
    CountsByState(TraceOf(es), n);
    VersionCounts(TraceOf(es), n);
  }

  /** How many of the first `n` events are key attempts: a SEND_KEY that is accepted, or refused as wrong. */
  function CountAttempts(t: Trace, n: nat): nat
    requires n <= |t.events|
  {
    if n == 0 then 0
    else CountAttempts(t, n - 1) + if Acked(t, n - 1, CMD_SEND_KEY) || Nacked(t, n - 1, INVALID_KEY) then 1 else 0
  }

  lemma {:induction false} AttemptsBySeed(t: Trace, n: nat)
    requires Lawful(t) && n <= |t.events|
    ensures CountAttempts(t, n) + (if t.states[n].security.seedIssued then 1 else 0) <= Count(t, n, CMD_REQUEST_SEED)
  {
    if n != 0 {
      assert LawfulStep(t, n - 1);
      AttemptsBySeed(t, n - 1);
    }
  }

  /** Every issued seed is good for one attempt: in every run the key attempts, and one more while a seed is
      outstanding, never exceed the acknowledged seed requests. */
  lemma SeedsAreUsedOnce(es: seq<Event>, n: nat)
    requires n <= |es|
    ensures CountAttempts(TraceOf(es), n) + (if OtaAt(es, n).security.seedIssued then 1 else 0)
            <= Count(TraceOf(es), n, CMD_REQUEST_SEED)
  {
    RunsAreLawful(es);
    AttemptsBySeed(TraceOf(es), n);
  }
}
