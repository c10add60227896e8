/** End to end: a client that follows the protocol always gets its image activated. */
module Uploads {
  import opened Bytes
  import opened Frames
  import opened OtaSpec
  import opened GatewaySpec
  import opened OtaInvariants
  import opened OtaEffects
  import opened OtaTraces
  import opened Lockouts

  /** One DATA request of the client: its sequence number is free, its payload at most four bytes. */
  datatype Chunk = Chunk(sequence: byte, payload: seq<byte>)

  function Image(chunks: seq<Chunk>): seq<byte> {
    if |chunks| == 0 then [] else Image(chunks[..|chunks| - 1]) + chunks[|chunks| - 1].payload
  }

  // ---------------------------------------------------------------------------------------------
  // When requests are accepted

  predicate AuthenticData(o: Ota, request: Frame) {
    && request.data[0] == CMD_DATA && request.data[2] <= 4
    && request.data[3] == DataAuth(o.security.seed, request.data[1], request.data[2])
  }

  /** The upload record after an overflowing chunk: the buffer and its length are untouched. */
  function Overflowed(u: Upload, request: Frame): Upload {
    u.(overflow := true, receivedAuth := request.data[3], expectedAuth := request.data[3])
  }

  predicate Acks(a: Answer, command: byte) {
    a.Answer? && a.code == ACK && a.command == command
  }

  /** The conditions under which a well-formed request in state `o` (`u` once the lockout is up to date) must
      be accepted, or refused for overflow. */
  predicate WillingAnswer(o: Ota, u: Ota, request: Frame, a: Answer, o1: Ota) {
    var command := request.data[0];
    && (command == CMD_REQUEST_SEED && !u.security.lockoutActive ==> Acks(a, command))
    && (command == CMD_SEND_KEY && o.security.seedIssued && request.data[2] == Key(o.security.seed) ==> Acks(a, command))
    && (command == CMD_START && o.security.unlocked ==> Acks(a, command))
    && (AuthenticData(o, request) && o.state.Open() ==>
          if o.upload.length + request.data[2] <= 256 then Acks(a, command)
          else a.Answer? && a.code == NACK && a.detail == BUFFER_OVERFLOW && o1.upload == Overflowed(o.upload, request))
    && (command == CMD_END && o.state.Open() && request.data[2] == XorAll(o.upload.Stored()) ==> Acks(a, command))
    && (command == CMD_ACTIVATE && o.state.ReadyToActivate? ==> Acks(a, command))
  }

  predicate WillingStep(t: Trace, n: nat)
    requires n < |t.events|
  {
    var o, e := t.states[n], t.events[n];
    e.Request? && WellFormed(e.request) ==> WillingAnswer(o, Observed(o, e), e.request, t.answers[n], t.states[n + 1])
  }

  predicate Willing(t: Trace) {
    forall n :: 0 <= n < |t.events| ==> WillingStep(t, n)
  }

  lemma KnownIsWilling(u: Ota, request: Frame, fail: nat)
    requires OtaInv(u) && KnownCommand(request.data[0])
    ensures var d := DecideKnown(u, request, fail);
            WillingAnswer(u, u, request, Answer(d.code, d.command, d.detail), Answered(d))
  {
  }

  /** A session with a seed outstanding or unlocked is not locked out, so its update changes nothing. */
  lemma NothingToExpire(o: Ota, e: Event)
    requires OtaInv(o) && (o.security.seedIssued || o.security.unlocked || !o.state.Failed?)
    ensures Observed(o, e) == o
  {
  }

  lemma RequestIsWilling(o: Ota, e: Event)
    requires OtaInv(o) && e.Request? && WellFormed(e.request)
    ensures var d := Decide(o, e.request, Tick(e.gateClock), Tick(e.failClock));
            WillingAnswer(o, Observed(o, e), e.request, Answer(d.code, d.command, d.detail), Answered(d))
  {
    if KnownCommand(e.request.data[0]) {
      var o1 := o.(lastCommand := e.request.data[0]);
      LockoutKeepsInv(o1, Tick(e.gateClock));
      KnownIsWilling(UpdateLockout(o1, Tick(e.gateClock)), e.request, Tick(e.failClock));
      if o.security.seedIssued || o.security.unlocked || !o.state.Failed? {
        NothingToExpire(o, e);
      }
    }
  }

  lemma StepIsWilling(es: seq<Event>, n: nat)
    requires n < |es|
    ensures WillingStep(TraceOf(es), n)
  {
    InvariantHolds(es, n);
    if es[n].Request? && WellFormed(es[n].request) {
      RequestIsWilling(OtaAt(es, n), es[n]);
    }
  }

  lemma RunsAreWilling(es: seq<Event>)
    ensures Willing(TraceOf(es))
  {
    forall n | 0 <= n < |es| ensures WillingStep(TraceOf(es), n) {
      StepIsWilling(es, n);
    }
  }

  // ---------------------------------------------------------------------------------------------
  // The client's run

  predicate Asks(t: Trace, n: nat, command: byte) {
    n < |t.events| && t.events[n].Request? && WellFormed(t.events[n].request) && t.events[n].request.data[0] == command
  }

  /** No request arrives in `from .. to`; frames of other ECUs, checks and status frames may. */
  predicate Quiet(t: Trace, from: nat, to: nat)
    requires to <= |t.events|
  {
    forall j :: from <= j < to ==> !t.events[j].Request?
  }

  /** Event `to` is the client's next request after event `from`. */
  predicate Follows(t: Trace, from: nat, to: nat) {
    from < to < |t.events| && Quiet(t, from + 1, to)
  }

  /** Event `n` is the DATA request for `chunk`, authenticated with `seed`. */
  predicate SendsChunk(t: Trace, n: nat, chunk: Chunk, seed: byte) {
    && Asks(t, n, CMD_DATA) && |chunk.payload| <= 4
    && var d := t.events[n].request.data;
       && d[1] == chunk.sequence && d[2] == |chunk.payload|
       && d[3] == DataAuth(seed, chunk.sequence, |chunk.payload|)
       && Payload(t.events[n].request) == chunk.payload
  }

  /** Where in a run the client's requests are. */
  datatype Script = Script(seedAt: nat, keyAt: nat, startAt: nat, dataAt: seq<nat>, endAt: nat, activateAt: nat) {
    /** The request before DATA number `k`; for `k` past the last one, the request before END. */
    function Before(k: nat): nat
      requires k <= |dataAt|
    {
      if k == 0 then startAt else dataAt[k - 1]
    }
  }

  /** DATA number `k` carries chunk number `k` and comes next after the request before it. */
  predicate ChunkInPlace(t: Trace, s: Script, chunks: seq<Chunk>, seed: byte, k: nat)
    requires |s.dataAt| == |chunks|
  {
    k < |chunks| && Follows(t, s.Before(k), s.dataAt[k]) && SendsChunk(t, s.dataAt[k], chunks[k], seed)
  }

  /** Seed, key of the seed in the reply, START, and one DATA per chunk. */
  predicate Sends(t: Trace, s: Script, chunks: seq<Chunk>) {
    && |s.dataAt| == |chunks|
    && Follows(t, s.seedAt, s.keyAt) && Follows(t, s.keyAt, s.startAt)
    && Asks(t, s.seedAt, CMD_REQUEST_SEED) && t.answers[s.seedAt].Answer?
    && Asks(t, s.keyAt, CMD_SEND_KEY) && t.events[s.keyAt].request.data[2] == Key(t.answers[s.seedAt].detail)
    && Asks(t, s.startAt, CMD_START)
    && forall k :: 0 <= k < |chunks| ==> ChunkInPlace(t, s, chunks, t.answers[s.seedAt].detail, k)
  }

  /** END with the XOR of the image and, after at least one status frame, ACTIVATE. */
  predicate Finishes(t: Trace, s: Script, chunks: seq<Chunk>) {
    && |s.dataAt| == |chunks|
    && Follows(t, s.Before(|chunks|), s.endAt) && Follows(t, s.endAt, s.activateAt)
    && Asks(t, s.endAt, CMD_END) && t.events[s.endAt].request.data[2] == XorAll(Image(chunks))
    && Asks(t, s.activateAt, CMD_ACTIVATE)
    && exists j :: s.endAt < j < s.activateAt && t.events[j].Published?
  }

  /** DATA number `k` of the script is acknowledged. */
  predicate DataAcked(t: Trace, s: Script, k: nat) {
    k < |s.dataAt| && s.dataAt[k] < |t.events| && Acked(t, s.dataAt[k], CMD_DATA)
  }

  /** What a quiet stretch keeps, unless it starts in VERIFYING. */
  lemma {:induction false} QuietKeeps(t: Trace, from: nat, to: nat)
    requires Lawful(t) && from <= to <= |t.events| && Quiet(t, from, to) && !t.states[from].state.Verifying?
    ensures SameUpload(t.states[from], t.states[to])
    ensures t.states[to].security.seed == t.states[from].security.seed
    ensures t.states[to].security.unlocked == t.states[from].security.unlocked
    ensures t.states[to].security.seedIssued == t.states[from].security.seedIssued
  {
    if from < to {
      QuietKeeps(t, from, to - 1);
      assert LawfulStep(t, to - 1);
    }
  }

  /** A quiet stretch that starts in VERIFYING ends in READY_TO_ACTIVATE once a status frame is published. */
  lemma {:induction false} QuietVerifies(t: Trace, from: nat, to: nat)
    requires Lawful(t) && from <= to <= |t.events| && Quiet(t, from, to) && t.states[from].state.Verifying?
    ensures t.states[to].upload == t.states[from].upload && t.states[to].version == t.states[from].version
    ensures t.states[to].state == if exists j :: from <= j < to && t.events[j].Published? then ReadyToActivate else Verifying
  {
    if from < to {
      QuietVerifies(t, from, to - 1);
      assert LawfulStep(t, to - 1);
      if j :| from <= j < to && t.events[j].Published? {
        assert j < to - 1 || t.events[to - 1].Published?;
      }
    }
  }

  /** An upload is open in state `o`: unlocked under `seed`, with `stored` received so far. */
  predicate OpenWith(o: Ota, seed: byte, version: byte, stored: seq<byte>) {
    o.security.unlocked && o.security.seed == seed && o.version == version && o.state.Open() && o.upload.Stored() == stored
  }

  /** Seed, key and START are acknowledged and open an empty upload. */
  lemma OpensSession(t: Trace, s: Script, chunks: seq<Chunk>)
    requires Lawful(t) && Willing(t) && Sends(t, s, chunks)
    requires !Observed(t.states[s.seedAt], t.events[s.seedAt]).security.lockoutActive
    ensures Acked(t, s.seedAt, CMD_REQUEST_SEED) && Acked(t, s.keyAt, CMD_SEND_KEY) && Acked(t, s.startAt, CMD_START)
    ensures OpenWith(t.states[s.startAt + 1], t.answers[s.seedAt].detail, t.states[s.seedAt].version, [])
  {
    assert LawfulStep(t, s.seedAt) && WillingStep(t, s.seedAt);
    QuietKeeps(t, s.seedAt + 1, s.keyAt);
    assert LawfulStep(t, s.keyAt) && WillingStep(t, s.keyAt);
    QuietKeeps(t, s.keyAt + 1, s.startAt);
    assert LawfulStep(t, s.startAt) && WillingStep(t, s.startAt);
  }

  /** One chunk that fits is acknowledged and appended; the first that does not is refused with
      BUFFER_OVERFLOW and leaves buffer, length and version as they were. */
  lemma ChunkStep(t: Trace, n: nat, chunk: Chunk, seed: byte, version: byte, stored: seq<byte>)
    requires Lawful(t) && Willing(t) && SendsChunk(t, n, chunk, seed)
    requires OpenWith(t.states[n], seed, version, stored)
    ensures |stored| + |chunk.payload| <= 256 ==>
              Acked(t, n, CMD_DATA) && OpenWith(t.states[n + 1], seed, version, stored + chunk.payload)
    ensures |stored| + |chunk.payload| > 256 ==>
              && Nacked(t, n, BUFFER_OVERFLOW) && t.states[n + 1].state.Failed? && t.states[n + 1].version == version
              && t.states[n + 1].upload.buffer == t.states[n].upload.buffer
              && t.states[n + 1].upload.length == t.states[n].upload.length == |stored|
  {
    assert LawfulStep(t, n) && WillingStep(t, n);
    assert t.states[n].upload.length == |t.states[n].upload.Stored()|;
  }

  lemma ImageStep(chunks: seq<Chunk>, k: nat)
    requires k < |chunks|
    ensures Image(chunks[..k + 1]) == Image(chunks[..k]) + chunks[k].payload
  {
    assert chunks[..k + 1][..k] == chunks[..k];
  }

  /** After `k` chunks that fit, their bytes and no others are stored. */
  lemma {:induction false} ChunksStored(t: Trace, s: Script, chunks: seq<Chunk>, version: byte, k: nat)
    requires Lawful(t) && Willing(t) && Sends(t, s, chunks) && k <= |chunks| && |Image(chunks[..k])| <= 256
    requires OpenWith(t.states[s.startAt + 1], t.answers[s.seedAt].detail, version, [])
    ensures s.Before(k) < |t.events|
    ensures OpenWith(t.states[s.Before(k) + 1], t.answers[s.seedAt].detail, version, Image(chunks[..k]))
    ensures forall j :: 0 <= j < k ==> DataAcked(t, s, j)
  {
    if k != 0 {
      var j, seed := k - 1, t.answers[s.seedAt].detail;
      ImageStep(chunks, j);
      ChunksStored(t, s, chunks, version, j);
      assert ChunkInPlace(t, s, chunks, seed, j);
      QuietKeeps(t, s.Before(j) + 1, s.dataAt[j]);
      ChunkStep(t, s.dataAt[j], chunks[j], seed, version, Image(chunks[..j]));
    }
  }

  /** END and, after a status frame, ACTIVATE complete an open upload. */
  lemma Completes(t: Trace, from: nat, endAt: nat, activateAt: nat, seed: byte, version: byte, stored: seq<byte>)
    requires Lawful(t) && Willing(t) && from <= endAt < activateAt < |t.events|
    requires OpenWith(t.states[from], seed, version, stored)
    requires Quiet(t, from, endAt) && Asks(t, endAt, CMD_END) && t.events[endAt].request.data[2] == XorAll(stored)
    requires Quiet(t, endAt + 1, activateAt) && Asks(t, activateAt, CMD_ACTIVATE)
    requires exists j :: endAt < j < activateAt && t.events[j].Published?
    ensures Acked(t, endAt, CMD_END) && Acked(t, activateAt, CMD_ACTIVATE)
    ensures var o := t.states[activateAt + 1];
            o.state.Success? && o.upload.Stored() == stored && o.version == AdvanceVersion(version)
  {
    QuietKeeps(t, from, endAt);
    assert LawfulStep(t, endAt) && WillingStep(t, endAt);
    QuietVerifies(t, endAt + 1, activateAt);
    assert LawfulStep(t, activateAt) && WillingStep(t, activateAt);
  }

  lemma UploadOnTrace(t: Trace, s: Script, chunks: seq<Chunk>)
    requires Lawful(t) && Willing(t) && Sends(t, s, chunks) && Finishes(t, s, chunks) && |Image(chunks)| <= 256
    requires !Observed(t.states[s.seedAt], t.events[s.seedAt]).security.lockoutActive
    ensures Acked(t, s.seedAt, CMD_REQUEST_SEED) && Acked(t, s.keyAt, CMD_SEND_KEY) && Acked(t, s.startAt, CMD_START)
    ensures forall k :: 0 <= k < |chunks| ==> DataAcked(t, s, k)
    ensures Acked(t, s.endAt, CMD_END) && Acked(t, s.activateAt, CMD_ACTIVATE)
    ensures var o := t.states[s.activateAt + 1];
            o.state.Success? && o.upload.Stored() == Image(chunks) && o.version == AdvanceVersion(t.states[s.seedAt].version)
  {
    var seed, version := t.answers[s.seedAt].detail, t.states[s.seedAt].version;
    OpensSession(t, s, chunks);
    assert chunks[..|chunks|] == chunks;
    ChunksStored(t, s, chunks, version, |chunks|);
    Completes(t, s.Before(|chunks|) + 1, s.endAt, s.activateAt, seed, version, Image(chunks));
  }

  /** End to end: from every reachable state without an active lockout, any image of at most 256 bytes in
      chunks of at most four, with any sequence numbers, is acknowledged at every step and activated; the
      buffer then starts with the image and the version has advanced once. */
  lemma UploadSucceeds(es: seq<Event>, s: Script, chunks: seq<Chunk>)
    requires Sends(TraceOf(es), s, chunks) && Finishes(TraceOf(es), s, chunks) && |Image(chunks)| <= 256
    requires !Observed(TraceOf(es).states[s.seedAt], es[s.seedAt]).security.lockoutActive
    ensures var t := TraceOf(es);
            && Acked(t, s.seedAt, CMD_REQUEST_SEED) && Acked(t, s.keyAt, CMD_SEND_KEY) && Acked(t, s.startAt, CMD_START)
            && (forall k :: 0 <= k < |chunks| ==> DataAcked(t, s, k))
            && Acked(t, s.endAt, CMD_END) && Acked(t, s.activateAt, CMD_ACTIVATE)
            && var o := t.states[s.activateAt + 1];
               o.state.Success? && o.upload.Stored() == Image(chunks) && o.version == AdvanceVersion(t.states[s.seedAt].version)
  {
    RunsAreLawful(es);
    RunsAreWilling(es);
    UploadOnTrace(TraceOf(es), s, chunks);
  }

  lemma OverflowOnTrace(t: Trace, s: Script, chunks: seq<Chunk>, k: nat)
    requires Lawful(t) && Willing(t) && Sends(t, s, chunks) && k < |chunks|
    requires !Observed(t.states[s.seedAt], t.events[s.seedAt]).security.lockoutActive
    requires |Image(chunks[..k])| <= 256 < |Image(chunks[..k + 1])|
    ensures forall j :: 0 <= j < k ==> DataAcked(t, s, j)
    ensures s.dataAt[k] < |t.events| && Nacked(t, s.dataAt[k], BUFFER_OVERFLOW)
    ensures var o := t.states[s.dataAt[k] + 1];
            && o.state.Failed? && o.version == t.states[s.seedAt].version
            && o.upload.Stored() == Image(chunks[..k])
            && o.upload.buffer == t.states[s.dataAt[k]].upload.buffer
  {
    var seed, version := t.answers[s.seedAt].detail, t.states[s.seedAt].version;
    OpensSession(t, s, chunks);
    ImageStep(chunks, k);
    ChunksStored(t, s, chunks, version, k);
    assert ChunkInPlace(t, s, chunks, seed, k);
    QuietKeeps(t, s.Before(k) + 1, s.dataAt[k]);
    ChunkStep(t, s.dataAt[k], chunks[k], seed, version, Image(chunks[..k]));
  }

  /** In such a run, the first chunk that would exceed 256 bytes is refused with BUFFER_OVERFLOW, and
      buffer, length and version stay what they were. */
  lemma UploadOverflows(es: seq<Event>, s: Script, chunks: seq<Chunk>, k: nat)
    requires Sends(TraceOf(es), s, chunks) && k < |chunks|
    requires !Observed(TraceOf(es).states[s.seedAt], es[s.seedAt]).security.lockoutActive
    requires |Image(chunks[..k])| <= 256 < |Image(chunks[..k + 1])|
    ensures var t := TraceOf(es);
            && s.dataAt[k] < |es| && Nacked(t, s.dataAt[k], BUFFER_OVERFLOW)
            && var o := t.states[s.dataAt[k] + 1];
               && o.state.Failed? && o.version == t.states[s.seedAt].version
               && o.upload.Stored() == Image(chunks[..k])
               && o.upload.buffer == t.states[s.dataAt[k]].upload.buffer
  {
    RunsAreLawful(es);
    RunsAreWilling(es);
    OverflowOnTrace(TraceOf(es), s, chunks, k);
  }

  // ---------------------------------------------------------------------------------------------
  // Such runs exist

  function RequestFrame(command: byte, sequence: byte, byte2: byte, byte3: byte, payload: seq<byte>): Frame
    requires |payload| <= 4
  {
    Frame(0, ID_OTA_REQUEST, REQUEST_DLC, [command, sequence, byte2, byte3] + payload + Zeros(4 - |payload|))
  }

  function Ask(clock: nat, command: byte, byte2: byte): Event {
    Request(RequestFrame(command, 0, byte2, 0, []), clock, clock)
  }

  predicate SmallChunks(chunks: seq<Chunk>) {
    forall k :: 0 <= k < |chunks| ==> |chunks[k].payload| <= 4
  }

  function ChunkEvent(clock: nat, chunk: Chunk, seed: byte): Event
    requires |chunk.payload| <= 4
  {
    var n := |chunk.payload|;
    Request(RequestFrame(CMD_DATA, chunk.sequence, n, DataAuth(seed, chunk.sequence, n), chunk.payload), clock, clock)
  }

  function ChunkEvents(clock: nat, chunks: seq<Chunk>, seed: byte): seq<Event>
    requires SmallChunks(chunks)
  {
    seq(|chunks|, k requires 0 <= k < |chunks| => ChunkEvent(clock, chunks[k], seed))
  }

  /** The seed the gateway issues when it is asked after the run `es`. */
  function NextSeed(es: seq<Event>, clock: nat): byte {
    Decide(OtaAt(es, |es|), Ask(clock, CMD_REQUEST_SEED, 0).request, Tick(clock), Tick(clock)).detail
  }

  /** What a client that is given `seed` adds to a run to upload `chunks`, all at one clock reading. */
  function ClientEvents(seed: byte, clock: nat, chunks: seq<Chunk>): seq<Event>
    requires SmallChunks(chunks)
  {
    [Ask(clock, CMD_REQUEST_SEED, 0), Ask(clock, CMD_SEND_KEY, Key(seed)), Ask(clock, CMD_START, 0)]
    + ChunkEvents(clock, chunks, seed)
    + [Ask(clock, CMD_END, XorAll(Image(chunks))), Published(clock, clock), Ask(clock, CMD_ACTIVATE, 0)]
  }

  function ClientScript(at: nat, m: nat): Script {
    Script(at, at + 1, at + 2, seq(m, k requires 0 <= k < m => at + 3 + k), at + 3 + m, at + 5 + m)
  }

  /** The client's events stand in the run `fs` from position `at` to its end. */
  predicate ClientAt(fs: seq<Event>, at: nat, clock: nat, chunks: seq<Chunk>, seed: byte) {
    && SmallChunks(chunks) && |fs| == at + |chunks| + 6
    && fs[at] == Ask(clock, CMD_REQUEST_SEED, 0)
    && fs[at + 1] == Ask(clock, CMD_SEND_KEY, Key(seed))
    && fs[at + 2] == Ask(clock, CMD_START, 0)
    && (forall k :: 0 <= k < |chunks| ==> fs[at + 3..][k] == ChunkEvent(clock, chunks[k], seed))
    && fs[at + 3 + |chunks|] == Ask(clock, CMD_END, XorAll(Image(chunks)))
    && fs[at + 4 + |chunks|] == Published(clock, clock)
    && fs[at + 5 + |chunks|] == Ask(clock, CMD_ACTIVATE, 0)
  }

  lemma ClientInPlace(es: seq<Event>, seed: byte, clock: nat, chunks: seq<Chunk>)
    requires SmallChunks(chunks)
    ensures ClientAt(es + ClientEvents(seed, clock, chunks), |es|, clock, chunks, seed)
  {
    var more, m := ClientEvents(seed, clock, chunks), |chunks|;
    var fs := es + more;
    assert fs[|es| + 3 + m] == more[3 + m] && fs[|es| + 4 + m] == more[4 + m] && fs[|es| + 5 + m] == more[5 + m];
    forall k | 0 <= k < m ensures fs[|es| + 3..][k] == ChunkEvent(clock, chunks[k], seed) {
      assert fs[|es| + 3..][k] == fs[|es| + 3 + k] == more[3 + k];
    }
  }

  /** A request of the client, recognised in a trace. */
  lemma AskIsAsked(t: Trace, n: nat, clock: nat, command: byte, byte2: byte)
    requires n < |t.events| && t.events[n] == Ask(clock, command, byte2)
    ensures Asks(t, n, command) && t.events[n].request.data[2] == byte2
  {
  }

  lemma ChunkIsSent(t: Trace, n: nat, clock: nat, chunk: Chunk, seed: byte)
    requires n < |t.events| && |chunk.payload| <= 4 && t.events[n] == ChunkEvent(clock, chunk, seed)
    ensures SendsChunk(t, n, chunk, seed)
  {
    var r := t.events[n].request;
    assert r.data[PAYLOAD_OFFSET..PAYLOAD_OFFSET + |chunk.payload|] == chunk.payload;
  }

  lemma ClientSends(t: Trace, at: nat, clock: nat, chunks: seq<Chunk>, seed: byte)
    requires ClientAt(t.events, at, clock, chunks, seed)
    requires t.answers[at].Answer? && t.answers[at].detail == seed
    ensures Sends(t, ClientScript(at, |chunks|), chunks)
  {
    AskIsAsked(t, at, clock, CMD_REQUEST_SEED, 0);
    AskIsAsked(t, at + 1, clock, CMD_SEND_KEY, Key(seed));
    AskIsAsked(t, at + 2, clock, CMD_START, 0);
    forall k | 0 <= k < |chunks| ensures ChunkInPlace(t, ClientScript(at, |chunks|), chunks, seed, k) {
      assert t.events[at + 3..][k] == t.events[at + 3 + k];
      ChunkIsSent(t, at + 3 + k, clock, chunks[k], seed);
    }
  }

  lemma ClientFinishes(t: Trace, at: nat, clock: nat, chunks: seq<Chunk>, seed: byte)
    requires ClientAt(t.events, at, clock, chunks, seed)
    ensures Finishes(t, ClientScript(at, |chunks|), chunks)
  {
    var m := |chunks|;
    AskIsAsked(t, at + 3 + m, clock, CMD_END, XorAll(Image(chunks)));
    AskIsAsked(t, at + 5 + m, clock, CMD_ACTIVATE, 0);
    assert t.events[at + 4 + m].Published?;
  }

  lemma AskObserves(o: Ota, clock: nat)
    ensures Observed(o, Ask(clock, CMD_REQUEST_SEED, 0)) == UpdateLockout(o, Tick(clock))
  {
  }

  lemma ClientSucceeds(t: Trace, at: nat, clock: nat, chunks: seq<Chunk>, seed: byte)
    requires Lawful(t) && Willing(t) && ClientAt(t.events, at, clock, chunks, seed) && |Image(chunks)| <= 256
    requires t.answers[at].Answer? && t.answers[at].detail == seed
    requires !UpdateLockout(t.states[at], Tick(clock)).security.lockoutActive
    ensures var o := t.states[|t.events|];
            o.state.Success? && o.upload.Stored() == Image(chunks) && o.version == AdvanceVersion(t.states[at].version)
  {
    ClientSends(t, at, clock, chunks, seed);
    ClientFinishes(t, at, clock, chunks, seed);
    AskObserves(t.states[at], clock);
    UploadOnTrace(t, ClientScript(at, |chunks|), chunks);
  }

  /** Extending a run changes neither its last state nor the seed it would issue next. */
  lemma SamePast(es: seq<Event>, more: seq<Event>, clock: nat)
    requires |more| > 0 && more[0] == Ask(clock, CMD_REQUEST_SEED, 0)
    ensures var t := TraceOf(es + more);
            && t.states[|es|] == OtaAt(es, |es|)
            && t.answers[|es|].Answer? && t.answers[|es|].detail == NextSeed(es, clock)
  {
    RunPrefix(es, more, 0, |es|);
    HalvesAreIndependent(es + more, 0, |es|);
    HalvesAreIndependent(es, 0, |es|);
    assert (es + more)[|es|] == more[0];
  }

  /** The clock of the run has not gone backwards, and has not passed `clock`. */
  predicate ClockAllows(es: seq<Event>, start: nat, clock: nat) {
    Monotone(es, start) && start <= clock && forall k :: 0 <= k < |es| ==> es[k].Last() <= clock
  }

  lemma ClientIsMonotone(seed: byte, clock: nat, chunks: seq<Chunk>)
    requires SmallChunks(chunks)
    ensures Monotone(ClientEvents(seed, clock, chunks), clock)
  {
    var fs := ClientEvents(seed, clock, chunks);
    forall k | 0 <= k < |fs| ensures fs[k].First() == fs[k].Last() == clock {
      assert 3 <= k < |chunks| + 3 ==> fs[k] == ChunkEvents(clock, chunks, seed)[k - 3];
    }
  }

  /** From every reachable state without an active lockout, every image of at most 256 bytes, however it is
      cut into chunks of at most four, can be brought to SUCCESS: `fs` continues the run `es` to there, at any
      clock that the run has not passed. */
  lemma UploadIsPossible(es: seq<Event>, start: nat, clock: nat, chunks: seq<Chunk>) returns (fs: seq<Event>)
    requires SmallChunks(chunks) && |Image(chunks)| <= 256
    requires !UpdateLockout(OtaAt(es, |es|), Tick(clock)).security.lockoutActive
    ensures es <= fs && (ClockAllows(es, start, clock) ==> Monotone(fs, start))
    ensures var o := TraceOf(fs).states[|fs|];
            o.state.Success? && o.upload.Stored() == Image(chunks) && o.version == AdvanceVersion(OtaAt(es, |es|).version)
  {
    var seed := NextSeed(es, clock);
    var more := ClientEvents(seed, clock, chunks);
    fs := es + more;
    RunsAreLawful(fs);
    RunsAreWilling(fs);
    ClientInPlace(es, seed, clock, chunks);
    SamePast(es, more, clock);
    ClientSucceeds(TraceOf(fs), |es|, clock, chunks, seed);
    if ClockAllows(es, start, clock) {
      ClientIsMonotone(seed, clock, chunks);
      AppendMonotone(es, more, start, clock);
    }
  }
}
