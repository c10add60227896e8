/** The panel's buttons and the gateway as a closed loop: what each button brings about, and a whole upload made of
    buttons. */
module PanelSessions {
  import opened Bytes
  import opened Frames
  import opened OtaSpec
  import opened GatewaySpec
  import opened OtaInvariants
  import opened OtaTraces
  import opened OtaHistory
  import opened OtaAnswers
  import opened Uploads
  import opened Panels
  import Lockouts

  // ---------------------------------------------------------------------------------------------
  // One button

  /** The request frame of a button, byte by byte. */
  lemma ButtonBytes(p: Panel, b: Button)
    ensures var f, s := PressFrame(p, b), (p.sequence + 1) % 256;
            && f.id == 0x650 && f.length == 8 && f.data[1] == s
            && match b
               case RequestSeed => f.data == [0x10, s, 0, 0, 0, 0, 0, 0]
               case SendCorrectKey => f.data == [0x11, s, Xor(p.lastSeed, 0xA5), 0, 0, 0, 0, 0]
               case SendWrongKey => f.data == [0x11, s, Xor(p.lastSeed, 0xA4), 0, 0, 0, 0, 0]
               case OtaStart => f.data == [0x01, s, 0, 0, 0, 0, 0, 0]
               case SendOtaChunk =>
                 f.data == [0x02, s, 4, Xor(Xor(Xor(p.lastSeed, s), 4), 0xC3), 0x11, 0x22, 0x33, 0x44]
               case OtaEndCorrectCrc => f.data == [0x03, s, p.lastPayloadChecksum, 0, 0, 0, 0, 0]
               case OtaEndWrongCrc => f.data == [0x03, s, Xor(p.lastPayloadChecksum, 0xFF), 0, 0, 0, 0, 0]
               case OtaActivate => f.data == [0x04, s, 0, 0, 0, 0, 0, 0]
               case OtaAbort => f.data == [0x05, s, 0, 0, 0, 0, 0, 0]
  {
  }

  /** Request `n` is button `b` of a panel that has had every reply so far. */
  predicate Pressed(es: seq<Event>, presses: seq<Press>, n: nat, b: Button) {
    && Driven(TraceOf(es), presses) && Prompt(TraceOf(es), presses)
    && n < |es| && es[n].Request? && presses[n].button == b
  }

  function PanelThen(es: seq<Event>, presses: seq<Press>, n: nat): Panel
    requires n < |es| && Driven(TraceOf(es), presses)
  {
    PanelAt(TraceOf(es), presses, n).(lastSeed := presses[n].lastSeed)
  }

  lemma PressedFrame(es: seq<Event>, presses: seq<Press>, n: nat, b: Button)
    requires Pressed(es, presses, n, b)
    ensures es[n].request == PressFrame(PanelThen(es, presses, n), b)
  {
    assert SentByPanel(TraceOf(es), presses, n);
  }

  /** What the script needs to know of a button's request. */
  lemma PressedAs(es: seq<Event>, presses: seq<Press>, n: nat, b: Button)
    requires Pressed(es, presses, n, b)
    ensures var q, seed := es[n].request, presses[n].lastSeed;
            && Asks(TraceOf(es), n, q.data[0]) && Asked(es, n, q.data[0])
            && (b.RequestSeed? <==> q.data[0] == 0x10)
            && (b.SendCorrectKey? ==> q.data[0] == 0x11 && q.data[2] == Xor(seed, 0xA5))
            && (b.OtaStart? ==> q.data[0] == 0x01)
            && (b.OtaEndCorrectCrc? ==>
                  q.data[0] == 0x03 && q.data[2] == PanelAt(TraceOf(es), presses, n).lastPayloadChecksum)
            && (b.OtaActivate? ==> q.data[0] == 0x04)
  {
    PressedFrame(es, presses, n, b);
    ButtonBytes(PanelThen(es, presses, n), b);
  }

  lemma SeedIsGiven(es: seq<Event>, n: nat)
    requires Asked(es, n, 0x10) && !LockedOut(es, n)
    ensures Acked(TraceOf(es), n, 0x10)
  {
    SeedIsDecided(es, n);
    AnswersAreOnTheBus(es, n);
  }

  /** During a lockout every button is answered 0x23. */
  lemma ButtonsInLockout(es: seq<Event>, presses: seq<Press>, n: nat, b: Button)
    requires Pressed(es, presses, n, b) && LockedOut(es, n)
    ensures Answers(es, n, 0x7F, 0x23)
  {
    PressedFrame(es, presses, n, b);
    ButtonBytes(PanelThen(es, presses, n), b);
    LockoutIsDecided(es, n, es[n].request.data[0]);
  }

  /** The panel knows the seed that is out. */
  lemma PanelKnowsSeed(es: seq<Event>, presses: seq<Press>, n: nat)
    requires Prompt(TraceOf(es), presses) && n < |es|
    requires OtaAt(es, n).security.seedIssued || OtaAt(es, n).security.unlocked
    ensures presses[n].lastSeed == OtaAt(es, n).security.seed
  {
    RunsAreLawful(es);
    UnlockedMeansSeedAcked(TraceOf(es), n);
    SeedsAgree(TraceOf(es), n);
  }

  /** The security buttons outside lockout: a seed is always given; a key is asked for first if none is out, and
      then the correct one unlocks and the wrong one does not. */
  lemma SecurityButtons(es: seq<Event>, presses: seq<Press>, n: nat, b: Button)
    requires Pressed(es, presses, n, b) && !LockedOut(es, n)
    ensures b.RequestSeed? ==> ResponseAt(es, n).data[0] == 0x79 && ResponseAt(es, n).data[1] == 0x10
    ensures (b.SendCorrectKey? || b.SendWrongKey?) && !OtaAt(es, n).security.seedIssued ==> Answers(es, n, 0x7F, 0x21)
    ensures b.SendCorrectKey? && OtaAt(es, n).security.seedIssued ==>
              Answers(es, n, 0x79, 0) && OtaAt(es, n + 1).security.unlocked
    ensures b.SendWrongKey? && OtaAt(es, n).security.seedIssued ==>
              Answers(es, n, 0x7F, 0x22) && !OtaAt(es, n + 1).security.unlocked
  {
    var p := PanelThen(es, presses, n);
    PressedFrame(es, presses, n, b);
    ButtonBytes(p, b);
    if b.RequestSeed? {
      SeedIsDecided(es, n);
    } else if b.SendCorrectKey? || b.SendWrongKey? {
      NoLockoutNoExpiry(es, n);
      KeyIsDecided(es, n);
      KeysDiffer(p.lastSeed);
      if OtaAt(es, n).security.seedIssued {
        PanelKnowsSeed(es, presses, n);
      }
    }
  }

  /** An expiring lockout finds no seed out and nothing unlocked. */
  lemma NoLockoutNoExpiry(es: seq<Event>, n: nat)
    requires n < |es|
    ensures Handled(es, n).security.seedIssued == OtaAt(es, n).security.seedIssued
    ensures Handled(es, n).security.unlocked == OtaAt(es, n).security.unlocked
    ensures Handled(es, n).security.seed == OtaAt(es, n).security.seed
    ensures Handled(es, n).state == OtaAt(es, n).state && Handled(es, n).upload == OtaAt(es, n).upload
  {
    InvariantHolds(es, n);
  }

  /** The upload buttons outside lockout. */
  lemma UploadButtons(es: seq<Event>, presses: seq<Press>, n: nat, b: Button)
    requires Pressed(es, presses, n, b) && !LockedOut(es, n)
    ensures var o := OtaAt(es, n);
            && (b.OtaStart? ==> if o.security.unlocked then Answers(es, n, 0x79, 0) else Answers(es, n, 0x7F, 0x20))
            && (b.SendOtaChunk? ==>
                  if !o.state.Open() then Answers(es, n, 0x7F, 0x14)
                  else if o.upload.length + 4 <= 256 then Answers(es, n, 0x79, 0) else Answers(es, n, 0x7F, 0x16))
            && (b.OtaActivate? ==> if o.state.ReadyToActivate? then Answers(es, n, 0x79, 0) else Answers(es, n, 0x7F, 0x14))
            && (b.OtaAbort? ==> Answers(es, n, 0x79, 0) && OtaAt(es, n + 1).state.Failed?)
  {
    var p := PanelThen(es, presses, n);
    PressedFrame(es, presses, n, b);
    ButtonBytes(p, b);
    NoLockoutNoExpiry(es, n);
    if b.OtaStart? {
      StartIsDecided(es, n);
    } else if b.SendOtaChunk? {
      DataIsDecided(es, n);
      if OtaAt(es, n).state.Open() {
        InvariantHolds(es, n);
        PanelKnowsSeed(es, presses, n);
      }
    } else if b.OtaActivate? {
      ActivateIsDecided(es, n);
    } else if b.OtaAbort? {
      AbortIsDecided(es, n);
    }
  }

  /** The END buttons outside lockout: out of sequence unless an upload is open, and then right and wrong as named. */
  lemma EndButtons(es: seq<Event>, presses: seq<Press>, n: nat, b: Button)
    requires Pressed(es, presses, n, b) && !LockedOut(es, n) && (b.OtaEndCorrectCrc? || b.OtaEndWrongCrc?)
    ensures if !OtaAt(es, n).state.Open() then Answers(es, n, 0x7F, 0x14)
            else if b.OtaEndCorrectCrc? then Answers(es, n, 0x79, 0) else Answers(es, n, 0x7F, 0x17)
  {
    var p := PanelThen(es, presses, n);
    PressedFrame(es, presses, n, b);
    ButtonBytes(p, b);
    NoLockoutNoExpiry(es, n);
    OtaAnswers.EndIsDecided(es, n);
    EndFrames(p, b);
    if OtaAt(es, n).state.Open() {
      RunsAreLawful(es);
      ChecksumsAgree(TraceOf(es), presses, n);
    }
  }

  // ---------------------------------------------------------------------------------------------
  // A whole upload of buttons

  /** The buttons of an upload stand at the places of the script, with no other button in between, and a status
      frame goes out between the last two. */
  predicate Presses(es: seq<Event>, presses: seq<Press>, s: Script) {
    var t := TraceOf(es);
    && Driven(t, presses) && Prompt(t, presses)
    && Follows(t, s.seedAt, s.keyAt) && Follows(t, s.keyAt, s.startAt)
    && Pressed(es, presses, s.seedAt, RequestSeed) && Pressed(es, presses, s.keyAt, SendCorrectKey)
    && Pressed(es, presses, s.startAt, OtaStart)
    && (forall k :: 0 <= k < |s.dataAt| ==> ChunkPressed(es, presses, s, k))
    && Follows(t, s.Before(|s.dataAt|), s.endAt) && Follows(t, s.endAt, s.activateAt)
    && Pressed(es, presses, s.endAt, OtaEndCorrectCrc) && Pressed(es, presses, s.activateAt, OtaActivate)
    && exists j :: s.endAt < j < s.activateAt && t.events[j].Published?
  }

  predicate ChunkPressed(es: seq<Event>, presses: seq<Press>, s: Script, k: nat)
    requires k < |s.dataAt|
  {
    Follows(TraceOf(es), s.Before(k), s.dataAt[k]) && Pressed(es, presses, s.dataAt[k], SendOtaChunk)
  }

  /** The chunks that the buttons send. */
  function Chunks(es: seq<Event>, s: Script): seq<Chunk>
    requires forall k :: 0 <= k < |s.dataAt| ==> s.dataAt[k] < |es| && es[s.dataAt[k]].Request?
  {
    seq(|s.dataAt|, k requires 0 <= k < |s.dataAt| => Chunk(es[s.dataAt[k]].request.data[1], [0x11, 0x22, 0x33, 0x44]))
  }

  /** The panel's seed does not change while nothing or another button than RequestSeed is sent. */
  lemma {:induction false} SeedStays(t: Trace, from: nat, to: nat)
    requires from <= to <= |t.events| && Quiet(t, from, to)
    ensures SeedSeen(t, to) == SeedSeen(t, from)
  {
    if from < to {
      SeedStays(t, from, to - 1);
    }
  }

  lemma SeedAfterButton(es: seq<Event>, presses: seq<Press>, n: nat, b: Button, next: nat)
    requires Pressed(es, presses, n, b) && !b.RequestSeed? && Follows(TraceOf(es), n, next)
    ensures SeedSeen(TraceOf(es), next) == SeedSeen(TraceOf(es), n)
  {
    RunsAreLawful(es);
    NoSeedAsked(es, presses, n, b);
    SeedPast(TraceOf(es), n, next);
  }

  lemma SeedPast(t: Trace, n: nat, next: nat)
    requires Lawful(t) && n < |t.events| && t.events[n].Request? && t.events[n].request.data[0] != 0x10 && Follows(t, n, next)
    ensures SeedSeen(t, next) == SeedSeen(t, n)
  {
    OtherCommand(t, n);
    SeedStays(t, n + 1, next);
  }

  lemma NoSeedAsked(es: seq<Event>, presses: seq<Press>, n: nat, b: Button)
    requires Pressed(es, presses, n, b) && !b.RequestSeed?
    ensures es[n].request.data[0] != 0x10
  {
    PressedAs(es, presses, n, b);
  }

  lemma OtherCommand(t: Trace, n: nat)
    requires Lawful(t) && n < |t.events| && t.events[n].Request? && t.events[n].request.data[0] != 0x10
    ensures !Acked(t, n, CMD_REQUEST_SEED)
  {
    assert LawfulStep(t, n);
  }

  lemma {:induction false} SeedAtChunk(es: seq<Event>, presses: seq<Press>, s: Script, k: nat)
    requires Presses(es, presses, s) && k <= |s.dataAt|
    ensures s.Before(k) < |es| && SeedSeen(TraceOf(es), s.Before(k)) == SeedSeen(TraceOf(es), s.keyAt)
  {
    if k == 0 {
      SeedAfterButton(es, presses, s.keyAt, SendCorrectKey, s.startAt);
    } else {
      SeedAtChunk(es, presses, s, k - 1);
      assert ChunkPressed(es, presses, s, k - 1);
      if k == 1 {
        SeedAfterButton(es, presses, s.startAt, OtaStart, s.dataAt[0]);
      } else {
        assert ChunkPressed(es, presses, s, k - 2);
        SeedAfterButton(es, presses, s.dataAt[k - 2], SendOtaChunk, s.dataAt[k - 1]);
      }
    }
  }

  lemma SeedIsKnown(es: seq<Event>, presses: seq<Press>, s: Script)
    requires Presses(es, presses, s) && !LockedOut(es, s.seedAt)
    ensures TraceOf(es).answers[s.seedAt].Answer?
    ensures SeedSeen(TraceOf(es), s.keyAt) == TraceOf(es).answers[s.seedAt].detail
  {
    PressedAs(es, presses, s.seedAt, RequestSeed);
    SeedIsGiven(es, s.seedAt);
    SeedFromReply(TraceOf(es), s.seedAt, s.keyAt);
  }

  lemma SeedFromReply(t: Trace, n: nat, next: nat)
    requires n < |t.events| && Acked(t, n, CMD_REQUEST_SEED) && Follows(t, n, next)
    ensures SeedSeen(t, next) == t.answers[n].detail
  {
    SeedStays(t, n + 1, next);
  }

  lemma ChunkIsInPlace(es: seq<Event>, presses: seq<Press>, s: Script, k: nat)
    requires Presses(es, presses, s) && !LockedOut(es, s.seedAt) && k < |s.dataAt|
    ensures TraceOf(es).answers[s.seedAt].Answer?
    ensures s.dataAt[k] < |es| && es[s.dataAt[k]].Request?
    ensures Follows(TraceOf(es), s.Before(k), s.dataAt[k])
    ensures SendsChunk(TraceOf(es), s.dataAt[k], Chunk(es[s.dataAt[k]].request.data[1], [0x11, 0x22, 0x33, 0x44]),
                       TraceOf(es).answers[s.seedAt].detail)
  {
    assert ChunkPressed(es, presses, s, k);
    SeedIsKnown(es, presses, s);
    SeedAtChunk(es, presses, s, k + 1);
    ChunkIsSent(es, presses, s.dataAt[k]);
  }

  lemma ChunkIsSent(es: seq<Event>, presses: seq<Press>, n: nat)
    requires Pressed(es, presses, n, SendOtaChunk)
    ensures SendsChunk(TraceOf(es), n, Chunk(es[n].request.data[1], [0x11, 0x22, 0x33, 0x44]), presses[n].lastSeed)
  {
    PressedFrame(es, presses, n, SendOtaChunk);
    ButtonBytes(PanelThen(es, presses, n), SendOtaChunk);
  }

  /** The buttons send what the protocol asks for. */
  lemma ButtonsSend(es: seq<Event>, presses: seq<Press>, s: Script)
    requires Presses(es, presses, s) && !LockedOut(es, s.seedAt)
    ensures forall k :: 0 <= k < |s.dataAt| ==> s.dataAt[k] < |es| && es[s.dataAt[k]].Request?
    ensures Sends(TraceOf(es), s, Chunks(es, s))
  {
    forall k | 0 <= k < |s.dataAt| ensures s.dataAt[k] < |es| && es[s.dataAt[k]].Request? {
      assert ChunkPressed(es, presses, s, k);
    }
    var t, chunks := TraceOf(es), Chunks(es, s);
    SeedIsKnown(es, presses, s);
    forall k | 0 <= k < |chunks| ensures ChunkInPlace(t, s, chunks, t.answers[s.seedAt].detail, k) {
      ChunkIsInPlace(es, presses, s, k);
    }
    PressedAs(es, presses, s.seedAt, RequestSeed);
    PressedAs(es, presses, s.keyAt, SendCorrectKey);
    PressedAs(es, presses, s.startAt, OtaStart);
  }

  /** Once the chunks have been accepted the upload is open with the image in it. */
  lemma ImageIsStored(t: Trace, s: Script, chunks: seq<Chunk>)
    requires Lawful(t) && Willing(t) && Sends(t, s, chunks) && |Image(chunks)| <= 256
    requires Follows(t, s.Before(|s.dataAt|), s.endAt)
    requires !Lockouts.Observed(t.states[s.seedAt], t.events[s.seedAt]).security.lockoutActive
    ensures t.states[s.endAt].state.Open() && t.states[s.endAt].upload.Stored() == Image(chunks)
  {
    OpensSession(t, s, chunks);
    assert chunks[..|chunks|] == chunks;
    ChunksStored(t, s, chunks, t.states[s.seedAt].version, |chunks|);
    QuietKeeps(t, s.Before(|chunks|) + 1, s.endAt);
  }

  /** The END button carries the XOR of all chunks sent. */
  lemma ButtonsFinish(es: seq<Event>, presses: seq<Press>, s: Script, chunks: seq<Chunk>)
    requires Presses(es, presses, s) && !LockedOut(es, s.seedAt) && Sends(TraceOf(es), s, chunks) && |Image(chunks)| <= 256
    ensures Finishes(TraceOf(es), s, chunks)
  {
    RunsAreLawful(es);
    RunsAreWilling(es);
    ImageIsStored(TraceOf(es), s, chunks);
    ChecksumsAgree(TraceOf(es), presses, s.endAt);
    PressedAs(es, presses, s.endAt, OtaEndCorrectCrc);
    PressedAs(es, presses, s.activateAt, OtaActivate);
  }

  /** Request `n` is answered 0x79 for this command; the answers are bytes 0 and 1 of the response frames. */
  predicate Granted(t: Trace, n: nat, command: byte) {
    n < |t.events| && t.events[n].Request? && Accepts(t.answers[n], command)
  }

  /** Each step of the script is acknowledged. */
  predicate AllGranted(t: Trace, s: Script) {
    && Granted(t, s.seedAt, 0x10) && Granted(t, s.keyAt, 0x11) && Granted(t, s.startAt, 0x01)
    && (forall k :: 0 <= k < |s.dataAt| ==> Granted(t, s.dataAt[k], 0x02))
    && Granted(t, s.endAt, 0x03) && Granted(t, s.activateAt, 0x04)
  }

  /** After the script: SUCCESS, with `image` stored and the version one further, 255 to 1. */
  predicate Activated(t: Trace, s: Script, image: seq<byte>)
    requires s.seedAt < |t.events| && s.activateAt < |t.events|
  {
    var o, version := t.states[s.activateAt + 1], t.states[s.seedAt].version;
    o.state.Success? && o.upload.Stored() == image && o.version == if version == 255 then 1 else version + 1
  }

  lemma UploadIsGranted(t: Trace, s: Script, chunks: seq<Chunk>)
    requires Lawful(t) && Willing(t) && Sends(t, s, chunks) && Finishes(t, s, chunks) && |Image(chunks)| <= 256
    requires !Lockouts.Observed(t.states[s.seedAt], t.events[s.seedAt]).security.lockoutActive
    ensures AllGranted(t, s) && Activated(t, s, Image(chunks))
  {
    UploadOnTrace(t, s, chunks);
    forall k | 0 <= k < |s.dataAt| ensures Granted(t, s.dataAt[k], 0x02) {
      assert DataAcked(t, s, k);
    }
  }

  /** `n` times the panel's chunk. */
  function Repeated(n: nat): seq<byte> {
    if n == 0 then [] else Repeated(n - 1) + [0x11, 0x22, 0x33, 0x44]
  }

  lemma {:induction false} ImageOfChunks(chunks: seq<Chunk>)
    requires forall k :: 0 <= k < |chunks| ==> chunks[k].payload == [0x11, 0x22, 0x33, 0x44]
    ensures Image(chunks) == Repeated(|chunks|) && |Image(chunks)| == 4 * |chunks|
  {
    if |chunks| != 0 {
      ImageOfChunks(chunks[..|chunks| - 1]);
    }
  }

  /** The closed loop: with prompt replies and no active lockout, RequestSeed, SendCorrectKey, OtaStart, any number of
      chunks up to 256 bytes, OtaEndCorrectCrc, a status frame and OtaActivate are each acknowledged, and end in
      SUCCESS with the chunks stored and the version one further. */
  lemma PanelUploads(es: seq<Event>, presses: seq<Press>, s: Script)
    requires Presses(es, presses, s) && !LockedOut(es, s.seedAt) && 4 * |s.dataAt| <= 256
    ensures AllGranted(TraceOf(es), s) && Activated(TraceOf(es), s, Repeated(|s.dataAt|))
  {
    ButtonsSend(es, presses, s);
    var chunks := Chunks(es, s);
    ImageOfChunks(chunks);
    ButtonsFinish(es, presses, s, chunks);
    RunsAreLawful(es);
    RunsAreWilling(es);
    UploadIsGranted(TraceOf(es), s, chunks);
  }
}
