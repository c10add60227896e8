/** The CANoe panel as OTA client, and what gateway and panel agree on over whole sessions. */
module Panels {
  import opened Bytes
  import opened Frames
  import opened OtaSpec
  import opened GatewaySpec
  import opened OtaInvariants
  import opened OtaEffects
  import opened OtaTraces
  import opened OtaHistory
  import opened StatusFrames
  import Capl

  datatype Button =
    | RequestSeed | SendCorrectKey | SendWrongKey
    | OtaStart | SendOtaChunk | OtaEndCorrectCrc | OtaEndWrongCrc | OtaActivate | OtaAbort

  /** The variables of the panel node. */
  datatype Panel = Panel(sequence: byte, lastSeed: byte, lastPayloadChecksum: byte)

  const INIT_PANEL := Panel(0, 0, 0)
  const CHUNK: seq<byte> := [0x11, 0x22, 0x33, 0x44]

  function NextSequence(sequence: byte): byte {
    (sequence + 1) % 0x100
  }

  /** The command byte a button sends. */
  function Command(b: Button): byte {
    match b
    case RequestSeed => CMD_REQUEST_SEED
    case SendCorrectKey => CMD_SEND_KEY
    case SendWrongKey => CMD_SEND_KEY
    case OtaStart => CMD_START
    case SendOtaChunk => CMD_DATA
    case OtaEndCorrectCrc => CMD_END
    case OtaEndWrongCrc => CMD_END
    case OtaActivate => CMD_ACTIVATE
    case OtaAbort => CMD_ABORT
  }

  /** The running payload checksum after a button; it is updated whether or not the gateway accepts. */
  function ChecksumAfter(checksum: byte, b: Button): byte {
    match b
    case OtaStart => 0
    case SendOtaChunk => Xor(Xor(Xor(Xor(checksum, 0x11), 0x22), 0x33), 0x44)
    case _ => checksum
  }

  /** The authentication byte as the panel computes it. */
  function CalcOtaDataAuth(lastSeed: byte, sequence: byte, payloadLength: byte): byte {
    Xor(Xor(Xor(lastSeed, sequence), payloadLength), 0xC3)
  }

  function OtaFrame(command: byte, sequence: byte, byte2: byte, byte3: byte, payload: seq<byte>): Frame
    requires |payload| == 4
  {
    Frame(0, ID_OTA_REQUEST, 8, [command, sequence, byte2, byte3] + payload)
  }

  /** The request frame a button sends. */
  function PressFrame(p: Panel, b: Button): Frame {
    var s := NextSequence(p.sequence);
    var none := [0, 0, 0, 0];
    match b
    case SendCorrectKey => OtaFrame(CMD_SEND_KEY, s, Xor(p.lastSeed, 0xA5), 0, none)
    case SendWrongKey => OtaFrame(CMD_SEND_KEY, s, Xor(p.lastSeed, 0xA4), 0, none)
    case SendOtaChunk => OtaFrame(CMD_DATA, s, 4, CalcOtaDataAuth(p.lastSeed, s, 4), CHUNK)
    case OtaEndCorrectCrc => OtaFrame(CMD_END, s, p.lastPayloadChecksum, 0, none)
    case OtaEndWrongCrc => OtaFrame(CMD_END, s, Xor(p.lastPayloadChecksum, 0xFF), 0, none)
    case _ => OtaFrame(Command(b), s, 0, 0, none)
  }

  function AfterPress(p: Panel, b: Button): Panel {
    p.(sequence := NextSequence(p.sequence), lastPayloadChecksum := ChecksumAfter(p.lastPayloadChecksum, b))
  }

  /** What a received 0x651 frame does to the stored seed. */
  function SeedAfter(seed: byte, f: Frame): byte {
    if f.data[CHECKSUM_BYTE] == FrameChecksum(f) && f.data[0] == 0x79 && f.data[1] == 0x10 then f.data[3] else seed
  }

  /** What the panel shows of a 0x651 frame. */
  datatype ResponseView = ResponseView(code: byte, detail: byte, otaState: byte, version: byte) | BadResponse

  function DecodeResponse(f: Frame): ResponseView {
    if f.data[CHECKSUM_BYTE] != FrameChecksum(f) then BadResponse
    else ResponseView(f.data[0], f.data[3], f.data[4] % 8, f.data[5])
  }

  /** Round trip: the panel shows the answer, and the OTA state and version after the request. */
  lemma ResponseRoundTrip(es: seq<Event>, n: nat)
    requires n < |es| && es[n].Request?
    ensures var a, o := TraceOf(es).answers[n], OtaAt(es, n + 1);
            a.Answer? && DecodeResponse(ResponseAt(es, n)) == ResponseView(a.code, a.detail, o.state.Code(), o.version)
  {
    AnswersAreOnTheBus(es, n);
    ResponseBody(DecisionAt(es, n));
  }

  lemma ResponseBody(d: Decision)
    ensures var r := Response(d);
            && r.data[2] == d.sequence && r.data[4] == d.ota.state.Code() && r.data[5] == d.ota.version
            && r.data[6] == d.ota.responseCounter % 16
  {
    var body := Response(d).data[..CHECKSUM_BYTE];
    var o := d.ota;
    assert body == [d.code, d.command, d.sequence, d.detail, o.state.Code() % 8, o.version, o.responseCounter % 16];
  }

  /** A reply corrupted inside eight consecutive data bits is shown as bad and leaves the stored seed alone. */
  lemma CorruptedReplyIsIgnored(good: Frame, bad: Frame, order: BitOrder, position: nat, seed: byte)
    requires ChecksumOk(good) && SameOutsideBurst(good, bad, order, position) && good != bad
    ensures SeedAfter(seed, bad) == seed && DecodeResponse(bad) == BadResponse
  {
    BurstDetected(good, bad, order, position);
  }

  /** Requests answered before event `n`. */
  function RequestCount(es: seq<Event>, n: nat): nat
    requires n <= |es|
  {
    if n == 0 then 0 else RequestCount(es, n - 1) + if es[n - 1].Request? then 1 else 0
  }

  lemma {:induction false} CounterCounts(es: seq<Event>, n: nat)
    requires n <= |es|
    ensures OtaAt(es, n).responseCounter == RequestCount(es, n) % 16
  {
    if n != 0 {
      CounterCounts(es, n - 1);
      CounterStep(es, n - 1);
      NextCount(RequestCount(es, n - 1));
    }
  }

  /** Every response carries its own number, modulo 16. */
  lemma ResponsesAreNumbered(es: seq<Event>, n: nat)
    requires n < |es| && es[n].Request?
    ensures ResponseAt(es, n).data[6] == RequestCount(es, n) % 16
  {
    CounterCounts(es, n);
    CounterStep(es, n);
    NextCount(RequestCount(es, n));
    ResponseBody(DecisionAt(es, n));
  }

  lemma CounterStep(es: seq<Event>, n: nat)
    requires n < |es|
    ensures es[n].Request? ==> DecisionAt(es, n).ota.responseCounter == OtaAt(es, n).responseCounter
    ensures OtaAt(es, n + 1).responseCounter ==
            if es[n].Request? then (OtaAt(es, n).responseCounter + 1) % 16 else OtaAt(es, n).responseCounter
  {
    InvariantHolds(es, n);
    if es[n].Request? {
      RequestEffect(OtaAt(es, n), es[n].request, Tick(es[n].gateClock), Tick(es[n].failClock));
    }
  }

  /** The panel node: each button fills the request message in place and outputs it. */
  class PanelBridge {
    const otaRequest: CanMessage
    var panelSequence: byte
    var lastSeed: byte
    var lastPayloadChecksum: byte

    function View(): Panel
      reads this
    {
      Panel(panelSequence, lastSeed, lastPayloadChecksum)
    }

    constructor ()
      ensures View() == INIT_PANEL && otaRequest.Valid() && fresh(otaRequest) && fresh(otaRequest.data)
    {
      panelSequence, lastSeed, lastPayloadChecksum := 0, 0, 0;
      otaRequest := new CanMessage();
    }

    method SendOtaCommand(command: byte, byte2: byte, byte3: byte, d4: byte, d5: byte, d6: byte, d7: byte)
      requires otaRequest.Valid()
      modifies this`panelSequence, otaRequest, otaRequest.data
      ensures panelSequence == NextSequence(old(panelSequence))
      ensures otaRequest.View() == OtaFrame(command, panelSequence, byte2, byte3, [d4, d5, d6, d7])
    {
      panelSequence := (panelSequence + 1) % 0x100;
      otaRequest.Write(ID_OTA_REQUEST, command, panelSequence, byte2, byte3, d4, d5, d6);
      ghost var head := otaRequest.data[..CHECKSUM_BYTE];
      otaRequest.data[7] := d7;
      assert otaRequest.data[..CHECKSUM_BYTE] == head;
      assert otaRequest.data[..] == head + [d7];
    }

    method Press(b: Button)
      requires otaRequest.Valid()
      modifies this, otaRequest, otaRequest.data
      ensures View() == AfterPress(old(View()), b)
      ensures otaRequest.View() == PressFrame(old(View()), b)
    {
      match b
      case RequestSeed => SendOtaCommand(0x10, 0, 0, 0, 0, 0, 0);
      case SendCorrectKey => SendOtaCommand(0x11, Xor(lastSeed, 0xA5), 0, 0, 0, 0, 0);
      case SendWrongKey => SendOtaCommand(0x11, Xor(lastSeed, 0xA4), 0, 0, 0, 0, 0);
      case OtaStart =>
        lastPayloadChecksum := 0;
        SendOtaCommand(0x01, 0, 0, 0, 0, 0, 0);
      case SendOtaChunk =>
        var sequence := (panelSequence + 1) % 0x100;
        var auth := CalcOtaDataAuth(lastSeed, sequence, 4);
        lastPayloadChecksum := Xor(Xor(Xor(Xor(lastPayloadChecksum, 0x11), 0x22), 0x33), 0x44);
        SendOtaCommand(0x02, 4, auth, 0x11, 0x22, 0x33, 0x44);
      case OtaEndCorrectCrc => SendOtaCommand(0x03, lastPayloadChecksum, 0, 0, 0, 0, 0);
      case OtaEndWrongCrc => SendOtaCommand(0x03, Xor(lastPayloadChecksum, 0xFF), 0, 0, 0, 0, 0);
      case OtaActivate => SendOtaCommand(0x04, 0, 0, 0, 0, 0, 0);
      case OtaAbort => SendOtaCommand(0x05, 0, 0, 0, 0, 0, 0);
    }

    /** A 0x651 frame: shown on the panel; an acknowledged seed request stores its seed. */
    method OnResponse(f: Frame) returns (shown: ResponseView)
      modifies this`lastSeed
      ensures lastSeed == SeedAfter(old(lastSeed), f) && shown == DecodeResponse(f)
    {
      var expected := Capl.ExpectedChecksum(f);
      if f.data[7] != expected {
        return BadResponse;
      }
      shown := ResponseView(f.data[0], f.data[3], f.data[4] % 8, f.data[5]);
      if f.data[0] == 0x79 && f.data[1] == 0x10 {
        lastSeed := f.data[3];
      }
    }

    /** A 0x601 frame: the values shown on the panel. */
    method OnStatus(f: Frame) returns (shown: PanelView)
      ensures shown == DecodeStatus(f)
    {
      var expected := Capl.ExpectedChecksum(f);
      if f.data[7] != expected {
        return ChecksumError;
      }
      var flags := f.data[1];
      shown := PanelView(flags % 8, (flags / 8) % 2, (flags / 16) % 2, f.data[2], f.data[4]);
    }
  }

  // ---------------------------------------------------------------------------------------------
  // Sessions of panel and gateway

  /** A button pressed while the panel's stored seed is `lastSeed`. */
  datatype Press = Press(button: Button, lastSeed: byte)

  /** The panel's own variables before request number `n`: they depend only on the buttons pressed. */
  function PanelAt(t: Trace, presses: seq<Press>, n: nat): Panel
    requires n <= |t.events| == |presses|
  {
    if n == 0 then INIT_PANEL
    else if t.events[n - 1].Request? then AfterPress(PanelAt(t, presses, n - 1), presses[n - 1].button)
    else PanelAt(t, presses, n - 1)
  }

  /** Request number `n` is the frame of the button pressed, with whatever seed the panel knew then. */
  predicate SentByPanel(t: Trace, presses: seq<Press>, n: nat)
    requires n < |t.events| == |presses|
  {
    t.events[n].Request? ==>
      t.events[n].request == PressFrame(PanelAt(t, presses, n).(lastSeed := presses[n].lastSeed), presses[n].button)
  }

  /** The gateway receives exactly the panel's requests, in order; replies may come at any time or never. */
  predicate Driven(t: Trace, presses: seq<Press>) {
    |presses| == |t.events| && forall n :: 0 <= n < |t.events| ==> SentByPanel(t, presses, n)
  }

  /** The panel's frames are well formed and carry the command of their button. */
  lemma PressIsWellFormed(p: Panel, b: Button)
    ensures var f := PressFrame(p, b);
            && WellFormed(f) && KnownCommand(f.data[0]) && f.data[0] == Command(b)
            && (b.SendOtaChunk? ==> Payload(f) == CHUNK)
  {
  }

  lemma ChunkXor(s: seq<byte>)
    ensures XorAll(s + CHUNK) == Xor(Xor(Xor(Xor(XorAll(s), 0x11), 0x22), 0x33), 0x44)
  {
    XorPush(s, 0x11);
    XorPush(s + [0x11], 0x22);
    XorPush(s + [0x11] + [0x22], 0x33);
    XorPush(s + [0x11] + [0x22] + [0x33], 0x44);
    assert s + CHUNK == s + [0x11] + [0x22] + [0x33] + [0x44];
  }

  lemma XorPush(s: seq<byte>, b: byte)
    ensures XorAll(s + [b]) == Xor(XorAll(s), b)
  {
    assert (s + [b])[..|s|] == s;
  }

  /** While an upload is open, the panel's running checksum is the XOR of the bytes the gateway stores. */
  lemma {:induction false} ChecksumsAgree(t: Trace, presses: seq<Press>, n: nat)
    requires Lawful(t) && Driven(t, presses) && n <= |t.events|
    ensures t.states[n].state.Open() ==> PanelAt(t, presses, n).lastPayloadChecksum == XorAll(t.states[n].upload.Stored())
  {
    if n != 0 {
      var m := n - 1;
      ChecksumsAgree(t, presses, m);
      assert LawfulStep(t, m) && SentByPanel(t, presses, m);
      if t.events[m].Request? {
        PressKeepsChecksum(PanelAt(t, presses, m).(lastSeed := presses[m].lastSeed), presses[m].button,
                           t.states[m], t.answers[m], t.states[m + 1]);
      }
    }
  }

  /** One button: whatever the gateway answers, the checksums go on agreeing while an upload is open. */
  lemma PressKeepsChecksum(p: Panel, b: Button, o: Ota, a: Answer, o1: Ota)
    requires OtaInv(o) && LawfulRequest(o, PressFrame(p, b), a, o1)
    requires o.state.Open() ==> p.lastPayloadChecksum == XorAll(o.upload.Stored())
    ensures o1.state.Open() ==> ChecksumAfter(p.lastPayloadChecksum, b) == XorAll(o1.upload.Stored())
  {
    PressIsWellFormed(p, b);
    if o1.state.Open() {
      OpenAfter(o, PressFrame(p, b), a, o1);
      ChunkXor(o.upload.Stored());
    }
  }

  /** How a well-formed known request leaves an upload open: by starting it, adding to it, or not touching it. */
  lemma OpenAfter(o: Ota, request: Frame, a: Answer, o1: Ota)
    requires OtaInv(o) && LawfulRequest(o, request, a, o1) && o1.state.Open()
    requires WellFormed(request) && KnownCommand(request.data[0])
    ensures if request.data[0] == CMD_START then o1.upload.Stored() == []
            else
              && o.state.Open()
              && o1.upload.Stored() == o.upload.Stored() + (if request.data[0] == CMD_DATA then Payload(request) else [])
  {
  }

  /** A well-formed END in an open upload is accepted exactly when it carries the XOR of the stored bytes. */
  lemma EndIsDecided(es: seq<Event>, n: nat)
    requires n < |es| && es[n].Request? && WellFormed(es[n].request) && es[n].request.data[0] == CMD_END
    requires OtaAt(es, n).state.Open()
    ensures if es[n].request.data[2] == XorAll(OtaAt(es, n).upload.Stored())
            then Acked(TraceOf(es), n, CMD_END) else Nacked(TraceOf(es), n, CHECKSUM_MISMATCH)
  {
    InvariantHolds(es, n);
  }

  /** The panel's "correct CRC" button is right and its "wrong CRC" button wrong, in every session: an open
      upload is always ended by the first and always refused by the second, whatever was lost of the replies. */
  lemma CrcButtons(es: seq<Event>, presses: seq<Press>, n: nat)
    requires Driven(TraceOf(es), presses) && n < |es| && es[n].Request? && OtaAt(es, n).state.Open()
    ensures presses[n].button.OtaEndCorrectCrc? ==> Acked(TraceOf(es), n, CMD_END)
    ensures presses[n].button.OtaEndWrongCrc? ==> Nacked(TraceOf(es), n, CHECKSUM_MISMATCH)
  {
    RunsAreLawful(es);
    ChecksumsAgree(TraceOf(es), presses, n);
    assert SentByPanel(TraceOf(es), presses, n);
    if presses[n].button.OtaEndCorrectCrc? || presses[n].button.OtaEndWrongCrc? {
      EndFrames(PanelAt(TraceOf(es), presses, n).(lastSeed := presses[n].lastSeed), presses[n].button);
      EndIsDecided(es, n);
    }
  }

  /** The END of the correct button carries the running checksum, that of the wrong one another byte. */
  lemma EndFrames(p: Panel, b: Button)
    requires b.OtaEndCorrectCrc? || b.OtaEndWrongCrc?
    ensures var f := PressFrame(p, b);
            && WellFormed(f) && f.data[0] == CMD_END
            && (f.data[2] == p.lastPayloadChecksum <==> b.OtaEndCorrectCrc?)
  {
    var x := p.lastPayloadChecksum;
    XorMoves(x, 0xFF, x);
    XorUnit(x);
  }

  /** In no state is the correct button answered with a checksum mismatch. */
  lemma CorrectCrcNeverMismatches(es: seq<Event>, presses: seq<Press>, n: nat)
    requires Driven(TraceOf(es), presses) && n < |es| && es[n].Request? && presses[n].button.OtaEndCorrectCrc?
    ensures !Nacked(TraceOf(es), n, CHECKSUM_MISMATCH)
  {
    RunsAreLawful(es);
    assert LawfulStep(TraceOf(es), n);
    if OtaAt(es, n).state.Open() {
      CrcButtons(es, presses, n);
    }
  }

  // ---------------------------------------------------------------------------------------------
  // Sessions in which each reply arrives before the next button

  /** The seed the panel has stored before event `n` when it has received every reply so far. */
  function SeedSeen(t: Trace, n: nat): byte
    requires n <= |t.events|
  {
    if n == 0 then 0
    else if Acked(t, n - 1, CMD_REQUEST_SEED) then t.answers[n - 1].detail
    else SeedSeen(t, n - 1)
  }

  /** Every button is pressed after all earlier replies have arrived. */
  predicate Prompt(t: Trace, presses: seq<Press>) {
    |presses| == |t.events| && forall n :: 0 <= n < |t.events| ==> presses[n].lastSeed == SeedSeen(t, n)
  }

  /** SeedSeen is what the panel's reply handler makes of the response frames. */
  lemma RepliesCarryTheSeed(es: seq<Event>, n: nat)
    requires n < |es| && es[n].Request?
    ensures SeedSeen(TraceOf(es), n + 1) == SeedAfter(SeedSeen(TraceOf(es), n), ResponseAt(es, n))
  {
    AnswersAreOnTheBus(es, n);
  }

  predicate SeedAcked(t: Trace, n: nat)
    requires n <= |t.events|
  {
    exists k :: 0 <= k < n && Acked(t, k, CMD_REQUEST_SEED)
  }

  /** After the first acknowledged seed, panel and gateway hold the same seed. */
  lemma {:induction false} SeedsAgree(t: Trace, n: nat)
    requires Lawful(t) && n <= |t.events| && SeedAcked(t, n)
    ensures SeedSeen(t, n) == t.states[n].security.seed
  {
    var m := n - 1;
    assert LawfulStep(t, m);
    if !Acked(t, m, CMD_REQUEST_SEED) {
      var k :| 0 <= k < n && Acked(t, k, CMD_REQUEST_SEED);
      assert k < m;
      SeedsAgree(t, m);
    }
  }

  lemma UnlockedMeansSeedAcked(t: Trace, n: nat)
    requires Lawful(t) && n <= |t.events| && (t.states[n].security.unlocked || t.states[n].security.seedIssued)
    ensures SeedAcked(t, n)
  {
    if t.states[n].security.unlocked {
      var seedAt, keyAt := UnlockWitness(t, n);
    } else {
      var seedAt := SeedWitness(t, n);
    }
  }

  /** With prompt replies, the panel's chunks never fail authentication, its correct key is never called
      invalid, and its wrong key never unlocks. */
  lemma PanelAuthenticates(es: seq<Event>, presses: seq<Press>, n: nat)
    requires Driven(TraceOf(es), presses) && Prompt(TraceOf(es), presses) && n < |es| && es[n].Request?
    ensures !Nacked(TraceOf(es), n, INVALID_AUTH)
    ensures presses[n].button.SendCorrectKey? ==> !Nacked(TraceOf(es), n, INVALID_KEY)
    ensures presses[n].button.SendWrongKey? ==> !Acked(TraceOf(es), n, CMD_SEND_KEY)
  {
    var t := TraceOf(es);
    RunsAreLawful(es);
    assert LawfulStep(t, n) && SentByPanel(t, presses, n);
    if t.states[n].security.unlocked || t.states[n].security.seedIssued {
      UnlockedMeansSeedAcked(t, n);
      SeedsAgree(t, n);
    }
    PressAuthenticates(PanelAt(t, presses, n).(lastSeed := presses[n].lastSeed), presses[n].button,
                       t.states[n], t.answers[n], t.states[n + 1]);
  }

  /** One button, of a panel that knows the gateway's seed whenever one is out or used. */
  lemma PressAuthenticates(p: Panel, b: Button, o: Ota, a: Answer, o1: Ota)
    requires OtaInv(o) && LawfulRequest(o, PressFrame(p, b), a, o1)
    requires o.security.unlocked || o.security.seedIssued ==> p.lastSeed == o.security.seed
    ensures !(a.code == NACK && a.detail == INVALID_AUTH)
    ensures b.SendCorrectKey? ==> !(a.code == NACK && a.detail == INVALID_KEY)
    ensures b.SendWrongKey? ==> !(a.code == ACK && a.command == CMD_SEND_KEY)
  {
    PressIsWellFormed(p, b);
    KeysDiffer(p.lastSeed);
  }

  lemma KeysDiffer(seed: byte)
    ensures Key(seed) == Xor(seed, 0xA5) && Key(seed) != Xor(seed, 0xA4)
  {
    XorMoves(seed, 0xA4, Xor(seed, 0xA5));
    XorMoves(seed, 0xA5, Xor(seed, 0xA5));
  }
}
