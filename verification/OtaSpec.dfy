/** The OTA and security session machine of the ECU6 gateway, as functions over its state. */
module OtaSpec {
  import opened Bytes
  import opened Frames

  const REQUEST_DLC := 8
  const BUFFER_SIZE := 256
  const PAYLOAD_OFFSET := 4
  const PAYLOAD_MAX := 4

  const CMD_START: byte := 0x01
  const CMD_DATA: byte := 0x02
  const CMD_END: byte := 0x03
  const CMD_ACTIVATE: byte := 0x04
  const CMD_ABORT: byte := 0x05
  const CMD_REQUEST_SEED: byte := 0x10
  const CMD_SEND_KEY: byte := 0x11

  const SEED_BASE: byte := 0x5A
  const KEY_XOR: byte := 0xA5
  const AUTH_XOR: byte := 0xC3
  const LOCKOUT_LIMIT: byte := 3
  const LOCKOUT_TICKS := 3000

  const ACK: byte := 0x79
  const NACK: byte := 0x7F
  const ACCEPTED: byte := 0x00
  const INVALID_ID: byte := 0x10
  const INVALID_DLC: byte := 0x11
  const UNKNOWN_COMMAND: byte := 0x12
  const INVALID_SEQUENCE: byte := 0x14
  const INVALID_DATA_LENGTH: byte := 0x15
  const BUFFER_OVERFLOW: byte := 0x16
  const CHECKSUM_MISMATCH: byte := 0x17
  const INVALID_AUTH: byte := 0x18
  const SECURITY_LOCKED: byte := 0x20
  const SEED_REQUIRED: byte := 0x21
  const INVALID_KEY: byte := 0x22
  const SECURITY_LOCKOUT: byte := 0x23

  datatype OtaState = Idle | Start | Receiving | Verifying | ReadyToActivate | Success | Failed {
    function Code(): (c: byte)
      ensures c < 7
    {
      match this
      case Idle => 0
      case Start => 1
      case Receiving => 2
      case Verifying => 3
      case ReadyToActivate => 4
      case Success => 5
      case Failed => 6
    }

    /** An upload is open: DATA and END are in sequence. */
    predicate Open() {
      Start? || Receiving?
    }
  }

  // ---------------------------------------------------------------------------------------------
  // Security access

  /** The static variables of the seed/key access and its lockout. */
  datatype Security = Security(
    unlocked: bool,
    locked: bool,
    errorCounter: byte,
    failureStreak: byte,
    lockoutActive: bool,
    lockoutStart: nat,
    seed: byte,
    seedIssued: bool)
  {
    function ClearFailureStreak(): Security {
      this.(failureStreak := 0, lockoutActive := false, lockoutStart := 0)
    }

    function ResetUnlock(): Security {
      this.(unlocked := false, locked := true, seedIssued := false)
    }

    function MarkUnlocked(): Security {
      this.(unlocked := true, locked := false, seedIssued := false).ClearFailureStreak()
    }

    function UpdateLockout(tick: nat): Security {
      if lockoutActive && Elapsed(tick, lockoutStart) >= LOCKOUT_TICKS then
        ResetUnlock().ClearFailureStreak()
      else
        this
    }

    function RecordFailure(tick: nat): Security {
      var s := this.(errorCounter := Saturate(errorCounter),
                     failureStreak := if failureStreak < LOCKOUT_LIMIT then failureStreak + 1 else failureStreak);
      if s.failureStreak >= LOCKOUT_LIMIT then
        s.(lockoutActive := true, lockoutStart := tick, unlocked := false, locked := true, seedIssued := false)
      else
        s
    }

    function IssueSeed(seed: byte): Security {
      ResetUnlock().(seed := seed, seedIssued := true)
    }
  }

  const INIT_SECURITY := Security(false, true, 0, 0, false, 0, SEED_BASE, false)

  function Key(seed: byte): byte {
    Xor(seed, KEY_XOR)
  }

  function GenerateSeed(responseCounter: byte, errorCounter: byte, version: byte): byte {
    Xor(Xor(Xor(SEED_BASE, responseCounter), errorCounter), version)
  }

  function DataAuth(seed: byte, sequence: byte, length: byte): byte {
    Xor(Xor(Xor(seed, sequence), length), AUTH_XOR)
  }

  // ---------------------------------------------------------------------------------------------
  // Upload buffer

  datatype UploadFields = Upload(
    buffer: seq<byte>,
    length: nat,
    overflow: bool,
    expectedChecksum: byte,
    calculatedChecksum: byte,
    verifyOk: bool,
    expectedAuth: byte,
    receivedAuth: byte)
  {
    /** The payload bytes accepted so far. */
    function Stored(): seq<byte>
      requires length <= |buffer|
    {
      buffer[..length]
    }
  }

  type Upload = u: UploadFields | |u.buffer| == BUFFER_SIZE && u.length <= BUFFER_SIZE
    witness Upload(Zeros(BUFFER_SIZE), 0, false, 0, 0, false, 0, 0)

  /** The buffer as `OTA_ResetDataBuffer` leaves it. */
  function EmptyUpload(): Upload {
    Upload(Zeros(BUFFER_SIZE), 0, false, 0, 0, false, 0, 0)
  }

  /** `buffer` with `payload` written from index `at` on. */
  function Splice(buffer: seq<byte>, at: nat, payload: seq<byte>): (r: seq<byte>)
    requires at + |payload| <= |buffer|
    ensures |r| == |buffer|
    ensures r[..at + |payload|] == buffer[..at] + payload
  {
    buffer[..at] + payload + buffer[at + |payload|..]
  }

  /** The payload bytes that a DATA request carries; none when its length byte is out of range. */
  function Payload(request: Frame): (p: seq<byte>)
    ensures |p| <= PAYLOAD_MAX
  {
    if request.data[2] > PAYLOAD_MAX then []
    else request.data[PAYLOAD_OFFSET..PAYLOAD_OFFSET + request.data[2]]
  }

  function Authenticate(u: Upload, seed: byte, request: Frame): Upload {
    u.(receivedAuth := request.data[3], expectedAuth := DataAuth(seed, request.data[1], request.data[2]))
  }

  function Append(u: Upload, payload: seq<byte>): Upload
    requires u.length + |payload| <= BUFFER_SIZE
  {
    u.(buffer := Splice(u.buffer, u.length, payload), length := u.length + |payload|)
  }

  function VerifyChecksum(u: Upload, expected: byte): Upload {
    var calculated := XorAll(u.Stored());
    u.(expectedChecksum := expected, calculatedChecksum := calculated, verifyOk := calculated == expected)
  }

  // ---------------------------------------------------------------------------------------------
  // Commands

  /** The static variables of the OTA and security part of the gateway. */
  datatype Ota = Ota(
    state: OtaState,
    version: byte,
    responseCounter: byte,
    lastCommand: byte,
    verifyPending: bool,
    security: Security,
    upload: Upload)

  /** The state that `COM_GatewayInit` establishes. */
  function InitOta(): Ota {
    Ota(Idle, 1, 0, 0, false, INIT_SECURITY, EmptyUpload())
  }

  function AdvanceVersion(version: byte): byte {
    if version >= 0xFF then 1 else version + 1
  }

  function RecordFailure(o: Ota, tick: nat): Ota {
    var s := o.security.RecordFailure(tick);
    if s.failureStreak >= LOCKOUT_LIMIT then
      o.(security := s, verifyPending := false, state := Failed)
    else
      o.(security := s)
  }

  /** Outcome of a command: the new state, and the NACK detail when it is refused. */
  datatype Verdict = Accepted(ota: Ota) | Refused(ota: Ota, detail: byte)

  function StoreDataPayload(o: Ota, request: Frame, tick: nat): Verdict {
    if request.data[2] > PAYLOAD_MAX then
      Refused(o, INVALID_DATA_LENGTH)
    else
      var u := Authenticate(o.upload, o.security.seed, request);
      if u.receivedAuth != u.expectedAuth then
        Refused(RecordFailure(o.(upload := u), tick), INVALID_AUTH)
      else if u.length + request.data[2] > BUFFER_SIZE then
        Refused(o.(upload := u.(overflow := true)), BUFFER_OVERFLOW)
      else
        Accepted(o.(upload := Append(u, Payload(request))))
  }

  function VerifyDataChecksum(o: Ota, request: Frame): Verdict {
    var u := VerifyChecksum(o.upload, request.data[2]);
    if u.verifyOk then Accepted(o.(upload := u)) else Refused(o.(upload := u), CHECKSUM_MISMATCH)
  }

  /** A refused upload command clears the pending verification and moves to FAILED. */
  function Fail(o: Ota, detail: byte): Verdict {
    Refused(o.(verifyPending := false, state := Failed), detail)
  }

  function ApplyCommand(o: Ota, request: Frame, tick: nat): Verdict {
    var command := request.data[0];
    if command == CMD_START then
      if !o.security.unlocked then Refused(o.(verifyPending := false), SECURITY_LOCKED)
      else Accepted(o.(verifyPending := false, upload := EmptyUpload(), state := Start))
    else if command == CMD_DATA && o.state.Open() then
      match StoreDataPayload(o, request, tick)
      case Accepted(o1) => Accepted(o1.(state := Receiving))
      case Refused(o1, detail) => Fail(o1, detail)
    else if command == CMD_END && o.state.Open() then
      match VerifyDataChecksum(o, request)
      case Accepted(o1) => Accepted(o1.(state := Verifying, verifyPending := true))
      case Refused(o1, detail) => Fail(o1, detail)
    else if command == CMD_ACTIVATE && o.state.ReadyToActivate? && o.upload.verifyOk then
      Accepted(o.(version := AdvanceVersion(o.version), state := Success))
    else if command == CMD_ABORT then
      Accepted(o.(verifyPending := false, upload := EmptyUpload(), state := Failed))
    else
      Fail(o, INVALID_SEQUENCE)
  }

  // ---------------------------------------------------------------------------------------------
  // Requests and responses

  predicate KnownCommand(command: byte) {
    || command == CMD_START || command == CMD_DATA || command == CMD_END || command == CMD_ACTIVATE
    || command == CMD_ABORT || command == CMD_REQUEST_SEED || command == CMD_SEND_KEY
  }

  predicate WellFormed(request: Frame) {
    request.id == ID_OTA_REQUEST && request.length == REQUEST_DLC
  }

  /** What a request does before its response is built. */
  datatype Decision = Decision(ota: Ota, command: byte, sequence: byte, code: byte, detail: byte)

  /** `gate` is the tick read by the lockout check, `fail` the one read when a failure is recorded. */
  function Decide(o: Ota, request: Frame, gate: nat, fail: nat): Decision {
    if request.id != ID_OTA_REQUEST then
      Decision(o, 0, 0, NACK, INVALID_ID)
    else if request.length != REQUEST_DLC then
      Decision(o, 0, 0, NACK, INVALID_DLC)
    else
      var command, sequence := request.data[0], request.data[1];
      var o1 := o.(lastCommand := command);
      if !KnownCommand(command) then
        Decision(o1, command, sequence, NACK, UNKNOWN_COMMAND)
      else
        DecideKnown(UpdateLockout(o1, gate), request, fail)
  }

  function UpdateLockout(o: Ota, tick: nat): Ota {
    o.(security := o.security.UpdateLockout(tick))
  }

  function DecideKnown(o: Ota, request: Frame, fail: nat): Decision {
    var command, sequence := request.data[0], request.data[1];
    if o.security.lockoutActive then
      Decision(o, command, sequence, NACK, SECURITY_LOCKOUT)
    else if command == CMD_REQUEST_SEED then
      var seed := GenerateSeed(o.responseCounter, o.security.errorCounter, o.version);
      Decision(o.(security := o.security.IssueSeed(seed), upload := EmptyUpload(), verifyPending := false, state := Idle),
               command, sequence, ACK, seed)
    else if command == CMD_SEND_KEY then
      if !o.security.seedIssued then
        Decision(o, command, sequence, NACK, SEED_REQUIRED)
      else if request.data[2] == Key(o.security.seed) then
        Decision(o.(security := o.security.MarkUnlocked()), command, sequence, ACK, ACCEPTED)
      else
        var o1 := RecordFailure(o, fail);
        Decision(o1.(security := o1.security.ResetUnlock()), command, sequence, NACK, INVALID_KEY)
    else
      match ApplyCommand(o, request, fail)
      case Accepted(o1) => Decision(o1, command, sequence, ACK, ACCEPTED)
      case Refused(o1, detail) => Decision(o1, command, sequence, NACK, detail)
  }

  /** The 0x651 response frame that answers a decision. */
  function Response(d: Decision): (r: Frame)
    ensures ChecksumOk(r) && r.data[0] == d.code && r.data[1] == d.command && r.data[3] == d.detail
  {
    var o := d.ota;
    Sealed(ID_OTA_RESPONSE, [d.code, d.command, d.sequence, d.detail, o.state.Code() % 8, o.version, o.responseCounter % 16])
  }

  /** Building the response steps the 4-bit response counter. */
  function Answered(d: Decision): Ota {
    d.ota.(responseCounter := (d.ota.responseCounter + 1) % 16)
  }

  function AfterRequest(o: Ota, request: Frame, gate: nat, fail: nat): Ota {
    Answered(Decide(o, request, gate, fail))
  }

  /** VERIFYING stays visible for one published status frame. */
  function AfterPublish(o: Ota): Ota {
    if o.verifyPending && o.state.Verifying? then
      o.(verifyPending := false, state := if o.upload.verifyOk then ReadyToActivate else Failed)
    else
      o
  }
}
