/** The two hand-written host models of the repository's unit tests, as functions over their fields.
    Their clock is an unbounded count of milliseconds since they were created. */
module HostSpec {
  import opened Bytes
  import opened Frames
  import opened OtaSpec
  import opened RxSpec

  // The model's own numbers
  const OTA_CMD_START: byte := 0x01
  const OTA_CMD_DATA: byte := 0x02
  const OTA_CMD_END: byte := 0x03
  const OTA_CMD_ACTIVATE: byte := 0x04
  const OTA_CMD_REQUEST_SEED: byte := 0x10
  const OTA_CMD_SEND_KEY: byte := 0x11
  const OTA_RESPONSE_ACK: byte := 0x79
  const OTA_RESPONSE_NACK: byte := 0x7F
  const OTA_DETAIL_ACCEPTED: byte := 0x00
  const OTA_DETAIL_INVALID_SEQUENCE: byte := 0x14
  const OTA_DETAIL_BUFFER_OVERFLOW: byte := 0x16
  const OTA_DETAIL_CHECKSUM_MISMATCH: byte := 0x17
  const OTA_DETAIL_INVALID_AUTH: byte := 0x18
  const OTA_DETAIL_SECURITY_LOCKED: byte := 0x20
  const OTA_DETAIL_INVALID_KEY: byte := 0x22
  const OTA_DETAIL_SECURITY_LOCKOUT: byte := 0x23
  const OTA_SECURITY_LOCKOUT_LIMIT: byte := 3
  const OTA_SECURITY_LOCKOUT_MS := 3000
  const OTA_DATA_BUFFER_SIZE := 256
  const OTA_SECURITY_SEED_BASE: byte := 0x5A
  const COM_ALIVE_FREEZE_LIMIT: byte := 3
  const COM_RX_TIMEOUT_MS := 300

  function StateNumber(s: OtaState): (c: byte)
    ensures c < 7
  {
    match s
    case Idle => 0
    case Start => 1
    case Receiving => 2
    case Verifying => 3
    case ReadyToActivate => 4
    case Success => 5
    case Failed => 6
  }

  /** The model's checksum: the low identifier byte, then each item in turn. */
  function HostChecksum(id: nat, items: seq<byte>): byte {
    if |items| == 0 then id % 0x100 else Xor(HostChecksum(id, items[..|items| - 1]), items[|items| - 1])
  }

  // ---------------------------------------------------------------------------------------------
  // GatewayModel

  datatype HostMonitor = HostMonitor(
    lastRxMs: nat,
    timeoutError: bool,
    lastAlive: byte,
    freezeCount: nat,
    aliveError: bool,
    aliveInitialized: bool,
    checksumError: bool)
  {
    function Accept(alive: byte, now: nat): HostMonitor {
      var m :=
        if !aliveInitialized then this.(lastAlive := alive, aliveInitialized := true, freezeCount := 0)
        else if alive == lastAlive then
          var count := Min(0xFF, freezeCount + 1);
          this.(freezeCount := count, aliveError := aliveError || count >= COM_ALIVE_FREEZE_LIMIT)
        else this.(lastAlive := alive, freezeCount := 0, aliveError := false);
      m.(lastRxMs := now, timeoutError := false)
    }

    function CheckTimeout(now: nat): HostMonitor {
      if now - lastRxMs >= COM_RX_TIMEOUT_MS then
        this.(timeoutError := true, aliveInitialized := false, freezeCount := 0)
      else this
    }
  }

  const FRESH_MONITOR := HostMonitor(0, false, 0, 0, false, false, false)

  datatype HostGateway = HostGateway(nowMs: nat, blocked: nat, monitors: map<nat, HostMonitor>)

  function MonitoredIds(): set<nat> {
    {0x101, 0x201, 0x301, 0x401, 0x501}
  }

  function InitHostGateway(): HostGateway {
    HostGateway(0, 0, map id | id in MonitoredIds() :: FRESH_MONITOR)
  }

  function HostReceive(h: HostGateway, msg: Frame): HostGateway {
    if msg.id !in h.monitors then
      h.(blocked := Min(0xFF, h.blocked + 1))
    else
      var m := h.monitors[msg.id];
      if msg.length != 8 || msg.data[7] != HostChecksum(msg.id, msg.data[..7]) then
        h.(blocked := Min(0xFF, h.blocked + 1), monitors := h.monitors[msg.id := m.(checksumError := true)])
      else
        h.(monitors := h.monitors[msg.id := m.Accept(msg.data[6] % 16, h.nowMs)])
  }

  function HostCheckTimeouts(h: HostGateway): HostGateway {
    h.(monitors := map id | id in h.monitors :: h.monitors[id].CheckTimeout(h.nowMs))
  }

  // ---------------------------------------------------------------------------------------------
  // OtaModel

  datatype HostOta = HostOta(
    nowMs: nat,
    state: OtaState,
    version: byte,
    unlocked: bool,
    locked: bool,
    seed: byte,
    seedIssued: bool,
    errorCounter: byte,
    failureStreak: byte,
    lockoutActive: bool,
    lockoutStartMs: nat,
    responseCounter: byte,
    buffer: seq<byte>,
    verifyOk: bool,
    verifyPending: bool)

  function InitHostOta(): HostOta {
    HostOta(0, Idle, 1, false, true, OTA_SECURITY_SEED_BASE, false, 0, 0, false, 0, 0, [], false, false)
  }

  function HostUpdateLockout(h: HostOta): HostOta {
    if h.lockoutActive && h.nowMs - h.lockoutStartMs >= OTA_SECURITY_LOCKOUT_MS then
      h.(lockoutActive := false, failureStreak := 0, unlocked := false, locked := true, seedIssued := false)
    else h
  }

  function HostAdvance(h: HostOta, ms: nat): HostOta {
    HostUpdateLockout(h.(nowMs := h.nowMs + ms))
  }

  function HostRecordFailure(h: HostOta): HostOta {
    var h1 := h.(errorCounter := Min(0xFF, h.errorCounter + 1), failureStreak := Min(OTA_SECURITY_LOCKOUT_LIMIT, h.failureStreak + 1));
    if h1.failureStreak >= OTA_SECURITY_LOCKOUT_LIMIT then
      h1.(lockoutActive := true, lockoutStartMs := h.nowMs, unlocked := false, locked := true,
          seedIssued := false, state := Failed)
    else h1
  }

  function HostSeed(h: HostOta): byte {
    Xor(Xor(Xor(0x5A, h.responseCounter), h.errorCounter), h.version)
  }

  function HostKey(seed: byte): byte {
    Xor(seed, 0xA5)
  }

  function HostAuth(seed: byte, sequence: byte, payloadLength: byte): byte {
    Xor(Xor(Xor(seed, sequence), payloadLength), 0xC3)
  }

  datatype HostVerdict = HostVerdict(host: HostOta, code: byte, detail: byte)

  function Prefix(payload: seq<byte>, length: nat): seq<byte> {
    if length < |payload| then payload[..length] else payload
  }

  function HostData(h: HostOta, sequence: byte, byte2: byte, byte3: byte, payload: seq<byte>): HostVerdict {
    if !h.state.Open() then
      HostVerdict(h.(state := Failed), OTA_RESPONSE_NACK, OTA_DETAIL_INVALID_SEQUENCE)
    else if byte3 != HostAuth(h.seed, sequence, byte2) then
      HostVerdict(HostRecordFailure(h).(state := Failed), OTA_RESPONSE_NACK, OTA_DETAIL_INVALID_AUTH)
    else if |h.buffer| + byte2 > OTA_DATA_BUFFER_SIZE then
      HostVerdict(h.(state := Failed), OTA_RESPONSE_NACK, OTA_DETAIL_BUFFER_OVERFLOW)
    else
      HostVerdict(h.(buffer := h.buffer + Prefix(payload, byte2), state := Receiving), OTA_RESPONSE_ACK, OTA_DETAIL_ACCEPTED)
  }

  /** `request` up to the point where the response is built. */
  function HostDecide(h: HostOta, command: byte, sequence: byte, byte2: byte, byte3: byte, payload: seq<byte>): HostVerdict {
    if h.lockoutActive then
      HostVerdict(h, OTA_RESPONSE_NACK, OTA_DETAIL_SECURITY_LOCKOUT)
    else if command == OTA_CMD_REQUEST_SEED then
      var seed := HostSeed(h);
      HostVerdict(h.(unlocked := false, locked := true, seed := seed, seedIssued := true, buffer := [],
                     verifyOk := false, verifyPending := false, state := Idle), OTA_RESPONSE_ACK, seed)
    else if command == OTA_CMD_SEND_KEY then
      if byte2 == HostKey(h.seed) then
        HostVerdict(h.(unlocked := true, locked := false, seedIssued := false, failureStreak := 0), OTA_RESPONSE_ACK, OTA_DETAIL_ACCEPTED)
      else
        HostVerdict(HostRecordFailure(h).(unlocked := false, locked := true, seedIssued := false), OTA_RESPONSE_NACK, OTA_DETAIL_INVALID_KEY)
    else if command == OTA_CMD_START then
      if !h.unlocked then HostVerdict(h, OTA_RESPONSE_NACK, OTA_DETAIL_SECURITY_LOCKED)
      else HostVerdict(h.(buffer := [], verifyOk := false, verifyPending := false, state := Start), OTA_RESPONSE_ACK, OTA_DETAIL_ACCEPTED)
    else if command == OTA_CMD_DATA then
      HostData(h, sequence, byte2, byte3, payload)
    else if command == OTA_CMD_END then
      if XorAll(h.buffer) != byte2 then
        HostVerdict(h.(verifyOk := false, verifyPending := false, state := Failed), OTA_RESPONSE_NACK, OTA_DETAIL_CHECKSUM_MISMATCH)
      else
        HostVerdict(h.(verifyOk := true, verifyPending := true, state := Verifying), OTA_RESPONSE_ACK, OTA_DETAIL_ACCEPTED)
    else if command == OTA_CMD_ACTIVATE then
      if h.state.ReadyToActivate? && h.verifyOk then
        HostVerdict(h.(version := if h.version == 0xFF then 1 else h.version + 1, state := Success), OTA_RESPONSE_ACK, OTA_DETAIL_ACCEPTED)
      else
        HostVerdict(h.(state := Failed), OTA_RESPONSE_NACK, OTA_DETAIL_INVALID_SEQUENCE)
    else
      HostVerdict(h, OTA_RESPONSE_NACK, 0x12)
  }

  /** The eight response bytes, and the step of the response counter. */
  function HostResponse(v: HostVerdict, command: byte, sequence: byte): seq<byte> {
    var body := [v.code, command, sequence, v.detail, StateNumber(v.host.state) % 8, v.host.version, v.host.responseCounter % 16];
    body + [HostChecksum(0x651, body)]
  }

  function HostAnswered(v: HostVerdict): HostOta {
    v.host.(responseCounter := (v.host.responseCounter + 1) % 16)
  }

  function HostPublish(h: HostOta): HostOta {
    if h.verifyPending && h.state.Verifying? then
      h.(verifyPending := false, state := if h.verifyOk then ReadyToActivate else Failed)
    else h
  }
}
