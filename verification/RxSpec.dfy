/** Supervision of the five monitored ECUs, as functions over the monitor records. */
module RxSpec {
  import opened Bytes
  import opened Frames

  const ECU_COUNT := 5
  const NO_ECU := -1
  const ALIVE_COUNTER_BYTE := 6
  const RX_TIMEOUT := 300
  const FREEZE_LIMIT: byte := 3
  const RECOVERY_LIMIT: byte := 5
  const RX_MASK_ALL: byte := 0x1F

  /** CAN identifier of monitored ECU number `i`: 0x101, 0x201, 0x301, 0x401, 0x501. */
  function EcuId(i: nat): nat {
    0x101 + 0x100 * i
  }

  /** The monitor that supervises `id`, or NO_ECU when the identifier is unknown. */
  function FindEcu(id: nat): (i: int)
    ensures NO_ECU <= i < ECU_COUNT
    ensures i != NO_ECU ==> id == EcuId(i)
    ensures i == NO_ECU ==> forall k :: 0 <= k < ECU_COUNT ==> id != EcuId(k)
  {
    if id == 0x101 then 0 else if id == 0x201 then 1 else if id == 0x301 then 2
    else if id == 0x401 then 3 else if id == 0x501 then 4 else NO_ECU
  }

  function AliveNibble(msg: Frame): byte {
    msg.data[ALIVE_COUNTER_BYTE] % 16
  }

  datatype Monitor = Monitor(
    lastRxTick: nat,
    timeoutError: bool,
    lastAlive: byte,
    freezeCount: byte,
    aliveError: bool,
    aliveInitialized: bool,
    checksumError: bool,
    recoveryCount: byte)
  {
    function SetChecksumError(): Monitor {
      this.(checksumError := true, recoveryCount := 0)
    }

    function UpdateChecksumRecovery(): Monitor {
      if !checksumError then
        this
      else if Saturate(recoveryCount) >= RECOVERY_LIMIT then
        this.(checksumError := false, recoveryCount := 0)
      else
        this.(recoveryCount := Saturate(recoveryCount))
    }

    function UpdateAlive(nibble: byte): Monitor {
      if !aliveInitialized then
        this.(lastAlive := nibble, freezeCount := 0, aliveInitialized := true)
      else if nibble == lastAlive then
        var count := Saturate(freezeCount);
        this.(freezeCount := count, aliveError := aliveError || count >= FREEZE_LIMIT)
      else
        this.(aliveError := false, freezeCount := 0, lastAlive := nibble)
    }

    /** A frame with a good checksum. */
    function Accept(msg: Frame, tick: nat): Monitor {
      UpdateChecksumRecovery().UpdateAlive(AliveNibble(msg)).(timeoutError := false, lastRxTick := tick)
    }

    function CheckTimeout(tick: nat): Monitor {
      if Elapsed(tick, lastRxTick) >= RX_TIMEOUT && !timeoutError then
        this.(timeoutError := true, aliveInitialized := false, freezeCount := 0)
      else
        this
    }
  }

  function InitMonitor(tick: nat): Monitor {
    Monitor(tick, false, 0, 0, false, false, false, 0)
  }

  datatype SupervisionFields = Supervision(blocked: byte, rxMask: byte, monitors: seq<Monitor>)

  type Supervision = r: SupervisionFields | |r.monitors| == ECU_COUNT
    witness Supervision(0, 0, seq(ECU_COUNT, _ => InitMonitor(0)))

  function InitSupervision(tick: nat): Supervision {
    Supervision(0, 0, seq(ECU_COUNT, _ => InitMonitor(tick)))
  }

  /** One received frame: unknown identifiers and bad checksums are counted as blocked. */
  function Receive(r: Supervision, msg: Frame, tick: nat): Supervision {
    var i := FindEcu(msg.id);
    if i == NO_ECU then
      r.(blocked := Saturate(r.blocked))
    else if !ChecksumOk(msg) then
      r.(blocked := Saturate(r.blocked), monitors := r.monitors[i := r.monitors[i].SetChecksumError()])
    else
      r.(rxMask := SetBit(r.rxMask, i), monitors := r.monitors[i := r.monitors[i].Accept(msg, tick)])
  }

  function CheckTimeouts(r: Supervision, tick: nat): Supervision {
    r.(monitors := seq(ECU_COUNT, i requires 0 <= i < ECU_COUNT => r.monitors[i].CheckTimeout(tick)))
  }

  /** A timeout or an alive-counter fault on any ECU. */
  predicate AnyAliveError(r: Supervision) {
    exists i :: 0 <= i < ECU_COUNT && (r.monitors[i].timeoutError || r.monitors[i].aliveError)
  }

  predicate AnyChecksumError(r: Supervision) {
    exists i :: 0 <= i < ECU_COUNT && r.monitors[i].checksumError
  }

  predicate AllSeen(r: Supervision) {
    r.rxMask % 0x20 == RX_MASK_ALL
  }
}
