/** The host models as objects whose methods update their fields, as the unit tests drive them. */
module HostModels {
  import opened Bytes
  import opened Frames
  import opened OtaSpec
  import opened RxSpec
  import opened HostSpec

  method Checksum(canId: nat, items: seq<byte>) returns (value: byte)
    ensures value == HostChecksum(canId, items)
  {
    value := canId % 0x100;
    var i := 0;
    while i < |items|
      invariant 0 <= i <= |items| && value == HostChecksum(canId, items[..i])
    {
      assert items[..i + 1][..i] == items[..i];
      value := Xor(value, items[i]);
      i := i + 1;
    }
    assert items[..i] == items;
  }

  class GatewayModel {
    var nowMs: nat
    var blockedMsgCount: nat
    var monitors: map<nat, HostMonitor>

    function View(): HostGateway
      reads this
    {
      HostGateway(nowMs, blockedMsgCount, monitors)
    }

    constructor ()
      ensures View() == InitHostGateway()
    {
      nowMs, blockedMsgCount := 0, 0;
      monitors := map id | id in MonitoredIds() :: FRESH_MONITOR;
    }

    method Advance(ms: nat)
      modifies this
      ensures View() == old(View()).(nowMs := old(nowMs) + ms)
    {
      nowMs := nowMs + ms;
    }

    method Receive(msg: Frame)
      modifies this
      ensures View() == HostReceive(old(View()), msg)
    {
      if msg.id !in monitors {
        blockedMsgCount := Min(0xFF, blockedMsgCount + 1);
        return;
      }
      var monitor := monitors[msg.id];
      var checksum := Checksum(msg.id, msg.data[..7]);
      if msg.length != 8 || msg.data[7] != checksum {
        monitors := monitors[msg.id := monitor.(checksumError := true)];
        blockedMsgCount := Min(0xFF, blockedMsgCount + 1);
        return;
      }
      var alive := msg.data[6] % 16;
      if !monitor.aliveInitialized {
        monitor := monitor.(lastAlive := alive, aliveInitialized := true, freezeCount := 0);
      } else if alive == monitor.lastAlive {
        monitor := monitor.(freezeCount := Min(0xFF, monitor.freezeCount + 1));
        if monitor.freezeCount >= COM_ALIVE_FREEZE_LIMIT {
          monitor := monitor.(aliveError := true);
        }
      } else {
        monitor := monitor.(lastAlive := alive, freezeCount := 0, aliveError := false);
      }
      monitor := monitor.(lastRxMs := nowMs, timeoutError := false);
      monitors := monitors[msg.id := monitor];
    }

    method CheckTimeouts()
      modifies this
      ensures View() == HostCheckTimeouts(old(View()))
    {
      var todo := monitors.Keys;
      ghost var before := monitors;
      while todo != {}
        invariant todo <= monitors.Keys == before.Keys
        invariant nowMs == old(nowMs) && blockedMsgCount == old(blockedMsgCount)
        invariant forall id :: id in before ==>
                    monitors[id] == if id in todo then before[id] else before[id].CheckTimeout(nowMs)
        decreases todo
      {
        var id :| id in todo;
        if nowMs - monitors[id].lastRxMs >= COM_RX_TIMEOUT_MS {
          monitors := monitors[id := monitors[id].(timeoutError := true, aliveInitialized := false, freezeCount := 0)];
        }
        todo := todo - {id};
      }
      assert monitors == HostCheckTimeouts(old(View())).monitors;
    }
  }

  class OtaModel {
    var nowMs: nat
    var otaState: OtaState
    var activeSwVersion: byte
    var securityUnlocked: bool
    var securityLocked: bool
    var securitySeed: byte
    var securitySeedIssued: bool
    var securityErrorCounter: byte
    var securityFailureStreak: byte
    var lockoutActive: bool
    var lockoutStartMs: nat
    var responseCounter: byte
    var buffer: seq<byte>
    var verifyOk: bool
    var verifyPending: bool

    function View(): HostOta
      reads this
    {
      HostOta(nowMs, otaState, activeSwVersion, securityUnlocked, securityLocked, securitySeed, securitySeedIssued,
              securityErrorCounter, securityFailureStreak, lockoutActive, lockoutStartMs, responseCounter,
              buffer, verifyOk, verifyPending)
    }

    constructor ()
      ensures View() == InitHostOta()
    {
      nowMs, otaState, activeSwVersion := 0, Idle, 1;
      securityUnlocked, securityLocked, securitySeed, securitySeedIssued := false, true, OTA_SECURITY_SEED_BASE, false;
      securityErrorCounter, securityFailureStreak, lockoutActive, lockoutStartMs := 0, 0, false, 0;
      responseCounter, buffer, verifyOk, verifyPending := 0, [], false, false;
    }

    method UpdateLockout()
      modifies this
      ensures View() == HostUpdateLockout(old(View()))
    {
      if lockoutActive && nowMs - lockoutStartMs >= OTA_SECURITY_LOCKOUT_MS {
        lockoutActive := false;
        securityFailureStreak := 0;
        securityUnlocked := false;
        securityLocked := true;
        securitySeedIssued := false;
      }
    }

    method Advance(ms: nat)
      modifies this
      ensures View() == HostAdvance(old(View()), ms)
    {
      nowMs := nowMs + ms;
      UpdateLockout();
    }

    method RecordFailure()
      modifies this
      ensures View() == HostRecordFailure(old(View()))
    {
      securityErrorCounter := Min(0xFF, securityErrorCounter + 1);
      securityFailureStreak := Min(OTA_SECURITY_LOCKOUT_LIMIT, securityFailureStreak + 1);
      if securityFailureStreak >= OTA_SECURITY_LOCKOUT_LIMIT {
        StartLockout();
      }
    }

    method StartLockout()
      modifies this
      ensures View() == old(View()).(lockoutActive := true, lockoutStartMs := old(nowMs), unlocked := false,
                                     locked := true, seedIssued := false, state := Failed)
    {
      lockoutActive := true;
      lockoutStartMs := nowMs;
      securityUnlocked := false;
      securityLocked := true;
      securitySeedIssued := false;
      otaState := Failed;
    }

    method PublishGatewayStatus()
      modifies this
      ensures View() == HostPublish(old(View()))
    {
      if verifyPending && otaState.Verifying? {
        verifyPending := false;
        otaState := if verifyOk then ReadyToActivate else Failed;
      }
    }

    method BufferChecksum() returns (calculated: byte)
      ensures calculated == XorAll(buffer)
    {
      calculated := 0;
      var i := 0;
      while i < |buffer|
        invariant 0 <= i <= |buffer| && calculated == XorAll(buffer[..i])
      {
        assert buffer[..i + 1][..i] == buffer[..i];
        calculated := Xor(calculated, buffer[i]);
        i := i + 1;
      }
      assert buffer[..i] == buffer;
    }

    method HandleData(sequence: byte, byte2: byte, byte3: byte, payload: seq<byte>) returns (code: byte, detail: byte)
      modifies this
      ensures HostVerdict(View(), code, detail) == HostData(old(View()), sequence, byte2, byte3, payload)
    {
      if otaState != Start && otaState != Receiving {
        otaState := Failed;
        return OTA_RESPONSE_NACK, OTA_DETAIL_INVALID_SEQUENCE;
      }
      var expectedAuth := HostAuth(securitySeed, sequence, byte2);
      if byte3 != expectedAuth {
        RecordFailure();
        otaState := Failed;
        return OTA_RESPONSE_NACK, OTA_DETAIL_INVALID_AUTH;
      }
      if |buffer| + byte2 > OTA_DATA_BUFFER_SIZE {
        otaState := Failed;
        return OTA_RESPONSE_NACK, OTA_DETAIL_BUFFER_OVERFLOW;
      }
      buffer := buffer + Prefix(payload, byte2);
      otaState := Receiving;
      return OTA_RESPONSE_ACK, OTA_DETAIL_ACCEPTED;
    }

    method HandleUpload(command: byte, sequence: byte, byte2: byte, byte3: byte, payload: seq<byte>)
      returns (code: byte, detail: byte)
      requires !lockoutActive && command != OTA_CMD_REQUEST_SEED && command != OTA_CMD_SEND_KEY
      modifies this
      ensures HostVerdict(View(), code, detail) == HostDecide(old(View()), command, sequence, byte2, byte3, payload)
    {
      code, detail := OTA_RESPONSE_ACK, OTA_DETAIL_ACCEPTED;
      if command == OTA_CMD_START {
        if !securityUnlocked {
          return OTA_RESPONSE_NACK, OTA_DETAIL_SECURITY_LOCKED;
        }
        buffer, verifyOk, verifyPending, otaState := [], false, false, Start;
      } else if command == OTA_CMD_DATA {
        code, detail := HandleData(sequence, byte2, byte3, payload);
      } else if command == OTA_CMD_END {
        var calculated := BufferChecksum();
        if calculated != byte2 {
          verifyOk, verifyPending, otaState := false, false, Failed;
          return OTA_RESPONSE_NACK, OTA_DETAIL_CHECKSUM_MISMATCH;
        }
        verifyOk, verifyPending, otaState := true, true, Verifying;
      } else if command == OTA_CMD_ACTIVATE {
        if otaState == ReadyToActivate && verifyOk {
          activeSwVersion := if activeSwVersion == 0xFF then 1 else activeSwVersion + 1;
          otaState := Success;
        } else {
          otaState := Failed;
          return OTA_RESPONSE_NACK, OTA_DETAIL_INVALID_SEQUENCE;
        }
      } else {
        return OTA_RESPONSE_NACK, 0x12;
      }
    }

    method HandleSecurity(command: byte, byte2: byte) returns (code: byte, detail: byte)
      requires !lockoutActive && (command == OTA_CMD_REQUEST_SEED || command == OTA_CMD_SEND_KEY)
      modifies this
      ensures HostVerdict(View(), code, detail) == HostDecide(old(View()), command, 0, byte2, 0, [])
    {
      if command == OTA_CMD_REQUEST_SEED {
        securityUnlocked := false;
        securityLocked := true;
        securitySeed := HostSeed(View());
        securitySeedIssued := true;
        buffer := [];
        verifyOk := false;
        verifyPending := false;
        otaState := Idle;
        return OTA_RESPONSE_ACK, securitySeed;
      }
      if byte2 == HostKey(securitySeed) {
        securityUnlocked := true;
        securityLocked := false;
        securitySeedIssued := false;
        securityFailureStreak := 0;
        return OTA_RESPONSE_ACK, OTA_DETAIL_ACCEPTED;
      }
      RecordFailure();
      securityUnlocked := false;
      securityLocked := true;
      securitySeedIssued := false;
      return OTA_RESPONSE_NACK, OTA_DETAIL_INVALID_KEY;
    }

    method Request(command: byte, sequence: byte, byte2: byte, byte3: byte, payload: seq<byte>) returns (data: seq<byte>)
      modifies this
      ensures var v := HostDecide(HostUpdateLockout(old(View())), command, sequence, byte2, byte3, payload);
              View() == HostAnswered(v) && data == HostResponse(v, command, sequence)
    {
      UpdateLockout();
      var code, detail := Handle(command, sequence, byte2, byte3, payload);
      data := BuildResponse(command, sequence, code, detail);
    }

    method BuildResponse(command: byte, sequence: byte, code: byte, detail: byte) returns (data: seq<byte>)
      modifies this
      ensures View() == HostAnswered(HostVerdict(old(View()), code, detail))
      ensures data == HostResponse(HostVerdict(old(View()), code, detail), command, sequence)
    {
      data := HostResponse(HostVerdict(View(), code, detail), command, sequence);
      responseCounter := (responseCounter + 1) % 16;
    }

    method Handle(command: byte, sequence: byte, byte2: byte, byte3: byte, payload: seq<byte>)
      returns (code: byte, detail: byte)
      modifies this
      ensures HostVerdict(View(), code, detail) == HostDecide(old(View()), command, sequence, byte2, byte3, payload)
    {
      if lockoutActive {
        return OTA_RESPONSE_NACK, OTA_DETAIL_SECURITY_LOCKOUT;
      } else if command == OTA_CMD_REQUEST_SEED || command == OTA_CMD_SEND_KEY {
        code, detail := HandleSecurity(command, byte2);
      } else {
        code, detail := HandleUpload(command, sequence, byte2, byte3, payload);
      }
    }
  }
}
