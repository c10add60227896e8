/** The OTA and security handlers as the firmware runs them: static variables updated in place.
    The variables are grouped into the security access, the upload buffer and the session around them. */
module OtaServices {
  import opened Bytes
  import opened Frames
  import opened OtaSpec

  class SecurityAccess {
    var securityUnlocked: bool
    var securityLocked: bool
    var securityErrorCounter: byte
    var securityFailureStreak: byte
    var securityLockoutActive: bool
    var securityLockoutStartTick: nat
    var securitySeed: byte
    var securitySeedIssued: bool

    ghost function View(): Security
      reads this
    {
      Security(securityUnlocked, securityLocked, securityErrorCounter, securityFailureStreak,
               securityLockoutActive, securityLockoutStartTick, securitySeed, securitySeedIssued)
    }

    constructor ()
      ensures View() == INIT_SECURITY
    {
      new;
      Init();
    }

    method Init()
      modifies this
      ensures View() == INIT_SECURITY
    {
      securityUnlocked, securityLocked := false, true;
      securityErrorCounter, securityFailureStreak := 0, 0;
      securityLockoutActive, securityLockoutStartTick := false, 0;
      securitySeed, securitySeedIssued := SEED_BASE, false;
    }

    method ClearFailureStreak()
      modifies this
      ensures View() == old(View()).ClearFailureStreak()
    {
      securityFailureStreak := 0;
      securityLockoutActive := false;
      securityLockoutStartTick := 0;
    }

    method ResetUnlock()
      modifies this
      ensures View() == old(View()).ResetUnlock()
    {
      securityUnlocked := false;
      securityLocked := true;
      securitySeedIssued := false;
    }

    method MarkUnlocked()
      modifies this
      ensures View() == old(View()).MarkUnlocked()
    {
      securityUnlocked := true;
      securityLocked := false;
      securitySeedIssued := false;
      ClearFailureStreak();
    }

    method UpdateLockout(tick: nat)
      modifies this
      ensures View() == old(View()).UpdateLockout(tick)
    {
      if securityLockoutActive {
        var elapsed := Elapsed(tick, securityLockoutStartTick);
        if elapsed >= LOCKOUT_TICKS {
          ResetUnlock();
          ClearFailureStreak();
        }
      }
    }

    method IsLockoutActive(tick: nat) returns (active: bool)
      modifies this
      ensures View() == old(View()).UpdateLockout(tick)
      ensures active == View().lockoutActive
    {
      UpdateLockout(tick);
      active := securityLockoutActive;
    }

    /** Counts a failure and, at the third, starts the lockout. */
    method RecordFailure(tick: nat) returns (lockout: bool)
      modifies this
      ensures View() == old(View()).RecordFailure(tick)
      ensures lockout == (View().failureStreak >= LOCKOUT_LIMIT)
    {
      securityErrorCounter := Saturate(securityErrorCounter);
      if securityFailureStreak < LOCKOUT_LIMIT {
        securityFailureStreak := securityFailureStreak + 1;
      }
      lockout := securityFailureStreak >= LOCKOUT_LIMIT;
      if lockout {
        securityLockoutActive := true;
        securityLockoutStartTick := tick;
        securityUnlocked := false;
        securityLocked := true;
        securitySeedIssued := false;
      }
    }

    method IssueSeed(seed: byte)
      modifies this
      ensures View() == old(View()).IssueSeed(seed)
    {
      ResetUnlock();
      securitySeed := seed;
      securitySeedIssued := true;
    }
  }

  class UploadBuffer {
    const otaDataBuffer: array<byte>
    var otaDataLength: nat
    var otaDataOverflow: bool
    var otaExpectedChecksum: byte
    var otaCalculatedChecksum: byte
    var otaVerifyOk: bool
    var otaExpectedAuth: byte
    var otaReceivedAuth: byte

    ghost predicate Valid()
      reads this
    {
      otaDataBuffer.Length == BUFFER_SIZE && otaDataLength <= BUFFER_SIZE
    }

    ghost function View(): Upload
      reads this, otaDataBuffer
      requires Valid()
    {
      Upload(otaDataBuffer[..], otaDataLength, otaDataOverflow, otaExpectedChecksum,
             otaCalculatedChecksum, otaVerifyOk, otaExpectedAuth, otaReceivedAuth)
    }

    constructor ()
      ensures Valid() && View() == EmptyUpload() && fresh(otaDataBuffer)
    {
      otaDataBuffer := new byte[BUFFER_SIZE](_ => 0);
      otaDataLength := 0;
      new;
      Reset();
    }

    method Reset()
      requires Valid()
      modifies this, otaDataBuffer
      ensures Valid() && View() == EmptyUpload()
    {
      forall k | 0 <= k < otaDataBuffer.Length {
        otaDataBuffer[k] := 0;
      }
      assert otaDataBuffer[..] == Zeros(BUFFER_SIZE);
      otaDataLength := 0;
      otaDataOverflow := false;
      otaExpectedChecksum := 0;
      otaCalculatedChecksum := 0;
      otaVerifyOk := false;
      otaExpectedAuth := 0;
      otaReceivedAuth := 0;
    }

    method CalculateChecksum() returns (checksum: byte)
      requires Valid()
      ensures checksum == XorAll(View().Stored())
    {
      checksum := 0;
      var i := 0;
      while i < otaDataLength
        invariant 0 <= i <= otaDataLength
        invariant checksum == XorAll(otaDataBuffer[..i])
      {
        assert otaDataBuffer[..i + 1][..i] == otaDataBuffer[..i];
        checksum := Xor(checksum, otaDataBuffer[i]);
        i := i + 1;
      }
      assert View().Stored() == otaDataBuffer[..otaDataLength];
    }

    method VerifyChecksum(request: CanMessage) returns (ok: bool)
      requires Valid() && request.Valid()
      modifies this
      ensures Valid() && View() == OtaSpec.VerifyChecksum(old(View()), old(request.View().data[2]))
      ensures ok == View().verifyOk
    {
      otaExpectedChecksum := request.data[2];
      otaCalculatedChecksum := CalculateChecksum();
      ok := otaCalculatedChecksum == otaExpectedChecksum;
      otaVerifyOk := ok;
    }

    method VerifyAuth(request: CanMessage, seed: byte, payloadLength: byte) returns (ok: bool)
      requires Valid() && request.Valid() && payloadLength == request.data[2]
      modifies this
      ensures Valid() && View() == Authenticate(old(View()), seed, old(request.View()))
      ensures ok == (View().receivedAuth == View().expectedAuth)
    {
      otaReceivedAuth := request.data[3];
      otaExpectedAuth := DataAuth(seed, request.data[1], payloadLength);
      ok := otaReceivedAuth == otaExpectedAuth;
    }

    /** Copies the payload of a DATA request behind the bytes already stored, if it still fits. */
    method Store(request: CanMessage) returns (ok: bool)
      requires Valid() && request.Valid() && request.data != otaDataBuffer && request.data[2] <= PAYLOAD_MAX
      modifies this, otaDataBuffer
      ensures Valid() && ok == (old(otaDataLength) + old(request.data[2]) <= BUFFER_SIZE)
      ensures View() == if ok then Append(old(View()), Payload(old(request.View()))) else old(View()).(overflow := true)
    {
      var payloadLength := request.data[2];
      if otaDataLength + payloadLength > BUFFER_SIZE {
        otaDataOverflow := true;
        return false;
      }
      ghost var before, data := otaDataBuffer[..], request.data[..];
      var i := 0;
      while i < payloadLength
        modifies otaDataBuffer
        invariant 0 <= i <= payloadLength
        invariant forall k :: 0 <= k < BUFFER_SIZE ==>
                    otaDataBuffer[k] == if otaDataLength <= k < otaDataLength + i
                                        then data[PAYLOAD_OFFSET + k - otaDataLength] else before[k]
      {
        otaDataBuffer[otaDataLength + i] := request.data[PAYLOAD_OFFSET + i];
        i := i + 1;
      }
      assert otaDataBuffer[..] == Splice(before, otaDataLength, data[PAYLOAD_OFFSET..PAYLOAD_OFFSET + payloadLength]);
      otaDataLength := otaDataLength + payloadLength;
      return true;
    }
  }

  class OtaService {
    var otaState: OtaState
    var activeSwVersion: byte
    var otaResponseCounter: byte
    var lastOtaCommand: byte
    var otaVerifyPending: bool
    const security: SecurityAccess
    const upload: UploadBuffer

    ghost predicate Valid()
      reads upload
    {
      upload.Valid()
    }

    ghost function Repr(): set<object> {
      {this, security, upload, upload.otaDataBuffer}
    }

    /** The abstract value of the static variables. */
    ghost function View(): Ota
      reads this, security, upload, upload.otaDataBuffer
      requires Valid()
    {
      Ota(otaState, activeSwVersion, otaResponseCounter, lastOtaCommand, otaVerifyPending,
          security.View(), upload.View())
    }

    constructor ()
      ensures Valid() && View() == InitOta() && fresh(Repr())
    {
      otaState, activeSwVersion, otaResponseCounter, lastOtaCommand, otaVerifyPending := Idle, 1, 0, 0, false;
      security := new SecurityAccess();
      upload := new UploadBuffer();
    }

    method Init()
      requires Valid()
      modifies Repr()
      ensures Valid() && View() == InitOta()
    {
      otaState, activeSwVersion, otaResponseCounter, lastOtaCommand, otaVerifyPending := Idle, 1, 0, 0, false;
      security.Init();
      upload.Reset();
    }

    method RecordFailure(tick: nat)
      requires Valid()
      modifies this, security
      ensures Valid() && View() == OtaSpec.RecordFailure(old(View()), tick)
    {
      var lockout := security.RecordFailure(tick);
      if lockout {
        otaVerifyPending := false;
        otaState := Failed;
      }
    }

    method StoreDataPayload(request: CanMessage, tick: nat) returns (ok: bool, detail: byte)
      requires Valid() && request.Valid() && request.data != upload.otaDataBuffer
      modifies Repr()
      ensures Valid()
      ensures match OtaSpec.StoreDataPayload(old(View()), old(request.View()), tick)
              case Accepted(o) => ok && View() == o && detail == ACCEPTED
              case Refused(o, d) => !ok && View() == o && detail == d
    {
      var payloadLength := request.data[2];
      if payloadLength > PAYLOAD_MAX {
        return false, INVALID_DATA_LENGTH;
      }
      var authentic := upload.VerifyAuth(request, security.securitySeed, payloadLength);
      if !authentic {
        RecordFailure(tick);
        return false, INVALID_AUTH;
      }
      ok := upload.Store(request);
      detail := if ok then ACCEPTED else BUFFER_OVERFLOW;
    }

    method VerifyDataChecksum(request: CanMessage) returns (ok: bool, detail: byte)
      requires Valid() && request.Valid()
      modifies upload
      ensures Valid()
      ensures match OtaSpec.VerifyDataChecksum(old(View()), old(request.View()))
              case Accepted(o) => ok && View() == o && detail == ACCEPTED
              case Refused(o, d) => !ok && View() == o && detail == d
    {
      ok := upload.VerifyChecksum(request);
      detail := if ok then ACCEPTED else CHECKSUM_MISMATCH;
    }

    method AdvanceActiveSwVersion()
      modifies this`activeSwVersion
      ensures activeSwVersion == AdvanceVersion(old(activeSwVersion))
    {
      if activeSwVersion >= 0xFF {
        activeSwVersion := 1;
      } else {
        activeSwVersion := activeSwVersion + 1;
      }
    }

    method ApplyCommandState(command: byte, request: CanMessage, tick: nat) returns (accepted: bool, detail: byte)
      requires Valid() && request.Valid() && request.data != upload.otaDataBuffer && command == request.data[0]
      modifies Repr()
      ensures Valid()
      ensures match ApplyCommand(old(View()), old(request.View()), tick)
              case Accepted(o) => accepted && View() == o && detail == ACCEPTED
              case Refused(o, d) => !accepted && View() == o && detail == d
    {
      accepted, detail := true, ACCEPTED;
      if command == CMD_START {
        if !security.securityUnlocked {
          accepted, detail := false, SECURITY_LOCKED;
        } else {
          otaVerifyPending := false;
          upload.Reset();
          otaState := Start;
        }
      } else if command == CMD_DATA && otaState.Open() {
        accepted, detail := StoreDataPayload(request, tick);
        if accepted {
          otaState := Receiving;
        } else {
          otaVerifyPending := false;
          otaState := Failed;
        }
      } else if command == CMD_END && otaState.Open() {
        accepted, detail := VerifyDataChecksum(request);
        if accepted {
          otaState := Verifying;
          otaVerifyPending := true;
        } else {
          otaVerifyPending := false;
          otaState := Failed;
        }
      } else if command == CMD_ACTIVATE && otaState.ReadyToActivate? && upload.otaVerifyOk {
        AdvanceActiveSwVersion();
        otaState := Success;
      } else if command == CMD_ABORT {
        otaVerifyPending := false;
        upload.Reset();
        otaState := Failed;
      } else {
        accepted := false;
      }
      if !accepted {
        otaVerifyPending := false;
        if detail == ACCEPTED {
          detail := INVALID_SEQUENCE;
          otaState := Failed;
        }
      }
    }

    method BuildResponse(response: CanMessage, command: byte, sequence: byte, code: byte, detail: byte)
      requires Valid() && response.Valid() && response.data != upload.otaDataBuffer
      modifies this`otaResponseCounter, response, response.data
      ensures Valid()
      ensures var d := Decision(old(View()), command, sequence, code, detail);
              View() == Answered(d) && response.View() == Response(d)
    {
      response.Write(ID_OTA_RESPONSE, code, command, sequence, detail,
                     otaState.Code() % 8, activeSwVersion, otaResponseCounter % 16);
      response.AddChecksum();
      otaResponseCounter := (otaResponseCounter + 1) % 16;
    }

    /** What one well-formed, known request does before its response is built. */
    method DecideKnown(request: CanMessage, fail: nat) returns (code: byte, detail: byte)
      requires Valid() && request.Valid() && request.data != upload.otaDataBuffer && KnownCommand(request.data[0])
      modifies Repr()
      ensures Valid()
      ensures Decision(View(), old(request.data[0]), old(request.data[1]), code, detail)
           == OtaSpec.DecideKnown(old(View()), old(request.View()), fail)
    {
      var requestCommand := request.data[0];
      code := NACK;
      if security.securityLockoutActive {
        detail := SECURITY_LOCKOUT;
      } else if requestCommand == CMD_REQUEST_SEED {
        upload.Reset();
        otaVerifyPending := false;
        otaState := Idle;
        var seed := GenerateSeed(otaResponseCounter, security.securityErrorCounter, activeSwVersion);
        security.IssueSeed(seed);
        code, detail := ACK, seed;
      } else if requestCommand == CMD_SEND_KEY {
        if !security.securitySeedIssued {
          detail := SEED_REQUIRED;
        } else if request.data[2] == Key(security.securitySeed) {
          security.MarkUnlocked();
          code, detail := ACK, ACCEPTED;
        } else {
          RecordFailure(fail);
          security.ResetUnlock();
          detail := INVALID_KEY;
        }
      } else {
        var accepted;
        accepted, detail := ApplyCommandState(requestCommand, request, fail);
        code := if accepted then ACK else NACK;
      }
    }

    /** Handles one OTA_REQUEST and fills in its response; only a null message is left unanswered.
        `gate` is the tick at the lockout check, `fail` the tick when a failure is recorded. */
    method HandleRequestMessage(request: CanMessage?, response: CanMessage?, gate: nat, fail: nat) returns (answered: bool)
      requires Valid()
      requires request != null ==> request.Valid() && request.data != upload.otaDataBuffer
      requires response != null ==> response.Valid() && response.data != upload.otaDataBuffer
      modifies Repr(), if response == null then {} else {response, response.data}
      ensures Valid() && answered == (request != null && response != null)
      ensures !answered ==> View() == old(View())
      ensures answered ==>
                var d := Decide(old(View()), old(request.View()), gate, fail);
                View() == Answered(d) && response.View() == Response(d)
    {
      if request == null || response == null {
        return false;
      }
      answered := true;
      if request.id != ID_OTA_REQUEST {
        BuildResponse(response, 0, 0, NACK, INVALID_ID);
      } else if request.length != REQUEST_DLC {
        BuildResponse(response, 0, 0, NACK, INVALID_DLC);
      } else {
        var requestCommand, requestSequence := request.data[0], request.data[1];
        lastOtaCommand := requestCommand;
        if !KnownCommand(requestCommand) {
          BuildResponse(response, requestCommand, requestSequence, NACK, UNKNOWN_COMMAND);
        } else {
          var active := security.IsLockoutActive(gate);
          if active {
            BuildResponse(response, requestCommand, requestSequence, NACK, SECURITY_LOCKOUT);
          } else {
            var responseCode, detail := DecideKnown(request, fail);
            BuildResponse(response, requestCommand, requestSequence, responseCode, detail);
          }
        }
      }
    }

    method UpdateStateAfterStatusPublish()
      requires Valid()
      modifies this
      ensures Valid() && View() == AfterPublish(old(View()))
    {
      if otaVerifyPending && otaState.Verifying? {
        otaVerifyPending := false;
        if upload.otaVerifyOk {
          otaState := ReadyToActivate;
        } else {
          otaState := Failed;
        }
      }
    }
  }
}
