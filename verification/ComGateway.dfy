/** The gateway service object: the public entry points of the firmware, each one event of GatewaySpec. */
module ComGateways {
  import opened Bytes
  import opened Frames
  import opened OtaSpec
  import opened RxSpec
  import opened GatewaySpec
  import opened OtaServices
  import opened RxSupervisions

  class ComGateway {
    const ota: OtaService
    const rx: RxSupervision
    var gatewayState: GatewayState
    var aliveCounter: byte

    ghost predicate Valid()
      reads ota.upload
    {
      ota.Valid() && rx.Valid()
    }

    ghost function View(): Gateway
      reads this, ota, ota.security, ota.upload, ota.upload.otaDataBuffer, rx, rx.rxMonitors
      requires Valid()
    {
      Gateway(ota.View(), rx.View(), gatewayState, aliveCounter)
    }

    constructor ()
      ensures Valid() && View() == InitGateway(0)
      ensures fresh(ota) && fresh(ota.Repr()) && fresh(rx) && fresh(rx.rxMonitors)
    {
      ota := new OtaService();
      rx := new RxSupervision();
      gatewayState, aliveCounter := Initial, 0;
    }

    method Init(now: nat)
      requires Valid()
      modifies this, ota.Repr(), rx, rx.rxMonitors
      ensures Valid() && View() == InitGateway(now)
    {
      gatewayState := Initial;
      aliveCounter := 0;
      ota.Init();
      rx.Init(now);
    }

    /** `gate` is the tick at the lockout check, `fail` the tick when a failure is recorded. */
    method HandleRequestMessage(request: CanMessage?, response: CanMessage?, gate: nat, fail: nat) returns (answered: bool)
      requires Valid()
      requires request != null ==> request.Valid() && request.data != ota.upload.otaDataBuffer
      requires response != null ==> response.Valid() && response.data != ota.upload.otaDataBuffer
      modifies ota.Repr(), if response == null then {} else {response, response.data}
      ensures Valid() && answered == (request != null && response != null)
      ensures !answered ==> View() == old(View())
      ensures answered ==>
                var d := Decide(old(View()).ota, old(request.View()), gate, fail);
                View() == old(View()).(ota := Answered(d)) && response.View() == Response(d)
    {
      answered := ota.HandleRequestMessage(request, response, gate, fail);
    }

    method HandleRxMessage(msg: CanMessage, now: nat)
      requires Valid() && msg.Valid()
      modifies rx, rx.rxMonitors
      ensures Valid() && View() == old(View()).(rx := Receive(old(View()).rx, old(msg.View()), now))
    {
      rx.HandleRxMessage(msg, now);
    }

    method CheckTimeouts(now: nat)
      requires Valid()
      modifies rx.rxMonitors
      ensures Valid() && View() == old(View()).(rx := RxSpec.CheckTimeouts(old(View()).rx, now))
    {
      rx.CheckTimeouts(now);
    }

    method UpdateGatewayState()
      requires Valid()
      modifies this`gatewayState
      ensures gatewayState == StateOf(rx.View())
    {
      var alive := rx.HasAnyAliveError();
      var checksum := rx.HasAnyChecksumError();
      var seen := rx.HasAllMonitoredEcusSeen();
      if alive || checksum {
        gatewayState := Degraded;
      } else if seen {
        gatewayState := Normal;
      } else {
        gatewayState := Initial;
      }
    }

    /** Brings the lockout, the timeouts and the gateway state up to date. */
    method Refresh(lockoutTick: nat, checkTick: nat)
      requires Valid()
      modifies this`gatewayState, ota.security, rx.rxMonitors
      ensures Valid() && View() == Refreshed(old(View()), lockoutTick, checkTick)
    {
      ota.security.UpdateLockout(lockoutTick);
      rx.CheckTimeouts(checkTick);
      UpdateGatewayState();
    }

    method PackFlags() returns (flags: byte)
      requires Valid()
      ensures flags == StatusFlags(ota.View(), rx.View())
    {
      var aliveError := rx.HasAnyAliveError();
      var checksumError := rx.HasAnyChecksumError();
      flags := ota.otaState.Code() % 8;
      if ota.security.securityUnlocked {
        flags := SetBit(flags, UNLOCKED_BIT);
      }
      if ota.security.securityLocked {
        flags := SetBit(flags, LOCKED_BIT);
      }
      if aliveError {
        flags := SetBit(flags, ALIVE_ERROR_BIT);
      }
      if checksumError {
        flags := SetBit(flags, CHECKSUM_ERROR_BIT);
      }
    }

    /** Packs the frame for the state as it stands. */
    method PackStatus(msg: CanMessage)
      requires Valid() && msg.Valid() && msg.data != ota.upload.otaDataBuffer
      modifies msg, msg.data
      ensures msg.View() == StatusFrame(View())
    {
      var flags := PackFlags();
      msg.Write(ID_GATEWAY, gatewayState.Code(), flags, rx.blockedMsgCnt, ota.security.securityErrorCounter,
                ota.activeSwVersion, rx.gatewayRxMask, aliveCounter % 16);
      msg.AddChecksum();
    }

    /** `lockoutTick` is the tick at the lockout update, `checkTick` the one at the timeout check. */
    method BuildStatusMessage(msg: CanMessage, lockoutTick: nat, checkTick: nat)
      requires Valid() && msg.Valid() && msg.data != ota.upload.otaDataBuffer
      modifies this, ota, ota.security, rx.rxMonitors, msg, msg.data
      ensures Valid() && View() == AfterStatus(Refreshed(old(View()), lockoutTick, checkTick))
      ensures msg.View() == StatusFrame(Refreshed(old(View()), lockoutTick, checkTick))
    {
      Refresh(lockoutTick, checkTick);
      PackStatus(msg);
      StatusSent();
    }

    method StatusSent()
      requires Valid()
      modifies this`aliveCounter, ota
      ensures Valid() && View() == AfterStatus(old(View()))
    {
      aliveCounter := (aliveCounter + 1) % 16;
      ota.UpdateStateAfterStatusPublish();
    }
  }
}
