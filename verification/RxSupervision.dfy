/** The receive supervision as the firmware runs it: one record per monitored ECU, updated in place. */
module RxSupervisions {
  import opened Bytes
  import opened Frames
  import opened RxSpec

  class ComRxMonitor {
    const canId: nat
    const rxMaskBit: nat
    const timeoutTicks: nat
    const aliveFreezeLimit: byte
    var lastRxTick: nat
    var timeoutError: bool
    var lastAliveCounter: byte
    var aliveFreezeCnt: byte
    var aliveError: bool
    var aliveInitialized: bool
    var checksumError: bool
    var checksumRecoveryCnt: byte

    constructor (ecu: nat)
      requires ecu < ECU_COUNT
      ensures IsFor(ecu) && View() == InitMonitor(0)
    {
      canId, rxMaskBit, timeoutTicks, aliveFreezeLimit := EcuId(ecu), ecu, RX_TIMEOUT, FREEZE_LIMIT;
      lastRxTick, timeoutError := 0, false;
      lastAliveCounter, aliveFreezeCnt, aliveError, aliveInitialized := 0, 0, false, false;
      checksumError, checksumRecoveryCnt := false, 0;
    }

    /** The constant part of the record is the table entry of ECU number `ecu`. */
    predicate IsFor(ecu: nat) {
      canId == EcuId(ecu) && rxMaskBit == ecu && timeoutTicks == RX_TIMEOUT && aliveFreezeLimit == FREEZE_LIMIT
    }

    ghost function View(): Monitor
      reads this
    {
      Monitor(lastRxTick, timeoutError, lastAliveCounter, aliveFreezeCnt, aliveError, aliveInitialized,
              checksumError, checksumRecoveryCnt)
    }

    method Init(now: nat)
      modifies this
      ensures View() == InitMonitor(now)
    {
      lastRxTick := now;
      timeoutError := false;
      lastAliveCounter := 0;
      aliveFreezeCnt := 0;
      aliveError := false;
      aliveInitialized := false;
      checksumError := false;
      checksumRecoveryCnt := 0;
    }

    method SetChecksumError()
      modifies this
      ensures View() == old(View()).SetChecksumError()
    {
      checksumError := true;
      checksumRecoveryCnt := 0;
    }

    method UpdateChecksumRecovery()
      modifies this
      ensures View() == old(View()).UpdateChecksumRecovery()
    {
      if !checksumError {
        return;
      }
      if checksumRecoveryCnt < 0xFF {
        checksumRecoveryCnt := checksumRecoveryCnt + 1;
      }
      if checksumRecoveryCnt >= RECOVERY_LIMIT {
        checksumError := false;
        checksumRecoveryCnt := 0;
      }
    }

    method UpdateAliveMonitor(msg: CanMessage)
      requires msg.Valid() && aliveFreezeLimit == FREEZE_LIMIT
      modifies this
      ensures View() == old(View()).UpdateAlive(AliveNibble(old(msg.View())))
    {
      var currentAlive := msg.data[ALIVE_COUNTER_BYTE] % 16;
      if !aliveInitialized {
        lastAliveCounter := currentAlive;
        aliveFreezeCnt := 0;
        aliveInitialized := true;
        return;
      }
      if currentAlive == lastAliveCounter {
        if aliveFreezeCnt < 0xFF {
          aliveFreezeCnt := aliveFreezeCnt + 1;
        }
        if aliveFreezeCnt >= aliveFreezeLimit && !aliveError {
          aliveError := true;
        }
      } else {
        aliveError := false;
        aliveFreezeCnt := 0;
        lastAliveCounter := currentAlive;
      }
    }

    /** A valid frame: it may clear faults and proves that a timeout has recovered. */
    method Accept(msg: CanMessage, now: nat)
      requires msg.Valid() && aliveFreezeLimit == FREEZE_LIMIT
      modifies this
      ensures View() == old(View()).Accept(old(msg.View()), now)
    {
      UpdateChecksumRecovery();
      UpdateAliveMonitor(msg);
      if timeoutError {
        timeoutError := false;
      }
      lastRxTick := now;
    }

    method CheckTimeout(now: nat)
      requires timeoutTicks == RX_TIMEOUT
      modifies this
      ensures View() == old(View()).CheckTimeout(now)
    {
      var elapsed := Elapsed(now, lastRxTick);
      if elapsed >= timeoutTicks {
        if !timeoutError {
          timeoutError := true;
          aliveInitialized := false;
          aliveFreezeCnt := 0;
        }
      }
    }
  }

  method MonitorTable() returns (table: seq<ComRxMonitor>)
    ensures |table| == ECU_COUNT && fresh(table)
    ensures forall i :: 0 <= i < ECU_COUNT ==> table[i].IsFor(i) && table[i].View() == InitMonitor(0)
    ensures forall i, j :: 0 <= i < j < ECU_COUNT ==> table[i] != table[j]
  {
    table := [];
    while |table| < ECU_COUNT
      invariant |table| <= ECU_COUNT && fresh(table)
      invariant forall i :: 0 <= i < |table| ==> table[i].IsFor(i) && table[i].View() == InitMonitor(0)
      invariant forall i, j :: 0 <= i < j < |table| ==> table[i] != table[j]
    {
      var monitor := new ComRxMonitor(|table|);
      table := table + [monitor];
    }
  }

  ghost function Views(ms: seq<ComRxMonitor>): (r: seq<Monitor>)
    reads ms
    ensures |r| == |ms| && forall i :: 0 <= i < |ms| ==> r[i] == ms[i].View()
  {
    if |ms| == 0 then [] else Views(ms[..|ms| - 1]) + [ms[|ms| - 1].View()]
  }

  class RxSupervision {
    const rxMonitors: seq<ComRxMonitor>
    var blockedMsgCnt: byte
    var gatewayRxMask: byte

    ghost predicate Valid() {
      && |rxMonitors| == ECU_COUNT
      && (forall i :: 0 <= i < ECU_COUNT ==> rxMonitors[i].IsFor(i))
      && (forall i, j :: 0 <= i < j < ECU_COUNT ==> rxMonitors[i] != rxMonitors[j])
    }

    ghost function View(): Supervision
      reads this, rxMonitors
      requires Valid()
    {
      Supervision(blockedMsgCnt, gatewayRxMask, Views(rxMonitors))
    }

    constructor ()
      ensures Valid() && View() == InitSupervision(0) && fresh(rxMonitors)
    {
      blockedMsgCnt, gatewayRxMask := 0, 0;
      var table := MonitorTable();
      rxMonitors := table;
      new;
      assert Views(rxMonitors) == InitSupervision(0).monitors;
    }

    method Init(now: nat)
      requires Valid()
      modifies this, rxMonitors
      ensures View() == InitSupervision(now)
    {
      var i := 0;
      while i < |rxMonitors|
        invariant 0 <= i <= |rxMonitors|
        invariant forall k :: 0 <= k < i ==> rxMonitors[k].View() == InitMonitor(now)
      {
        rxMonitors[i].Init(now);
        i := i + 1;
      }
      blockedMsgCnt := 0;
      gatewayRxMask := 0;
      assert Views(rxMonitors) == InitSupervision(now).monitors;
    }

    method FindRxMonitor(canId: nat) returns (monitor: ComRxMonitor?)
      requires Valid()
      ensures monitor == if FindEcu(canId) == NO_ECU then null else rxMonitors[FindEcu(canId)]
    {
      var i := 0;
      while i < |rxMonitors|
        invariant 0 <= i <= |rxMonitors|
        invariant forall k :: 0 <= k < i ==> canId != EcuId(k)
      {
        if rxMonitors[i].canId == canId {
          return rxMonitors[i];
        }
        i := i + 1;
      }
      return null;
    }

    /** A monitored frame that fails the checksum test: its ECU's fault is set and the frame counted. */
    method Block(monitor: ComRxMonitor, ghost i: nat)
      requires Valid() && i < ECU_COUNT && monitor == rxMonitors[i]
      modifies this`blockedMsgCnt, monitor
      ensures var r := old(View());
              View() == r.(blocked := Saturate(r.blocked), monitors := r.monitors[i := r.monitors[i].SetChecksumError()])
    {
      ghost var before := Views(rxMonitors);
      monitor.SetChecksumError();
      blockedMsgCnt := Saturate(blockedMsgCnt);
      assert Views(rxMonitors) == before[i := before[i].SetChecksumError()];
    }

    /** A monitored frame that passes it: its ECU is marked as seen and its monitor updated. */
    method Admit(monitor: ComRxMonitor, msg: CanMessage, now: nat, ghost i: nat)
      requires Valid() && i < ECU_COUNT && monitor == rxMonitors[i] && msg.Valid()
      modifies this`gatewayRxMask, monitor
      ensures var r := old(View());
              View() == r.(rxMask := SetBit(r.rxMask, i),
                           monitors := r.monitors[i := r.monitors[i].Accept(old(msg.View()), now)])
    {
      ghost var before := Views(rxMonitors);
      gatewayRxMask := SetBit(gatewayRxMask, monitor.rxMaskBit);
      monitor.Accept(msg, now);
      assert Views(rxMonitors) == before[i := before[i].Accept(old(msg.View()), now)];
    }

    /** One received CAN frame; `now` is the tick read once it has been accepted. */
    method HandleRxMessage(msg: CanMessage, now: nat)
      requires Valid() && msg.Valid()
      modifies this, rxMonitors
      ensures View() == Receive(old(View()), old(msg.View()), now)
    {
      var monitor := FindRxMonitor(msg.id);
      if monitor == null {
        CountUnknown();
        return;
      }
      var ok := msg.VerifyChecksum();
      if ok {
        Admit(monitor, msg, now, FindEcu(msg.id));
      } else {
        Block(monitor, FindEcu(msg.id));
      }
    }

    /** A frame whose identifier is not monitored is only counted. */
    method CountUnknown()
      requires Valid()
      modifies this`blockedMsgCnt
      ensures View() == old(View()).(blocked := Saturate(old(View()).blocked))
    {
      ghost var before := Views(rxMonitors);
      blockedMsgCnt := Saturate(blockedMsgCnt);
      assert Views(rxMonitors) == before;
    }

    method CheckTimeouts(now: nat)
      requires Valid()
      modifies rxMonitors
      ensures View() == RxSpec.CheckTimeouts(old(View()), now)
    {
      ghost var before := Views(rxMonitors);
      var i := 0;
      while i < |rxMonitors|
        invariant 0 <= i <= |rxMonitors|
        invariant forall k :: 0 <= k < i ==> rxMonitors[k].View() == before[k].CheckTimeout(now)
        invariant forall k :: i <= k < |rxMonitors| ==> rxMonitors[k].View() == before[k]
      {
        rxMonitors[i].CheckTimeout(now);
        i := i + 1;
      }
      assert Views(rxMonitors) == RxSpec.CheckTimeouts(old(View()), now).monitors;
    }

    method HasAnyAliveError() returns (any: bool)
      requires Valid()
      ensures any == AnyAliveError(View())
    {
      var i := 0;
      while i < |rxMonitors|
        invariant 0 <= i <= |rxMonitors|
        invariant forall k :: 0 <= k < i ==> !rxMonitors[k].timeoutError && !rxMonitors[k].aliveError
      {
        if rxMonitors[i].timeoutError || rxMonitors[i].aliveError {
          assert View().monitors[i].timeoutError || View().monitors[i].aliveError;
          return true;
        }
        i := i + 1;
      }
      return false;
    }

    method HasAnyChecksumError() returns (any: bool)
      requires Valid()
      ensures any == AnyChecksumError(View())
    {
      var i := 0;
      while i < |rxMonitors|
        invariant 0 <= i <= |rxMonitors|
        invariant forall k :: 0 <= k < i ==> !rxMonitors[k].checksumError
      {
        if rxMonitors[i].checksumError {
          assert View().monitors[i].checksumError;
          return true;
        }
        i := i + 1;
      }
      return false;
    }

    method HasAllMonitoredEcusSeen() returns (all: bool)
      requires Valid()
      ensures all == AllSeen(View())
    {
      all := gatewayRxMask % 0x20 == RX_MASK_ALL;
    }
  }
}
