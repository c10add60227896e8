/** The whole gateway as one event-driven machine, and its runs.

    A run is a fixed sequence of events `es`; `OtaAt(es, n)`, `RxAt(es, start, n)` and
    `GatewayAt(es, start, n)` are the states after its first `n` events, counted from
    `COM_GatewayInit` at clock `start`. Events carry readings of an unbounded clock; the firmware
    only ever sees them modulo 2^32.
 */
module GatewaySpec {
  import opened Bytes
  import opened Frames
  import opened OtaSpec
  import opened RxSpec

  datatype GatewayState = Initial | Normal | Degraded {
    function Code(): byte {
      match this
      case Initial => 0
      case Normal => 1
      case Degraded => 2
    }
  }

  datatype Gateway = Gateway(ota: Ota, rx: Supervision, gatewayState: GatewayState, aliveCounter: byte)

  function InitGateway(tick: nat): Gateway {
    Gateway(InitOta(), InitSupervision(tick), Initial, 0)
  }

  function StateOf(r: Supervision): GatewayState {
    if AnyAliveError(r) || AnyChecksumError(r) then Degraded
    else if AllSeen(r) then Normal
    else Initial
  }

  const UNLOCKED_BIT := 3
  const LOCKED_BIT := 4
  const ALIVE_ERROR_BIT := 5
  const CHECKSUM_ERROR_BIT := 6

  function FlagIf(flags: byte, on: bool, k: nat): byte
    requires k < 8
  {
    if on then SetBit(flags, k) else flags
  }

  /** Byte 1 of the status frame: OTA state in bits 0..2, then four flags. */
  function StatusFlags(o: Ota, r: Supervision): byte {
    var f0 := o.state.Code() % 8;
    var f1 := FlagIf(f0, o.security.unlocked, UNLOCKED_BIT);
    var f2 := FlagIf(f1, o.security.locked, LOCKED_BIT);
    var f3 := FlagIf(f2, AnyAliveError(r), ALIVE_ERROR_BIT);
    FlagIf(f3, AnyChecksumError(r), CHECKSUM_ERROR_BIT)
  }

  /** The 0x601 frame for the state `g` (whose lockout, timeouts and gateway state are up to date). */
  function StatusFrame(g: Gateway): Frame {
    Sealed(ID_GATEWAY, [g.gatewayState.Code(), StatusFlags(g.ota, g.rx), g.rx.blocked,
                        g.ota.security.errorCounter, g.ota.version, g.rx.rxMask, g.aliveCounter % 16])
  }

  /** What the status builder brings up to date before it packs the frame. */
  function Refreshed(g: Gateway, lockoutTick: nat, checkTick: nat): Gateway {
    var r := CheckTimeouts(g.rx, checkTick);
    g.(ota := UpdateLockout(g.ota, lockoutTick), rx := r, gatewayState := StateOf(r))
  }

  /** What the status builder does once the frame is packed. */
  function AfterStatus(g: Gateway): Gateway {
    g.(ota := AfterPublish(g.ota), aliveCounter := (g.aliveCounter + 1) % 16)
  }

  // ---------------------------------------------------------------------------------------------
  // Events and runs

  datatype Event =
    | Request(request: Frame, gateClock: nat, failClock: nat)
    | Received(msg: Frame, clock: nat)
    | Checked(clock: nat)
    | Published(lockoutClock: nat, checkClock: nat)
  {
    /** The first clock reading of the event. */
    function First(): nat {
      match this
      case Request(_, gate, _) => gate
      case Received(_, clock) => clock
      case Checked(clock) => clock
      case Published(lockout, _) => lockout
    }

    /** The last clock reading of the event. */
    function Last(): nat {
      match this
      case Request(_, _, fail) => fail
      case Received(_, clock) => clock
      case Checked(clock) => clock
      case Published(_, check) => check
    }
  }

  /** Clock readings never go backwards, within an event or from one event to a later one. */
  predicate Monotone(es: seq<Event>, start: nat) {
    && (forall i :: 0 <= i < |es| ==> start <= es[i].First() <= es[i].Last())
    && (forall i, j :: 0 <= i < j < |es| ==> es[i].Last() <= es[j].First())
  }

  /** A run may go on from any clock that it has not passed. */
  lemma AppendMonotone(es: seq<Event>, more: seq<Event>, start: nat, now: nat)
    requires Monotone(es, start) && Monotone(more, now) && start <= now
    requires forall k :: 0 <= k < |es| ==> es[k].Last() <= now
    ensures Monotone(es + more, start)
  {
    var fs := es + more;
    forall i, j | 0 <= i < j < |fs| ensures fs[i].Last() <= fs[j].First() {
      if i < |es| <= j {
        assert es[i].Last() <= now <= more[j - |es|].First();
      }
    }
  }

  function OtaAfter(o: Ota, e: Event): Ota {
    match e
    case Request(request, gate, fail) => AfterRequest(o, request, Tick(gate), Tick(fail))
    case Published(lockout, _) => AfterPublish(UpdateLockout(o, Tick(lockout)))
    case _ => o
  }

  function RxAfter(r: Supervision, e: Event): Supervision {
    match e
    case Received(msg, clock) => Receive(r, msg, Tick(clock))
    case Checked(clock) => CheckTimeouts(r, Tick(clock))
    case Published(_, check) => CheckTimeouts(r, Tick(check))
    case _ => r
  }

  function GatewayAfter(g: Gateway, e: Event): Gateway {
    match e
    case Published(lockout, check) =>
      AfterStatus(Refreshed(g, Tick(lockout), Tick(check)))
    case _ =>
      g.(ota := OtaAfter(g.ota, e), rx := RxAfter(g.rx, e))
  }

  function OtaAt(es: seq<Event>, n: nat): Ota
    requires n <= |es|
  {
    if n == 0 then InitOta() else OtaAfter(OtaAt(es, n - 1), es[n - 1])
  }

  function RxAt(es: seq<Event>, start: nat, n: nat): Supervision
    requires n <= |es|
  {
    if n == 0 then InitSupervision(Tick(start)) else RxAfter(RxAt(es, start, n - 1), es[n - 1])
  }

  function GatewayAt(es: seq<Event>, start: nat, n: nat): Gateway
    requires n <= |es|
  {
    if n == 0 then InitGateway(Tick(start)) else GatewayAfter(GatewayAt(es, start, n - 1), es[n - 1])
  }

  /** The two halves of the gateway never touch each other's state. */
  lemma {:induction false} HalvesAreIndependent(es: seq<Event>, start: nat, n: nat)
    requires n <= |es|
    ensures GatewayAt(es, start, n).ota == OtaAt(es, n)
    ensures GatewayAt(es, start, n).rx == RxAt(es, start, n)
  {
    if n != 0 {
      HalvesAreIndependent(es, start, n - 1);
    }
  }

  /** A run does not depend on what happens after it. */
  lemma {:induction false} RunPrefix(es: seq<Event>, more: seq<Event>, start: nat, n: nat)
    requires n <= |es|
    ensures GatewayAt(es + more, start, n) == GatewayAt(es, start, n)
  {
    if n != 0 {
      RunPrefix(es, more, start, n - 1);
      assert (es + more)[n - 1] == es[n - 1];
    }
  }

  /** The status frame that event number `n` publishes. */
  function PublishedFrame(es: seq<Event>, start: nat, n: nat): Frame
    requires n < |es| && es[n].Published?
  {
    StatusFrame(Refreshed(GatewayAt(es, start, n), Tick(es[n].lockoutClock), Tick(es[n].checkClock)))
  }

  /** The response frame that answers event number `n`. */
  function ResponseAt(es: seq<Event>, n: nat): Frame
    requires n < |es| && es[n].Request?
  {
    Response(Decide(OtaAt(es, n), es[n].request, Tick(es[n].gateClock), Tick(es[n].failClock)))
  }

  // ---------------------------------------------------------------------------------------------
  // What goes out

  /** What the gateway in state `g` puts on the bus when event `e` comes. */
  function Output(g: Gateway, e: Event): seq<Frame> {
    match e
    case Request(request, gate, fail) => [Response(Decide(g.ota, request, Tick(gate), Tick(fail)))]
    case Published(lockout, check) => [StatusFrame(Refreshed(g, Tick(lockout), Tick(check)))]
    case _ => []
  }

  /** Everything it has put on the bus in its first `n` events. */
  function BusAt(es: seq<Event>, start: nat, n: nat): seq<Frame>
    requires n <= |es|
  {
    if n == 0 then [] else BusAt(es, start, n - 1) + Output(GatewayAt(es, start, n - 1), es[n - 1])
  }

  /** One response for each request, one status frame for each publication, in order, and nothing else. */
  lemma BusStep(es: seq<Event>, start: nat, n: nat)
    requires n < |es|
    ensures BusAt(es, start, n + 1) == BusAt(es, start, n) +
              (if es[n].Request? then [ResponseAt(es, n)]
               else if es[n].Published? then [PublishedFrame(es, start, n)] else [])
  {
    HalvesAreIndependent(es, start, n);
  }

  /** The states of a run and what has been sent so far, event by event. */
  datatype Stage = Stage(gateway: Gateway, bus: seq<Frame>)

  predicate StageStep(stages: seq<Stage>, h: seq<Event>, n: nat)
    requires n < |h| && |stages| == |h| + 1
  {
    stages[n + 1] == Stage(GatewayAfter(stages[n].gateway, h[n]), stages[n].bus + Output(stages[n].gateway, h[n]))
  }

  predicate Stages(stages: seq<Stage>, h: seq<Event>, start: nat, last: Stage) {
    && |stages| == |h| + 1 && stages[0] == Stage(InitGateway(Tick(start)), []) && stages[|h|] == last
    && forall n :: 0 <= n < |h| ==> StageStep(stages, h, n)
  }

  /** A gateway in state `g` that has sent the frames `bus` has followed the events `h`. */
  ghost predicate HasFollowed(h: seq<Event>, start: nat, g: Gateway, bus: seq<Frame>) {
    exists stages :: Stages(stages, h, start, Stage(g, bus))
  }

  lemma FollowsStart(start: nat)
    ensures HasFollowed([], start, InitGateway(Tick(start)), [])
  {
    assert Stages([Stage(InitGateway(Tick(start)), [])], [], start, Stage(InitGateway(Tick(start)), []));
  }

  lemma FollowsOn(h: seq<Event>, e: Event, start: nat, g: Gateway, bus: seq<Frame>)
    requires HasFollowed(h, start, g, bus)
    ensures HasFollowed(h + [e], start, GatewayAfter(g, e), bus + Output(g, e))
  {
    var stages :| Stages(stages, h, start, Stage(g, bus));
    var next := Stage(GatewayAfter(g, e), bus + Output(g, e));
    forall n | 0 <= n < |h + [e]| ensures StageStep(stages + [next], h + [e], n) {
      assert n < |h| ==> StageStep(stages, h, n);
    }
    assert Stages(stages + [next], h + [e], start, next);
  }

  /** Frames received and checks made put nothing on the bus. */
  lemma FollowsQuietly(h: seq<Event>, e: Event, start: nat, g: Gateway, bus: seq<Frame>)
    requires HasFollowed(h, start, g, bus) && (e.Received? || e.Checked?)
    ensures HasFollowed(h + [e], start, GatewayAfter(g, e), bus)
  {
    FollowsOn(h, e, start, g, bus);
    assert bus + Output(g, e) == bus;
  }

  lemma {:induction false} StagesAreTheRun(stages: seq<Stage>, h: seq<Event>, start: nat, last: Stage, n: nat)
    requires Stages(stages, h, start, last) && n <= |h|
    ensures stages[n] == Stage(GatewayAt(h, start, n), BusAt(h, start, n))
  {
    if n != 0 {
      StagesAreTheRun(stages, h, start, last, n - 1);
      StageUnfolds(stages, h, n - 1);
      RunUnfolds(h, start, n - 1);
    }
  }

  /** What follows stage `s` with event `e`. */
  function NextStage(s: Stage, e: Event): Stage {
    Stage(GatewayAfter(s.gateway, e), s.bus + Output(s.gateway, e))
  }

  lemma StageUnfolds(stages: seq<Stage>, h: seq<Event>, n: nat)
    requires n < |h| && |stages| == |h| + 1 && StageStep(stages, h, n)
    ensures stages[n + 1] == NextStage(stages[n], h[n])
  {
  }

  lemma RunUnfolds(h: seq<Event>, start: nat, n: nat)
    requires n < |h|
    ensures Stage(GatewayAt(h, start, n + 1), BusAt(h, start, n + 1)) ==
            NextStage(Stage(GatewayAt(h, start, n), BusAt(h, start, n)), h[n])
  {
  }

  /** Following the events is being in the state, and having sent the frames, that the run says. */
  lemma FollowingIsTheRun(h: seq<Event>, start: nat, g: Gateway, bus: seq<Frame>)
    requires HasFollowed(h, start, g, bus)
    ensures g == GatewayAt(h, start, |h|) && bus == BusAt(h, start, |h|)
  {
    var stages :| Stages(stages, h, start, Stage(g, bus));
    StagesAreTheRun(stages, h, start, Stage(g, bus), |h|);
  }
}
