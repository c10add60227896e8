/** The CAN task object: the endless loop that drives the gateway service, one pass at a time. */
module CanTasks {
  import opened Bytes
  import opened Frames
  import opened OtaSpec
  import opened GatewaySpec
  import opened RxSupervisions
  import opened ComGateways
  import opened CanLoops
  import opened SupervisionHistory

  /** A clock reading: the unbounded clock and the tick the firmware sees of it. */
  datatype Reading = Reading(ghost clock: nat, tick: nat) {
    ghost predicate Ok() {
      tick == Tick(clock)
    }
  }

  /** A frame found in a receive mailbox, and the tick read while it is handled. */
  datatype Mail = NoMail | Mail(frame: Frame, now: Reading)

  /** A request found in the OTA mailbox, and the ticks read while it is handled. */
  datatype OtaMail = NoRequest | OtaMail(frame: Frame, gate: Reading, fail: Reading)

  ghost function MailEvent(m: Mail): seq<Event> {
    if m.NoMail? then [] else [Received(m.frame, m.now.clock)]
  }

  ghost function MailEvents(ms: seq<Mail>): seq<Event> {
    if |ms| == 0 then [] else MailEvents(ms[..|ms| - 1]) + MailEvent(ms[|ms| - 1])
  }

  ghost function OtaEvent(m: OtaMail): seq<Event> {
    if m.NoRequest? then [] else [Request(m.frame, m.gate.clock, m.fail.clock)]
  }

  /** What one pass finds in its mailboxes and reads from the clock. */
  datatype Inputs = Inputs(ecus: seq<Mail>, ota: OtaMail, any: Mail, check: Reading,
                           due: Reading, stamp: Reading, lockout: Reading, status: Reading)
  {
    ghost predicate Ok() {
      && |ecus| == 5
      && (forall k :: 0 <= k < 5 ==> ecus[k].Mail? ==> ecus[k].now.Ok())
      && (ota.OtaMail? ==> ota.gate.Ok() && ota.fail.Ok()) && (any.Mail? ==> any.now.Ok())
      && check.Ok() && due.Ok() && stamp.Ok() && lockout.Ok() && status.Ok()
    }

    ghost function AsPass(): Pass {
      Pass(MailEvents(ecus) + OtaEvent(ota) + MailEvent(any), check.clock, due.clock, stamp.clock, lockout.clock, status.clock)
    }
  }

  /** How many of the first `n` mailboxes hold a frame. */
  ghost function Arrived(ms: seq<Mail>, n: nat): (c: nat)
    requires n <= |ms|
  {
    if n == 0 then 0 else Arrived(ms, n - 1) + if ms[n - 1].Mail? then 1 else 0
  }

  ghost function One(present: bool): nat {
    if present then 1 else 0
  }

  /** `es` is what a pass makes of its mailboxes: each frame found gives exactly one event, with the frame and the
      clock readings taken for it; ECUs first, in mailbox order, then the request, then the catch-all; then the
      timeout check, and the status frame if one is sent; and nothing else. */
  ghost predicate Handles(inputs: Inputs, sent: bool, es: seq<Event>)
    requires |inputs.ecus| == 5
  {
    var c, o, a := Arrived(inputs.ecus, 5), One(inputs.ota.OtaMail?), One(inputs.any.Mail?);
    && |es| == c + o + a + 1 + One(sent)
    && (forall k :: 0 <= k < 5 && inputs.ecus[k].Mail? ==>
          Arrived(inputs.ecus, k) < c
          && es[Arrived(inputs.ecus, k)] == Received(inputs.ecus[k].frame, inputs.ecus[k].now.clock))
    && (inputs.ota.OtaMail? ==> es[c] == Request(inputs.ota.frame, inputs.ota.gate.clock, inputs.ota.fail.clock))
    && (inputs.any.Mail? ==> es[c + o] == Received(inputs.any.frame, inputs.any.now.clock))
    && es[c + o + a] == Checked(inputs.check.clock)
    && (sent ==> es[c + o + a + 1] == Published(inputs.lockout.clock, inputs.status.clock))
  }

  lemma {:induction false} MailIsArrived(ms: seq<Mail>, n: nat)
    requires n <= |ms|
    ensures |MailEvents(ms[..n])| == Arrived(ms, n)
    ensures forall k :: 0 <= k < n && ms[k].Mail? ==>
              Arrived(ms, k) < Arrived(ms, n) && MailEvents(ms[..n])[Arrived(ms, k)] == Received(ms[k].frame, ms[k].now.clock)
  {
    if n != 0 {
      MailIsArrived(ms, n - 1);
      assert ms[..n][..n - 1] == ms[..n - 1];
    }
  }

  lemma PassIsHandled(inputs: Inputs, sent: bool)
    requires |inputs.ecus| == 5
    ensures Handles(inputs, sent, PassEvents(inputs.AsPass(), sent))
  {
    var ecus := MailEvents(inputs.ecus);
    MailIsArrived(inputs.ecus, 5);
    assert inputs.ecus[..5] == inputs.ecus;
    assert PassEvents(inputs.AsPass(), sent) ==
           ecus + OtaEvent(inputs.ota) + MailEvent(inputs.any) + [Checked(inputs.check.clock)]
           + (if sent then [Published(inputs.lockout.clock, inputs.status.clock)] else []);
    assert forall k :: 0 <= k < |ecus| ==> PassEvents(inputs.AsPass(), sent)[k] == ecus[k];
  }

  // ---------------------------------------------------------------------------------------------
  // Blocked frames of a pass

  /** The blocked counter is the number of blocked frames of the history. */
  lemma BlockedFollows(h: seq<Event>, start: nat, g: Gateway, bus: seq<Frame>)
    requires HasFollowed(h, start, g, bus)
    ensures g.rx.blocked as int == Min(255, Blocked(h, |h|))
  {
    FollowingIsTheRun(h, start, g, bus);
    HalvesAreIndependent(h, start, |h|);
    BlockedIsHistory(h, start, |h|);
  }

  ghost function Bad(m: Mail): nat {
    One(m.Mail? && IsBlocked(m.frame))
  }

  /** Frames to be blocked among the first `n` mailboxes. */
  ghost function BadMails(ms: seq<Mail>, n: nat): nat
    requires n <= |ms|
  {
    if n == 0 then 0 else BadMails(ms, n - 1) + Bad(ms[n - 1])
  }

  lemma {:induction false} BlockedPrefix(a: seq<Event>, b: seq<Event>, n: nat)
    requires n <= |a|
    ensures Blocked(a + b, n) == Blocked(a, n)
  {
    if n != 0 {
      BlockedPrefix(a, b, n - 1);
    }
  }

  lemma {:induction false} BlockedConcat(a: seq<Event>, b: seq<Event>)
    ensures Blocked(a + b, |a + b|) == Blocked(a, |a|) + Blocked(b, |b|)
  {
    if |b| == 0 {
      assert a + b == a;
    } else {
      var b1 := b[..|b| - 1];
      BlockedConcat(a, b1);
      BlockedPrefix(a + b1, [b[|b| - 1]], |a + b1|);
      BlockedPrefix(b1, [b[|b| - 1]], |b1|);
      assert a + b == a + b1 + [b[|b| - 1]] && b == b1 + [b[|b| - 1]];
    }
  }

  lemma {:induction false} BlockedMails(ms: seq<Mail>, n: nat)
    requires n <= |ms|
    ensures Blocked(MailEvents(ms[..n]), |MailEvents(ms[..n])|) == BadMails(ms, n)
  {
    if n != 0 {
      BlockedMails(ms, n - 1);
      assert ms[..n][..n - 1] == ms[..n - 1];
      BlockedConcat(MailEvents(ms[..n - 1]), MailEvent(ms[n - 1]));
      BlockedMail(ms[n - 1]);
    }
  }

  lemma BlockedMail(m: Mail)
    ensures Blocked(MailEvent(m), |MailEvent(m)|) == Bad(m)
  {
    if m.Mail? {
      assert Blocked(MailEvent(m), 0) == 0;
    }
  }

  lemma BlockedNothing(es: seq<Event>)
    requires |es| <= 1 && forall k :: 0 <= k < |es| ==> !es[k].Received?
    ensures Blocked(es, |es|) == 0
  {
    if |es| == 1 {
      assert Blocked(es, 0) == 0;
    }
  }

  /** A pass adds the unknown and invalid frames it found, in the five mailboxes and the catch-all. */
  lemma PassBlocks(h: seq<Event>, inputs: Inputs, sent: bool)
    requires |inputs.ecus| == 5
    ensures var es := PassEvents(inputs.AsPass(), sent);
            Blocked(h + es, |h + es|) == Blocked(h, |h|) + BadMails(inputs.ecus, 5) + Bad(inputs.any)
  {
    var a, o, m := MailEvents(inputs.ecus), OtaEvent(inputs.ota), MailEvent(inputs.any);
    var c, p := [Checked(inputs.check.clock)], if sent then [Published(inputs.lockout.clock, inputs.status.clock)] else [];
    BlockedMails(inputs.ecus, 5);
    assert inputs.ecus[..5] == inputs.ecus;
    BlockedMail(inputs.any);
    BlockedNothing(o);
    BlockedNothing(c);
    BlockedNothing(p);
    BlockedConcat(a, o);
    BlockedConcat(a + o, m);
    BlockedConcat(a + o + m, c);
    BlockedConcat(a + o + m + c, p);
    BlockedConcat(h, PassEvents(inputs.AsPass(), sent));
  }

  /** A pass, on what the gateway holds before and after. */
  lemma PassIsDone(h: seq<Event>, start: nat, g: Gateway, b: seq<Frame>, inputs: Inputs, sent: bool, g1: Gateway, b1: seq<Frame>)
    requires |inputs.ecus| == 5 && HasFollowed(h, start, g, b)
    requires HasFollowed(h + PassEvents(inputs.AsPass(), sent), start, g1, b1)
    ensures Handles(inputs, sent, (h + PassEvents(inputs.AsPass(), sent))[|h|..])
    ensures g1.rx.blocked as int == Min(255, g.rx.blocked + BadMails(inputs.ecus, 5) + Bad(inputs.any))
  {
    var es := PassEvents(inputs.AsPass(), sent);
    assert (h + es)[|h|..] == es;
    PassIsHandled(inputs, sent);
    BlockedFollows(h, start, g, b);
    BlockedFollows(h + es, start, g1, b1);
    PassBlocks(h, inputs, sent);
  }

  lemma MailGrows(h: seq<Event>, ms: seq<Mail>, i: nat)
    requires i < |ms|
    ensures h + MailEvents(ms[..i]) + MailEvent(ms[i]) == h + MailEvents(ms[..i + 1])
  {
    assert ms[..i + 1][..i] == ms[..i];
  }

  lemma Joined(h: seq<Event>, a: seq<Event>, b: seq<Event>, c: seq<Event>)
    ensures h + a + b + c == h + (a + b + c)
  {
  }

  lemma FrameOfLast(es: seq<Event>, e: Event, start: nat, g: Gateway, bus: seq<Frame>)
    requires e.Published? && HasFollowed(es, start, g, bus)
    ensures Output(g, e) == [PublishedFrame(es + [e], start, |es|)]
  {
    FollowingIsTheRun(es, start, g, bus);
    RunPrefix(es, [e], start, |es|);
  }

  /** The gateway object as the CAN task finds it after `COM_GatewayInit`. */
  method StartedGateway(init: Reading) returns (gateway: ComGateway)
    requires init.Ok()
    ensures gateway.Valid() && HasFollowed([], init.clock, gateway.View(), []) && fresh(gateway.ota.upload.otaDataBuffer)
  {
    gateway := new ComGateway();
    gateway.Init(init.tick);
    FollowsStart(init.clock);
  }

  class CanTask {
    const gateway: ComGateway
    const txMsg: CanMessage
    const otaTxMessage: CanMessage
    var lastGatewayTxTick: nat
    var bus: seq<Frame>               // frames handed to the driver
    ghost var start: nat              // clock at COM_GatewayInit
    ghost var lastTx: nat             // clock behind lastGatewayTxTick
    ghost var history: seq<Event>     // everything the gateway has handled since

    /** Message objects of the driver never share storage with the upload buffer. */
    ghost predicate Separate(msg: CanMessage) {
      msg.Valid() && msg.data != gateway.ota.upload.otaDataBuffer
    }

    /** The gateway's variables are exactly what its history says. */
    ghost predicate Valid()
      reads this, gateway, gateway.ota, gateway.ota.security, gateway.ota.upload, gateway.ota.upload.otaDataBuffer,
            gateway.rx, gateway.rx.rxMonitors
    {
      && gateway.Valid() && Separate(txMsg) && Separate(otaTxMessage)
      && HasFollowed(history, start, gateway.View(), bus)
      && lastGatewayTxTick == Tick(lastTx)
    }

    /** Every object the CAN task may change. */
    ghost function Repr(): set<object> {
      {this, gateway, gateway.rx, txMsg, txMsg.data, otaTxMessage, otaTxMessage.data} + gateway.ota.Repr()
      + Monitors()
    }

    ghost function Monitors(): set<object> {
      set m: ComRxMonitor | m in gateway.rx.rxMonitors
    }

    /** Initialises the gateway and takes the first transmit time. */
    constructor (init: Reading, tx: Reading)
      requires init.Ok() && tx.Ok()
      ensures Valid() && history == [] && start == init.clock && lastTx == tx.clock
    {
      txMsg := new CanMessage();
      otaTxMessage := new CanMessage();
      var service := StartedGateway(init);
      gateway := service;
      lastGatewayTxTick := tx.tick;
      start, lastTx, history, bus := init.clock, tx.clock, [], [];
    }

    /** Appends an event to the history once the gateway has followed it. */
    ghost method Record(e: Event)
      requires gateway.Valid() && Separate(txMsg) && Separate(otaTxMessage) && lastGatewayTxTick == Tick(lastTx)
      requires HasFollowed(history + [e], start, gateway.View(), bus)
      modifies this`history
      ensures Valid() && history == old(history) + [e]
    {
      history := history + [e];
    }

    /** Hands a frame to the driver. */
    method Send(msg: CanMessage)
      requires msg.Valid()
      modifies this`bus
      ensures bus == old(bus) + [msg.View()]
    {
      bus := bus + [Frame(msg.cs, msg.id, msg.length, msg.data[..])];
    }

    method Receive(msg: CanMessage, now: Reading)
      requires Valid() && msg.Valid() && now.Ok()
      modifies this`history, gateway.rx, gateway.rx.rxMonitors
      ensures Valid() && history == old(history) + [Received(old(msg.View()), now.clock)]
    {
      ghost var e := Received(msg.View(), now.clock);
      FollowsQuietly(history, e, start, gateway.View(), bus);
      gateway.HandleRxMessage(msg, now.tick);
      Record(e);
    }

    /** The gateway's part of an answer. */
    method Respond(request: CanMessage, gate: Reading, fail: Reading)
      requires Valid() && Separate(request) && request != otaTxMessage && gate.Ok() && fail.Ok()
      modifies gateway.ota.Repr(), otaTxMessage, otaTxMessage.data
      ensures gateway.Valid() && Separate(txMsg) && Separate(otaTxMessage)
      ensures var e := Request(old(request.View()), gate.clock, fail.clock);
              && gateway.View() == GatewayAfter(old(gateway.View()), e)
              && [otaTxMessage.View()] == Output(old(gateway.View()), e)
    {
      var answered := gateway.HandleRequestMessage(request, otaTxMessage, gate.tick, fail.tick);
    }

    /** The response is built and handed to the driver. */
    method Reply(request: CanMessage, gate: Reading, fail: Reading)
      requires Valid() && Separate(request) && request != otaTxMessage && gate.Ok() && fail.Ok()
      modifies this`bus, gateway.ota.Repr(), otaTxMessage, otaTxMessage.data
      ensures gateway.Valid() && Separate(txMsg) && Separate(otaTxMessage)
      ensures var e := Request(old(request.View()), gate.clock, fail.clock);
              && gateway.View() == GatewayAfter(old(gateway.View()), e)
              && [otaTxMessage.View()] == Output(old(gateway.View()), e)
              && bus == old(bus) + Output(old(gateway.View()), e)
    {
      Respond(request, gate, fail);
      Send(otaTxMessage);
    }

    /** The gateway, and what it has sent, follow the request. */
    method ReplyAndFollow(request: CanMessage, gate: Reading, fail: Reading)
      requires Valid() && Separate(request) && request != otaTxMessage && gate.Ok() && fail.Ok()
      modifies this`bus, gateway.ota.Repr(), otaTxMessage, otaTxMessage.data
      ensures gateway.Valid() && Separate(txMsg) && Separate(otaTxMessage)
      ensures HasFollowed(old(history) + [Request(old(request.View()), gate.clock, fail.clock)], start, gateway.View(), bus)
      ensures bus == old(bus) + [otaTxMessage.View()]
    {
      ghost var e := Request(request.View(), gate.clock, fail.clock);
      FollowsOn(history, e, start, gateway.View(), bus);
      Reply(request, gate, fail);
    }

    /** Answers a request, sends the response and records the event. */
    method Answer(request: CanMessage, gate: Reading, fail: Reading)
      requires Valid() && Separate(request) && request != otaTxMessage && gate.Ok() && fail.Ok()
      modifies this`history, this`bus, gateway.ota.Repr(), otaTxMessage, otaTxMessage.data
      ensures Valid() && history == old(history) + [Request(old(request.View()), gate.clock, fail.clock)]
      ensures bus == old(bus) + [otaTxMessage.View()]
    {
      ghost var e := Request(request.View(), gate.clock, fail.clock);
      ReplyAndFollow(request, gate, fail);
      Record(e);
    }

    method Check(now: Reading)
      requires Valid() && now.Ok()
      modifies this`history, gateway.rx.rxMonitors
      ensures Valid() && history == old(history) + [Checked(now.clock)]
    {
      FollowsQuietly(history, Checked(now.clock), start, gateway.View(), bus);
      gateway.CheckTimeouts(now.tick);
      Record(Checked(now.clock));
    }

    method Publish(lockout: Reading, check: Reading)
      requires Valid() && lockout.Ok() && check.Ok()
      modifies this`history, this`bus, gateway, gateway.ota, gateway.ota.security, gateway.rx.rxMonitors, txMsg, txMsg.data
      ensures Valid() && history == old(history) + [Published(lockout.clock, check.clock)]
      ensures txMsg.View() == PublishedFrame(history, start, |history| - 1)
    {
      ghost var e := Published(lockout.clock, check.clock);
      FollowsOn(history, e, start, gateway.View(), bus);
      FrameOfLast(history, e, start, gateway.View(), bus);
      gateway.BuildStatusMessage(txMsg, lockout.tick, check.tick);
      Send(txMsg);
      Record(e);
    }

    /** Handling mail and timeouts changes neither the start of the run nor the transmit time. */
    ghost predicate Kept(start0: nat, lastTx0: nat)
      reads this
    {
      start == start0 && lastTx == lastTx0
    }

    /** One mailbox: a frame that has arrived is copied out and handled. */
    method ReceiveMail(m: Mail)
      requires Valid() && (m.Mail? ==> m.now.Ok())
      modifies Repr()
      ensures Valid() && Kept(old(start), old(lastTx)) && history == old(history) + MailEvent(m)
    {
      if m.Mail? {
        var rxMsg := new CanMessage.Copy(m.frame);
        Receive(rxMsg, m.now);
      }
    }

    /** The five exact-match mailboxes, in order. */
    method ProcessGatewayRxMessages(ecus: seq<Mail>)
      requires Valid() && forall k :: 0 <= k < |ecus| ==> ecus[k].Mail? ==> ecus[k].now.Ok()
      modifies Repr()
      ensures Valid() && Kept(old(start), old(lastTx)) && history == old(history) + MailEvents(ecus)
    {
      var i := 0;
      while i < |ecus|
        invariant 0 <= i <= |ecus| && Valid() && Kept(old(start), old(lastTx))
        invariant history == old(history) + MailEvents(ecus[..i])
      {
        ReceiveMail(ecus[i]);
        MailGrows(old(history), ecus, i);
        i := i + 1;
      }
      assert ecus[..i] == ecus;
    }

    method ProcessOtaRxMessage(m: OtaMail)
      requires Valid() && (m.OtaMail? ==> m.gate.Ok() && m.fail.Ok())
      modifies Repr()
      ensures Valid() && Kept(old(start), old(lastTx)) && history == old(history) + OtaEvent(m)
    {
      if m.OtaMail? {
        var otaRxMessage := new CanMessage.Copy(m.frame);
        Answer(otaRxMessage, m.gate, m.fail);
      }
    }

    method CheckNow(now: Reading)
      requires Valid() && now.Ok()
      modifies Repr()
      ensures Valid() && Kept(old(start), old(lastTx)) && history == old(history) + [Checked(now.clock)]
    {
      Check(now);
    }

    /** A status frame when 100 ticks have passed since the last one. */
    method TransmitIfDue(due: Reading, stamp: Reading, lockout: Reading, status: Reading) returns (sent: bool)
      requires Valid() && due.Ok() && stamp.Ok() && lockout.Ok() && status.Ok()
      modifies Repr()
      ensures Valid() && start == old(start) && sent == (Elapsed(Tick(due.clock), Tick(old(lastTx))) >= TX_PERIOD)
      ensures lastTx == if sent then stamp.clock else old(lastTx)
      ensures history == old(history) + if sent then [Published(lockout.clock, status.clock)] else []
    {
      sent := Elapsed(due.tick, lastGatewayTxTick) >= TX_PERIOD;
      if sent {
        lastGatewayTxTick := stamp.tick;
        lastTx := stamp.clock;
        Publish(lockout, status);
      }
    }

    /** All mailboxes: the five ECUs, then the OTA request, then the catch-all. */
    method ProcessMail(ecus: seq<Mail>, ota: OtaMail, any: Mail)
      requires Valid() && forall k :: 0 <= k < |ecus| ==> ecus[k].Mail? ==> ecus[k].now.Ok()
      requires (ota.OtaMail? ==> ota.gate.Ok() && ota.fail.Ok()) && (any.Mail? ==> any.now.Ok())
      modifies Repr()
      ensures Valid() && Kept(old(start), old(lastTx)) && history == old(history) + (MailEvents(ecus) + OtaEvent(ota) + MailEvent(any))
    {
      ghost var before := history;
      ProcessGatewayRxMessages(ecus);
      ProcessOtaRxMessage(ota);
      ReceiveMail(any);
      Joined(before, MailEvents(ecus), OtaEvent(ota), MailEvent(any));
    }

    /** The gateway is in the state, and the driver has been handed the frames, that the history says: for each
        request its response, for each publication its status frame. */
    lemma HistoryIsTheRun()
      requires Valid()
      ensures gateway.View() == GatewayAt(history, start, |history|) && bus == BusAt(history, start, |history|)
      ensures |history| != 0 && history[|history| - 1].Request? ==>
                |bus| != 0 && bus[|bus| - 1] == ResponseAt(history, |history| - 1)
    {
      FollowingIsTheRun(history, start, gateway.View(), bus);
      if |history| != 0 {
        BusStep(history, start, |history| - 1);
      }
    }

    /** One pass of the endless loop: receive, answer, receive from the catch-all mailbox, check timeouts,
        publish when due. The gateway handles exactly the events of the pass, in that order. */
    method OnePass(inputs: Inputs) returns (sent: bool)
      requires Valid() && inputs.Ok()
      modifies Repr()
      ensures Valid() && start == old(start) && sent == IsDue(inputs.AsPass(), old(lastTx))
      ensures sent == (Elapsed(Tick(inputs.due.clock), Tick(old(lastTx))) >= 100)
      ensures lastTx == if sent then inputs.stamp.clock else old(lastTx)
      ensures history == old(history) + PassEvents(inputs.AsPass(), sent)
      ensures Handles(inputs, sent, history[|old(history)|..])
      ensures gateway.View().rx.blocked as int ==
              Min(255, old(gateway.View()).rx.blocked + BadMails(inputs.ecus, 5) + Bad(inputs.any))
    {
      ghost var h, g, b := history, gateway.View(), bus;
      sent := DoPass(inputs);
      PassIsDone(h, start, g, b, inputs, sent, gateway.View(), bus);
    }

    method DoPass(inputs: Inputs) returns (sent: bool)
      requires Valid() && inputs.Ok()
      modifies Repr()
      ensures Valid() && start == old(start) && sent == IsDue(inputs.AsPass(), old(lastTx))
      ensures lastTx == if sent then inputs.stamp.clock else old(lastTx)
      ensures history == old(history) + PassEvents(inputs.AsPass(), sent)
    {
      ghost var before, pass := history, inputs.AsPass();
      ProcessMail(inputs.ecus, inputs.ota, inputs.any);
      CheckNow(inputs.check);
      sent := TransmitIfDue(inputs.due, inputs.stamp, inputs.lockout, inputs.status);
      Joined(before, pass.mail, [Checked(pass.checkClock)], if sent then [Published(pass.lockoutClock, pass.statusClock)] else []);
    }

    /** The CAN task has made `n` of the passes, the first with transmit time `tx`. */
    ghost predicate Made(ps: seq<Pass>, tx: nat, n: nat)
      reads this
    {
      n <= |ps| && history == LoopEvents(ps, tx, n) && lastTx == LastTx(ps, tx, n)
    }

    method MakePass(inputs: Inputs, ghost ps: seq<Pass>, ghost tx: nat, ghost n: nat) returns (sent: bool)
      requires Valid() && inputs.Ok() && Made(ps, tx, n) && n < |ps| && ps[n] == inputs.AsPass()
      modifies Repr()
      ensures Valid() && start == old(start) && Made(ps, tx, n + 1)
      ensures old(history) <= history && Handles(inputs, sent, history[|old(history)|..])
    {
      NextPass(ps, tx, n);
      sent := OnePass(inputs);
    }

    /** The first passes of the endless loop, from a freshly initialised task. */
    method Run(inputs: seq<Inputs>) returns (ghost cuts: seq<nat>, ghost sent: seq<bool>)
      requires Valid() && history == [] && forall k :: 0 <= k < |inputs| ==> inputs[k].Ok()
      modifies Repr()
      ensures Valid() && start == old(start) && Made(Passes(inputs), old(lastTx), |inputs|)
      ensures |sent| == |inputs| && Cut(inputs, history, cuts, sent)
    {
      ghost var tx, ps := lastTx, Passes(inputs);
      cuts, sent := [0], [];
      var i := 0;
      while i < |inputs|
        invariant 0 <= i <= |inputs| && Valid() && start == old(start) && Made(ps, tx, i)
        invariant |sent| == i && Cut(inputs, history, cuts, sent)
      {
        ghost var before := history;
        var due := MakePass(inputs[i], ps, tx, i);
        CutGrows(inputs, before, history, cuts, sent, due);
        cuts, sent := cuts + [|history|], sent + [due];
        i := i + 1;
      }
    }
  }

  ghost predicate CutAt(inputs: seq<Inputs>, es: seq<Event>, cuts: seq<nat>, sent: seq<bool>, k: nat)
    requires k < |sent| <= |inputs| && |cuts| == |sent| + 1
  {
    && cuts[k] <= cuts[k + 1] <= |es| && |inputs[k].ecus| == 5
    && Handles(inputs[k], sent[k], es[cuts[k]..cuts[k + 1]])
  }

  /** The history is cut into the passes: pass `k` handled its mailboxes in the events from `cuts[k]` to `cuts[k + 1]`. */
  ghost predicate Cut(inputs: seq<Inputs>, es: seq<Event>, cuts: seq<nat>, sent: seq<bool>) {
    && |cuts| == |sent| + 1 && |sent| <= |inputs| && cuts[0] == 0 && cuts[|sent|] == |es|
    && forall k :: 0 <= k < |sent| ==> CutAt(inputs, es, cuts, sent, k)
  }

  /** One more pass leaves the events of the earlier ones where they are. */
  lemma CutGrows(inputs: seq<Inputs>, es: seq<Event>, fs: seq<Event>, cuts: seq<nat>, sent: seq<bool>, due: bool)
    requires Cut(inputs, es, cuts, sent) && |sent| < |inputs| && es <= fs && |inputs[|sent|].ecus| == 5
    requires Handles(inputs[|sent|], due, fs[|es|..])
    ensures Cut(inputs, fs, cuts + [|fs|], sent + [due])
  {
    var cuts', sent' := cuts + [|fs|], sent + [due];
    forall k | 0 <= k < |sent'| ensures CutAt(inputs, fs, cuts', sent', k) {
      if k < |sent| {
        assert CutAt(inputs, es, cuts, sent, k);
        assert fs[cuts[k]..cuts[k + 1]] == es[cuts[k]..cuts[k + 1]];
      } else {
        assert fs[|es|..|fs|] == fs[|es|..];
      }
    }
  }

  lemma NextPass(ps: seq<Pass>, tx: nat, i: nat)
    requires i < |ps|
    ensures LoopEvents(ps, tx, i + 1) == LoopEvents(ps, tx, i) + PassEvents(ps[i], IsDue(ps[i], LastTx(ps, tx, i)))
    ensures LastTx(ps, tx, i + 1) == if IsDue(ps[i], LastTx(ps, tx, i)) then ps[i].stampClock else LastTx(ps, tx, i)
  {
  }

  ghost function Passes(inputs: seq<Inputs>): (ps: seq<Pass>)
    ensures |ps| == |inputs| && forall k :: 0 <= k < |ps| ==> ps[k] == inputs[k].AsPass()
  {
    seq(|inputs|, k requires 0 <= k < |inputs| => inputs[k].AsPass())
  }
}
