/** Runs of the OTA machine as data: the states passed through, the events, and the answers given.

    `LawfulStep` keeps of each transition only what its answer tells, so that statements about whole
    runs never look into the handlers again.
 */
module OtaTraces {
  import opened Bytes
  import opened Frames
  import opened OtaSpec
  import opened GatewaySpec
  import opened OtaInvariants
  import opened OtaEffects

  /** What the bus sees of an event: nothing, or the code, command and detail of a response frame. */
  datatype Answer = NoAnswer | Answer(code: byte, command: byte, detail: byte) {
    /** A wrong key or a wrong authentication byte. */
    predicate Failure() {
      Answer? && code == NACK && (detail == INVALID_KEY || detail == INVALID_AUTH)
    }

    /** A matching key. */
    predicate Unlock() {
      Answer? && code == ACK && command == CMD_SEND_KEY
    }
  }

  datatype TraceFields = Trace(states: seq<Ota>, events: seq<Event>, answers: seq<Answer>)

  /** State number `n` is the one after the first `n` events. */
  type Trace = t: TraceFields | |t.states| == |t.events| + 1 && |t.answers| == |t.events|
    witness Trace([InitOta()], [], [])

  function DecisionAt(es: seq<Event>, n: nat): Decision
    requires n < |es| && es[n].Request?
  {
    Decide(OtaAt(es, n), es[n].request, Tick(es[n].gateClock), Tick(es[n].failClock))
  }

  function AnswerAt(es: seq<Event>, n: nat): Answer
    requires n < |es|
  {
    if es[n].Request? then
      var d := DecisionAt(es, n);
      Answer(d.code, d.command, d.detail)
    else
      NoAnswer
  }

  /** The trace of the run `es`, from initialisation. */
  function TraceOf(es: seq<Event>): Trace {
    Trace(seq(|es| + 1, i requires 0 <= i <= |es| => OtaAt(es, i)), es,
          seq(|es|, i requires 0 <= i < |es| => AnswerAt(es, i)))
  }

  /** The answers of a trace are what the response frames on the bus say. */
  lemma AnswersAreOnTheBus(es: seq<Event>, n: nat)
    requires n < |es| && es[n].Request?
    ensures var f := ResponseAt(es, n);
            ChecksumOk(f) && TraceOf(es).answers[n] == Answer(f.data[0], f.data[1], f.data[3])
  {
  }

  /** Event `n` is a request with this command byte, answered with ACK. */
  predicate Acked(t: Trace, n: nat, command: byte)
    requires n < |t.events|
  {
    t.events[n].Request? && t.answers[n].Answer? && t.answers[n].code == ACK && t.answers[n].command == command
  }

  /** Event `n` is a request answered with NACK and this detail. */
  predicate Nacked(t: Trace, n: nat, detail: byte)
    requires n < |t.events|
  {
    t.events[n].Request? && t.answers[n].Answer? && t.answers[n].code == NACK && t.answers[n].detail == detail
  }

  /** A malformed or unknown request, or a SEND_KEY answered SEED_REQUIRED. */
  predicate Neutral(t: Trace, n: nat)
    requires n < |t.events|
  {
    t.events[n].Request? && t.answers[n].Answer? && t.answers[n].code == NACK && NeutralDetail(t.answers[n].detail)
  }

  /** Event `n` publishes a status frame, and the OTA state that frame shows is VERIFYING. */
  predicate PublishesVerifying(t: Trace, n: nat)
    requires n < |t.events|
  {
    t.events[n].Published? && t.states[n].state.Verifying?
  }

  predicate LawfulRequest(o: Ota, request: Frame, a: Answer, o1: Ota) {
    && a.Answer?
    && Effect(o, request, Decision(o1.(responseCounter := o.responseCounter), a.command, 0, a.code, a.detail))
  }

  /** An event that is not a request can only let a lockout expire or publish VERIFYING. */
  predicate LawfulSilence(o: Ota, publishes: bool, o1: Ota) {
    && o1.upload == o.upload && o1.version == o.version
    && o1.security.seed == o.security.seed
    && o1.security.unlocked == o.security.unlocked
    && o1.security.seedIssued == o.security.seedIssued
    && o1.state == if publishes then ReadyToActivate else o.state
  }

  predicate LawfulStep(t: Trace, n: nat)
    requires n < |t.events|
  {
    && OtaInv(t.states[n])
    && OtaInv(t.states[n + 1])
    && if t.events[n].Request? then
         LawfulRequest(t.states[n], t.events[n].request, t.answers[n], t.states[n + 1])
       else
         LawfulSilence(t.states[n], PublishesVerifying(t, n), t.states[n + 1])
  }

  predicate Lawful(t: Trace) {
    && t.states[0] == InitOta()
    && forall n :: 0 <= n < |t.events| ==> LawfulStep(t, n)
  }

  lemma RequestIsLawful(o: Ota, request: Frame, gate: nat, fail: nat)
    requires OtaInv(o)
    ensures var d := Decide(o, request, gate, fail);
            LawfulRequest(o, request, Answer(d.code, d.command, d.detail), Answered(d))
  {
    RequestEffect(o, request, gate, fail);
    var d := Decide(o, request, gate, fail);
    assert Answered(d).(responseCounter := o.responseCounter) == d.ota;
  }

  lemma StepIsLawful(es: seq<Event>, n: nat)
    requires n < |es|
    ensures LawfulStep(TraceOf(es), n)
  {
    InvariantHolds(es, n);
    InvariantHolds(es, n + 1);
    if es[n].Request? {
      RequestIsLawful(OtaAt(es, n), es[n].request, Tick(es[n].gateClock), Tick(es[n].failClock));
    }
  }

  lemma RunsAreLawful(es: seq<Event>)
    ensures Lawful(TraceOf(es))
  {
    forall n | 0 <= n < |es| ensures LawfulStep(TraceOf(es), n) {
      StepIsLawful(es, n);
    }
  }
}
