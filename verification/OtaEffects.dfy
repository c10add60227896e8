/** What each answer of the OTA machine tells about the state before and after it. */
module OtaEffects {
  import opened Bytes
  import opened Frames
  import opened OtaSpec
  import opened OtaInvariants

  /** NACK details of requests that leave the OTA state alone while a session is unlocked. */
  predicate NeutralDetail(detail: byte) {
    detail == INVALID_ID || detail == INVALID_DLC || detail == UNKNOWN_COMMAND || detail == SEED_REQUIRED
  }

  /** NACK details that report a refusal without touching the session or its upload. */
  predicate RefusalDetail(detail: byte) {
    NeutralDetail(detail) || detail == SECURITY_LOCKED || detail == SECURITY_LOCKOUT
  }

  predicate SameUpload(o: Ota, o1: Ota) {
    o1.state == o.state && o1.upload == o.upload && o1.version == o.version
  }

  /** `d` answers `request` in state `o`; the state afterwards is `d.ota` up to the response counter. */
  predicate Effect(o: Ota, request: Frame, d: Decision) {
    var o1 := d.ota;
    && (d.code == ACK || d.code == NACK)
    && o1.responseCounter == o.responseCounter
    && (d.code == ACK ==> d.command == request.data[0] && KnownCommand(d.command))
    && (d.code == ACK && d.command == CMD_REQUEST_SEED ==>
          && o1.state.Idle? && o1.upload == EmptyUpload() && o1.version == o.version
          && o1.security.seedIssued && o1.security.seed == d.detail)
    && (d.code == ACK && d.command == CMD_SEND_KEY ==>
          && SameUpload(o, o1) && (o.state.Idle? || o.state.Failed?)
          && o.security.seedIssued && request.data[2] == Key(o.security.seed)
          && o1.security.unlocked && !o1.security.seedIssued && o1.security.seed == o.security.seed)
    && (d.code == ACK && d.command == CMD_START ==>
          && o1.state.Start? && o1.upload == EmptyUpload() && o1.version == o.version
          && o.security.unlocked && o1.security == o.security)
    && (d.code == ACK && d.command == CMD_DATA ==>
          && o.state.Open() && o1.state.Receiving? && o1.security == o.security && o1.version == o.version
          && o1.upload.Stored() == o.upload.Stored() + Payload(request))
    && (d.code == ACK && d.command == CMD_END ==>
          && o.state.Open() && o1.state.Verifying? && o1.security == o.security && o1.version == o.version
          && o1.upload.Stored() == o.upload.Stored() && request.data[2] == XorAll(o.upload.Stored()))
    && (d.code == ACK && d.command == CMD_ACTIVATE ==>
          && o.state.ReadyToActivate? && o1.state.Success? && o1.security == o.security
          && o1.version == AdvanceVersion(o.version) && o1.upload == o.upload)
    && (d.code == ACK && d.command == CMD_ABORT ==>
          && o1.state.Failed? && o1.upload == EmptyUpload() && o1.version == o.version
          && o1.security.unlocked == o.security.unlocked && o1.security.seedIssued == o.security.seedIssued
          && o1.security.seed == o.security.seed)
    && (d.code == NACK && RefusalDetail(d.detail) ==>
          && SameUpload(o, o1) && o1.security.seed == o.security.seed
          && o1.security.unlocked == o.security.unlocked && o1.security.seedIssued == o.security.seedIssued
          && (o.security.unlocked ==> NeutralDetail(d.detail) && o1.security == o.security))
    && (d.code == NACK && d.detail == INVALID_ID ==> request.id != ID_OTA_REQUEST)
    && (d.code == NACK && d.detail == INVALID_DLC ==> request.length != REQUEST_DLC)
    && (d.code == NACK && d.detail == UNKNOWN_COMMAND ==> !KnownCommand(request.data[0]))
    && (d.code == NACK && d.detail == SEED_REQUIRED ==> request.data[0] == CMD_SEND_KEY)
    && (d.code == NACK && d.detail == CHECKSUM_MISMATCH ==>
          o.state.Open() && request.data[0] == CMD_END && request.data[2] != XorAll(o.upload.Stored()))
    && (d.code == NACK && d.detail == INVALID_AUTH ==>
          && o.state.Open() && request.data[0] == CMD_DATA
          && request.data[3] != DataAuth(o.security.seed, request.data[1], request.data[2]))
    && (d.code == NACK && d.detail == INVALID_KEY ==>
          && o.security.seedIssued && request.data[0] == CMD_SEND_KEY && request.data[2] != Key(o.security.seed)
          && o1.upload == o.upload && o1.version == o.version && o1.security.seed == o.security.seed
          && o1.security.locked && !o1.security.seedIssued
          && (o.state.Idle? || o.state.Failed?) && o1.state == if o1.security.lockoutActive then Failed else o.state)
    && (d.code == NACK && d.detail != INVALID_KEY && !RefusalDetail(d.detail) ==>
          && o1.state.Failed? && o1.upload.Stored() == o.upload.Stored() && o1.version == o.version
          && o1.security.seed == o.security.seed && o1.security.seedIssued == o.security.seedIssued
          && o1.security.unlocked == (o.security.unlocked && !(d.detail == INVALID_AUTH && o1.security.lockoutActive)))
  }

  lemma CommandEffect(o: Ota, request: Frame, tick: nat)
    requires OtaInv(o) && !o.security.lockoutActive
    requires KnownCommand(request.data[0]) && request.data[0] != CMD_REQUEST_SEED && request.data[0] != CMD_SEND_KEY
    ensures Effect(o, request, DecideKnown(o, request, tick))
  {
    if request.data[0] == CMD_DATA && o.state.Open() && request.data[2] <= PAYLOAD_MAX {
      var u := Authenticate(o.upload, o.security.seed, request);
      assert u.Stored() == o.upload.Stored();
      if u.length + request.data[2] <= BUFFER_SIZE {
        AppendKeepsTail(u, Payload(request));
      }
    }
  }

  lemma KnownEffect(o: Ota, request: Frame, fail: nat)
    requires OtaInv(o) && KnownCommand(request.data[0])
    ensures Effect(o, request, DecideKnown(o, request, fail))
  {
    if !o.security.lockoutActive && request.data[0] != CMD_REQUEST_SEED && request.data[0] != CMD_SEND_KEY {
      CommandEffect(o, request, fail);
    }
  }

  lemma RequestEffect(o: Ota, request: Frame, gate: nat, fail: nat)
    requires OtaInv(o)
    ensures Effect(o, request, Decide(o, request, gate, fail))
  {
    if WellFormed(request) && KnownCommand(request.data[0]) {
      var o1 := o.(lastCommand := request.data[0]);
      LockoutKeepsInv(o1, gate);
      KnownEffect(UpdateLockout(o1, gate), request, fail);
    }
  }
}
