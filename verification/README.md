# ECU6 gateway: verified model

A Dafny model of the ECU6 gateway service of the automotive cluster (`Sources/services/com_gateway.c`) and of
its peers: the CAN task that calls it, the cyclic ECU senders, the CANoe panel that drives an OTA upload, the
two hand-written host models of the unit tests, and the counter scheduler. `dafny verify dfyconfig.toml`
checks everything.

The gateway is one state machine over static variables with four kinds of event: an OTA or security request,
a received CAN frame, a timeout check, and a status build. A run is any sequence of such events with clock
readings that never go backwards. The main theorems are about all runs.

## How the model is built

Each part of the source exists twice. The handlers are methods that update objects in place, as the C code
updates its static variables, and each is proved equal to a function on values; the properties are then proved
of the functions.

| Module (file) | Part of the system |
|---|---|
| `Bytes`, `Frames` | bytes, bitwise XOR, wrapping ticks; CAN frames and what their checksum detects |
| `OtaSpec`, `OtaServices` (`OtaService.dfy`) | seed/key access, lockout, upload buffer, OTA commands, responses |
| `RxSpec`, `RxSupervisions` (`RxSupervision.dfy`) | the five receive monitors |
| `GatewaySpec`, `ComGateways` (`ComGateway.dfy`) | the whole gateway, status frames, events and runs |
| `OtaInvariants`, `OtaEffects`, `OtaTraces`, `OtaHistory` | the machine invariant; what each answer tells; runs as data; what the OTA state says about the past |
| `OtaAnswers` (`Answers.dfy`) | when each answer is given, and what it leaves, with the numbers of the protocol |
| `Lockouts` | failure streak and lockout against an unbounded clock |
| `SupervisionHistory` | every monitor field as a function of the events so far |
| `StatusFrames`, `StatusHistory` | decoding the status frame; every byte of it as a function of the events so far |
| `Uploads` | end-to-end upload |
| `Capl`, `Panels`, `PanelSessions` (`PanelSession.dfy`), `CyclicSenders` | the CANoe nodes, composed with the gateway |
| `CanLoops`, `CanTasks` | the order of work in `vCANTask` |
| `LoopDeadlines` (`Deadlines.dfy`) | by when the loop reports a verified upload and a silent ECU |
| `HostSpec`, `HostModels`, `HostAgreement` | the host models and where they agree with the firmware |
| `Schedulers` | the 10/100/1000 ms counters |

Modelling choices:

- A `uint8_t` is an integer from 0 to 255. XOR is defined bit by bit; masks and shifts are remainders and
  quotients by powers of two.
- A tick is the unbounded clock modulo 2^32, at 1000 ticks a second, so one tick is one millisecond. The handlers
  only ever see ticks; the theorems speak of the clock.
- Each call of `xTaskGetTickCount` is its own reading. A request carries two (lockout check, recorded failure), a
  status build two (lockout update, timeout check), a pass of the CAN task five besides those of the frames it
  handles. Later readings may be later by any amount.
- The static variables are grouped into objects: security access, upload buffer, OTA service, receive supervision,
  gateway. The monitor table is a sequence of five distinct records that are updated in place.
- The theorems write protocol numbers, limits and times out, and the host models keep constants of their own, so that
  they say what the constants of the model must be.
- Null requests and responses are modelled; a missing one leaves everything as it is.
- Endless loops (`vCANTask`, `vComSchedulerTask`, the senders' timers) are modelled by their first n rounds, for every n.
- The provisos of the timing theorems are part of the results. Timeouts are exact when checks come at most
  2^32 - 300 ticks apart, and not with one tick more (`TimeoutBoundIsTight`). Lockouts are exact when updates come at
  most 2^32 - 3000 ticks apart; `LateUpdate` says what an update after any silence does. The safety halves
  (`TimeoutNeverFalse`, `LockoutIsFrozen`, `FailureSpacing`) need no proviso, and neither do the histories of the alive
  monitors, which count a timeout when a check sees one. Lossy senders raise no fault under a bound that is tight too
  (`LossBoundIsTight`). The 100 tick status period holds between transmit times and
  on the whole; two frames can be closer if building the first one takes long (`FramesApart`, `FramesCanCrowd`).

## Where code and documentation differ

The model follows the code.

- `Documentation/ecu6_gateway/design.md` line 86 and the comment at `com_gateway.c` line 837 say that valid messages, or any
  changed alive value, clear an alive fault. The first valid frame after a timeout only sets a new baseline and leaves
  the fault (`FaultOutlivesTimeout`); `ValidFrameClearsIff` gives the exact condition.
- The state table of the same document lists ABORT and an invalid sequence as the ways into FAILED. The code also enters it
  on a refused DATA and a checksum mismatch, as the text below that table says, and at the start of a lockout. The table
  lists initialisation as the way into IDLE; REQUEST_SEED is another.
- It says INIT holds while not all ECUs have been seen. The code reports DEGRADED even then if a fault is active.
- Its table of files calls `CANOE/ECU6_Panel_Bridge.can` empty. The file is not, and it is modelled.
- `Tests/host/test_ecu6_gateway_logic.py` lacks ABORT, accepts a SEND_KEY without a seed and an END in any state, does not
  limit the DATA length byte to 4, tests the lockout before it tests for unknown commands, and never recovers from a
  checksum fault. `AnswersAgreeIff`, `UnknownCommandsAgreeIff` and `ModelChecksumNeverRecovers` say exactly when that shows.

## Model

| member | source | states |
|---|---|---|
| `OtaHistory.ActivationNeedsProtocol` | Sources/services/com_gateway.c:404-506 | In every run an accepted ACTIVATE is preceded, in order, by the latest seed, a SEND_KEY with that seed's key, an accepted START, accepted DATA frames, an END whose byte 2 is the XOR of exactly the payloads accepted since that START, and a published VERIFYING frame; between START and ACTIVATE every other request left the OTA state alone |
| `OtaHistory.ActivationIffProtocol` | Sources/services/com_gateway.c:889-1006 | A well-formed ACTIVATE is accepted if and only if such a complete protocol run precedes it |
| `OtaHistory.SeedWitness` | Sources/services/com_gateway.c:950-965 | While a seed is outstanding, the stored seed is the one in the latest acknowledged REQUEST_SEED reply |
| `OtaHistory.UnlockWitness` | Sources/services/com_gateway.c:966-992 | An unlocked session was unlocked by an accepted SEND_KEY carrying the key of the latest issued seed |
| `OtaHistory.UploadWitness` | Sources/services/com_gateway.c:410-447 | In START and RECEIVING the stored bytes are exactly the payloads accepted since the START that opened the upload |
| `OtaHistory.EndWitness` | Sources/services/com_gateway.c:449-469 | VERIFYING comes from an END carrying the XOR of all payloads since START, with no status frame published since |
| `OtaHistory.ReadyWitness` | Sources/services/com_gateway.c:284-299 | READY_TO_ACTIVATE comes from such an END and the first status frame published after it |
| `OtaHistory.BufferIsHistory` | Sources/services/com_gateway.c:301-384 | In every run the length is that of the payloads accepted since the last reset, the 256-byte array is those payloads in order followed by zeros, and the XOR of the stored part, of the whole array and of the payloads is the same |
| `OtaHistory.CountingChain` | Sources/services/com_gateway.c:229-239 | The version is 1 + (accepted ACTIVATEs mod 255), and accepted ACTIVATEs <= published VERIFYING frames <= accepted ENDs <= accepted STARTs |
| `OtaHistory.SeedsAreUsedOnce` | Sources/services/com_gateway.c:950-992 | In every run the key attempts (right or wrong), plus one while a seed is outstanding, never exceed the acknowledged seed requests: each seed is good for one attempt |
| `OtaInvariants.InvariantHolds` | Sources/services/com_gateway.c:404-506 | Every reachable state satisfies the machine invariant: locked or seed outstanding only in IDLE/FAILED, so DATA, END and ACTIVATE are only ever accepted unlocked although only START tests it; VERIFYING iff verification pending; from VERIFYING to SUCCESS the verified checksum is the XOR of the buffer; lockout iff streak is 3, then locked, no seed, FAILED |
| `OtaInvariants.EventKeepsInv` | Sources/services/com_gateway.c:889-1006 | One event of any kind (request, received frame, timeout check, status frame) keeps the invariant |
| `OtaInvariants.CommandKeepsInv` | Sources/services/com_gateway.c:404-506 | START, DATA, END, ACTIVATE and ABORT keep the invariant outside lockout, whatever their bytes |
| `OtaInvariants.FailureKeepsInv` | Sources/services/com_gateway.c:263-282 | Recording a failure keeps the invariant: the third one locks, drops the seed and the pending verification, and fails the session |
| `OtaInvariants.LockoutKeepsInv` | Sources/services/com_gateway.c:241-255 | Letting a lockout expire keeps the invariant |
| `OtaInvariants.VerificationNeverFails` | Sources/services/com_gateway.c:284-299 | The "verification failed" branch is never taken: publishing VERIFYING always leads to READY_TO_ACTIVATE |
| `OtaEffects.RequestEffect` | Sources/services/com_gateway.c:889-1006 | What each answer tells about its request: for every ACK and every NACK detail, the state it needed, the bytes it carried and which parts of the session changed or did not |
| `OtaTraces.RunsAreLawful` | Sources/services/com_gateway.c:889-1006 | Every step of every run, described by its answer on the bus alone, keeps the invariant and changes only what that answer allows |
| `OtaTraces.AnswersAreOnTheBus` | Sources/services/com_gateway.c:564-583 | The answers the history lemmas speak of are bytes 0, 1 and 3 of the 0x651 frame, whose checksum is good |
| `OtaAnswers.MalformedIsDecided` | Sources/services/com_gateway.c:902-937 | A request is answered 0x7F 0x10 iff its identifier is not 0x650, 0x11 iff it is and the length is not 8, 0x12 iff both are right and the command byte is none of the seven |
| `OtaAnswers.MalformedIsHarmless` | Sources/services/com_gateway.c:902-937 | The first two echo nothing and change nothing; an unknown command is echoed and noted |
| `OtaAnswers.LockoutIsDecided` | Sources/services/com_gateway.c:939-948 | Each of the seven commands is answered 0x23 iff a lockout is active, and then changes nothing |
| `OtaAnswers.SeedIsDecided` | Sources/services/com_gateway.c:950-965 | REQUEST_SEED is answered 0x79 iff no lockout is active; the detail is 0x5A XOR response counter XOR error counter XOR version, the session is locked and IDLE, the upload gone |
| `OtaAnswers.KeyIsDecided` | Sources/services/com_gateway.c:967-992 | SEND_KEY outside lockout: 0x79 iff a seed is out and byte 2 is the seed XOR 0xA5; 0x22 iff one is out and it is not; 0x21 iff none is out, and then nothing changes; the whole state after each |
| `OtaAnswers.StartIsDecided` | Sources/services/com_gateway.c:414-426 | START outside lockout: 0x79 and an empty upload if unlocked, else 0x20 and no change |
| `OtaAnswers.DataIsDecided` | Sources/services/com_gateway.c:351-384 | DATA outside lockout: 0x14 out of sequence, 0x15 for a length above 4, 0x18 for a wrong authentication byte, 0x16 without room in 256 bytes, in this order, else 0x79 with the payload appended; the whole state after each |
| `OtaAnswers.EndIsDecided` | Sources/services/com_gateway.c:449-469 | END outside lockout: 0x14 out of sequence, 0x79 and VERIFYING if byte 2 is the XOR of the stored bytes, else 0x17 and FAILED; the whole state after each |
| `OtaAnswers.ActivateIsDecided` | Sources/services/com_gateway.c:471-481 | ACTIVATE outside lockout: 0x79, SUCCESS and the next version (1 after 255) in READY_TO_ACTIVATE, else 0x14 and FAILED |
| `OtaAnswers.AbortIsDecided` | Sources/services/com_gateway.c:483-487 | ABORT is answered 0x79 iff no lockout is active: FAILED, all 256 bytes zero, version and security record (the unlock too) unchanged |
| `OtaAnswers.RefusalsAreTwelve` | Sources/services/com_gateway.c:77-91 | There are no other refusals than the twelve details |
| `OtaAnswers.SeedOutIsHistory` | Sources/services/com_gateway.c:950-992 | A seed is outstanding iff one was sent in an acknowledged reply and no key has been tried since |
| `OtaAnswers.UnlockIsHistory` | Sources/services/com_gateway.c:208-221 | The session is unlocked iff a key was accepted and since then no seed request was acknowledged and no wrong authentication byte started a lockout; ABORT does not lock |
| `OtaAnswers.StateIsHistory` | Sources/services/com_gateway.c:404-506 | In every run the OTA state is determined by the answers and status frames on the bus, and by which wrong keys started a lockout |
| `OtaAnswers.LastCommandIsHistory` | Sources/services/com_gateway.c:924-926 | The noted command is that of the latest well-formed request |
| `Lockouts.LockoutRefines` | Sources/services/com_gateway.c:241-282 | The wrapping-tick lockout equals a reference on an unbounded clock: same streak, same activity, start tick of the third failure, for runs of any length with updates at most 2^32 - 3000 ticks apart |
| `Lockouts.LockoutWindow` | Sources/services/com_gateway.c:241-261 | At each update the lockout is active if and only if fewer than 3000 ticks have passed since a third failure |
| `Lockouts.LockoutIsFrozen` | Sources/services/com_gateway.c:939-948 | For 3000 ticks after a third failure nothing changes but the last command and the response counter, and every request is refused; no proviso on polling or wrap |
| `Lockouts.LockoutFreezes` | Sources/services/com_gateway.c:939-948 | In the same window every well-formed known command is answered SECURITY_LOCKOUT |
| `Lockouts.LateUpdate` | Sources/services/com_gateway.c:241-255 | Why polling matters: an update d ticks after the third failure keeps the lockout iff d mod 2^32 < 3000 |
| `Lockouts.FailureSpacing` | Sources/services/com_gateway.c:201-282 | Among any four failures with no unlock in between, the first and the last are at least 3000 ticks apart, however the tick wraps |
| `Lockouts.ErrorCounterIsHistory` | Sources/services/com_gateway.c:263-282 | The error counter is the number of wrong keys and wrong authentication bytes of the whole run, saturated at 255 |
| `Lockouts.RunsAreSecure` | Sources/services/com_gateway.c:201-282 | Every step of every run obeys the failure law: only a failure steps the streak, only an unlock or an expiry clears it, a lockout freezes the session |
| `Uploads.UploadSucceeds` | Sources/services/com_gateway.c:889-1006 | From every reachable state with no active lockout, any image of at most 256 bytes in chunks of at most four with any sequence numbers, sent by the protocol, is ACKed at every step and ends in SUCCESS with the stored bytes equal to the image and the version advanced once; other ECUs' frames, checks and status frames may come in between |
| `Uploads.UploadOverflows` | Sources/services/com_gateway.c:370-376 | In such a run the first chunk that would exceed 256 bytes is NACKed BUFFER_OVERFLOW with buffer, length and version unchanged |
| `Uploads.UploadIsPossible` | Sources/services/com_gateway.c:889-1006 | Such runs exist: every run with no active lockout can be continued by a client to SUCCESS with any such image, at any clock the run has not passed and without the clock going backwards |
| `Uploads.ChunkStep` | Sources/services/com_gateway.c:351-384 | One authenticated chunk in an open upload is appended if it fits and refused without touching the buffer if not |
| `Uploads.RunsAreWilling` | Sources/services/com_gateway.c:889-1006 | When a well-formed request must be accepted: seed outside lockout, right key with a seed out, START when unlocked, authentic DATA that fits, END with the right XOR, ACTIVATE when ready |
| `SupervisionHistory.TimeoutExact` | Sources/services/com_gateway.c:1051-1072 | After every event the timeout flag is set if and only if the latest check came 300 or more ticks after the latest valid frame (or initialisation) on the unbounded clock, for silences of any length, with checks at most 2^32 - 300 ticks apart |
| `SupervisionHistory.TimeoutNeverFalse` | Sources/services/com_gateway.c:1040-1072 | A raised timeout means 300 ticks have really passed; no proviso |
| `SupervisionHistory.TimeoutAfterCheck` | Sources/services/com_gateway.c:1051-1072 | After every check of such a run: timed out iff at least 300 ticks since the last valid frame |
| `SupervisionHistory.TimeoutIsHistory` | Sources/services/com_gateway.c:1040-1072 | In every run whatever, the stored tick is that of the latest valid frame, and the timeout flag stands iff some check since that frame read 300 or more wrapped ticks |
| `SupervisionHistory.TimeoutsAreSilences` | Sources/services/com_gateway.c:1051-1072 | With checks at most 2^32 - 300 ticks apart, what the checks see is exactly the real silences |
| `SupervisionHistory.TimeoutBoundIsTight` | Sources/services/com_gateway.c:1051-1072 | With one tick more between checks a silence can be missed: a concrete run |
| `SupervisionHistory.BaselineIsHistory` | Sources/services/com_gateway.c:808-820 | In every run, no proviso: an ECU has a live alive-counter baseline iff it has been heard and is not timed out; the stored nibble is that of its last valid frame; a timeout always implies no baseline and freeze count 0 |
| `SupervisionHistory.BaselineInRealTime` | Sources/services/com_gateway.c:808-820 | With checks at most 2^32 - 300 ticks apart: a live baseline iff heard and not really silent for 300 ticks at the latest check |
| `SupervisionHistory.FreezeCountIsHistory` | Sources/services/com_gateway.c:822-834 | In every run the freeze counter is min(255, number of trailing repeats of the live baseline) |
| `SupervisionHistory.AliveErrorIsHistory` | Sources/services/com_gateway.c:808-847 | In every run the alive fault stands iff a third repeat has occurred and no valid frame since has left a live baseline |
| `SupervisionHistory.ValidFrameClearsIff` | Sources/services/com_gateway.c:836-846 | In every run a valid frame ends an alive fault if and only if the ECU is not timed out and the nibble has changed |
| `SupervisionHistory.FaultOutlivesTimeout` | Sources/services/com_gateway.c:836-846 | For every ECU: after four equal frames, a silence of 300 ticks and a valid frame with another nibble, the timeout is cleared and the alive fault is not, against the source comment and Documentation/ecu6_gateway/design.md line 86 |
| `SupervisionHistory.StaleRunGoesStale` | Sources/services/com_gateway.c:836-846 | There is such a run, from initialisation on |
| `SupervisionHistory.ChecksumFaultIsHistory` | Sources/services/com_gateway.c:775-805 | The checksum fault stands iff the ECU has sent an invalid frame and fewer than five valid ones since, and the recovery counter is that number, so its 0xFF guard never binds |
| `SupervisionHistory.BlockedIsHistory` | Sources/services/com_gateway.c:1009-1028 | The blocked counter is min(255, unknown-identifier frames + invalid monitored frames) |
| `SupervisionHistory.MaskIsHistory` | Sources/services/com_gateway.c:1030-1036 | Bit i of the receive mask says whether ECU i has ever sent a valid frame |
| `SupervisionHistory.AllSeenIsHistory` | Sources/services/com_gateway.c:620-623 | All-seen iff every one of the five ECUs has sent a valid frame |
| `SupervisionHistory.MonitorsAreIndependent` | Sources/services/com_gateway.c:520-533 | Each ECU's monitor depends only on that ECU's own frames and on the checks |
| `SupervisionHistory.CorruptedFrameIsBlocked` | Sources/services/com_gateway.c:1009-1028 | A frame corrupted inside eight consecutive data bits sets its ECU's checksum fault and steps the blocked counter; mask, alive and timeout fields and all other monitors stay |
| `Frames.BurstDetected` | Sources/services/com_gateway.c:585-595 | Any change confined to eight consecutive data bits of a good frame (in DBC or wire bit order, so also any single byte) is rejected |
| `Frames.BurstKeepsFrame` | Sources/services/com_gateway.c:537-549 | Two frames with good checksums that differ at most in such a burst are equal |
| `Frames.CanMessage.CalculateChecksum` | Sources/services/com_gateway.c:537-549 | The loop computes the low identifier byte XOR the fold of the first seven bytes |
| `Frames.CanMessage.VerifyChecksum` | Sources/services/com_gateway.c:585-595 | True iff length is 8 and byte 7 is the checksum |
| `Frames.CanMessage.AddChecksum` | Sources/services/com_gateway.c:551-562 | Turns the first seven bytes into a frame that passes the checksum, leaving them as they are |
| `Frames.CanMessage.Write` | Sources/services/com_gateway.c:1087-1097 | Writes header and seven bytes in place |
| `Bytes.XorBit` | Sources/services/com_gateway.c:537-549 | XOR acts on each bit as addition modulo 2 |
| `Bytes.XorConcat` | Sources/services/com_gateway.c:313-324 | The XOR of a concatenation is the XOR of the parts |
| `Bytes.ElapsedTicks` | Generated_Code/FreeRTOSConfig.h:172-176 | Subtracting two 32-bit ticks gives the true difference modulo 2^32: never more, and exact for less than one turn |
| `StatusFrames.StatusRoundTrip` | CANOE/ECU6_Panel_Bridge.can:52-79 | In every run the panel recovers the OTA state itself (no other state has the code shown), both security flags, blocked count and version from a published frame |
| `StatusFrames.StatusIsCoherent` | Sources/services/com_gateway.c:1076-1127 | Every published frame: bit 3 xor bit 4, bit 7 zero, byte 0 DEGRADED iff bit 5 or bit 6, otherwise NORMAL iff the mask is 0x1F |
| `StatusFrames.StatusShowsFaults` | Sources/services/com_gateway.c:1076-1127 | In every run a published frame has bit 5 iff some ECU was seen to time out or is frozen, bit 6 iff some ECU has sent fewer than five valid frames since an invalid one, and says DEGRADED iff one of them, by the events up to and with its own check |
| `StatusFrames.DegradedInRealTime` | Sources/services/com_gateway.c:642-656 | With checks at most 2^32 - 300 ticks apart: DEGRADED iff some ECU has really been silent for 300 ticks, is frozen, or has a checksum fault |
| `StatusFrames.AliveIsFrameNumber` | Sources/services/com_gateway.c:1122-1123 | The n-th published frame carries alive counter n mod 16 |
| `StatusHistory.StateByteIsHistory` | Sources/services/com_gateway.c:642-656 | Byte 0 of every published frame is 2 iff some ECU has an alive or checksum fault by history, 1 iff none has and a valid frame of each of 0x101, 0x201, 0x301, 0x401, 0x501 has been received, else 0 |
| `StatusHistory.FlagByteIsHistory` | Sources/services/com_gateway.c:1090-1117 | Byte 1: bits 0..2 are the number of the OTA state the bus has shown, bit 3 unlocked, bit 4 not unlocked, bit 5 alive fault, bit 6 checksum fault, each by history |
| `StatusHistory.CountersAreHistory` | Sources/services/com_gateway.c:1091-1095 | Bytes 2, 3, 4 and 6: min(255, blocked frames), min(255, failures), 1 + accepted activations mod 255, number of the frame mod 16 |
| `StatusHistory.MaskByteIsHistory` | Sources/services/com_gateway.c:1094-1094 | Byte 5: weight 1, 2, 4, 8, 16 for each of the five identifiers from which a valid frame has been received |
| `StatusHistory.StatusIsAddressed` | Sources/services/com_gateway.c:1086-1120 | Identifier 0x601, length 8, byte 7 is 0x01 XOR the first seven bytes |
| `StatusFrames.CorruptedStatusIsRejected` | CANOE/ECU6_Panel_Bridge.can:57-70 | A status frame corrupted inside eight consecutive data bits is shown as a checksum error |
| `StatusFrames.InitialStateEnds` | Sources/services/com_gateway.c:642-656 | INIT is never published once all five ECUs have been seen |
| `StatusFrames.FlagBits` | CANOE/6_ECUs_dbc_0206.dbc:82-94 | Byte 1 read by the DBC signal positions: state code in bits 0..2, each flag in its own bit |
| `StatusFrames.SumSplits` | CANOE/6_ECUs_dbc_0206.dbc:84-88 | The five fields of byte 1 do not overlap |
| `Panels.ResponseRoundTrip` | CANOE/ECU6_Panel_Bridge.can:81-110 | From a 0x651 frame the panel recovers code, detail, the OTA state and the version after the request |
| `Panels.ResponsesAreNumbered` | Sources/services/com_gateway.c:564-583 | The n-th response carries n mod 16 |
| `Panels.ChecksumsAgree` | CANOE/ECU6_Panel_Bridge.can:139-162 | With requests delivered in order and replies at any time or never: whenever the gateway is in START or RECEIVING the panel's running checksum is the XOR of the gateway's stored bytes |
| `Panels.CrcButtons` | CANOE/ECU6_Panel_Bridge.can:164-180 | In an open upload the correct-CRC button is always ACKed and the wrong-CRC button always NACKed CHECKSUM_MISMATCH |
| `Panels.CorrectCrcNeverMismatches` | CANOE/ECU6_Panel_Bridge.can:164-171 | In no state is the correct-CRC button NACKed CHECKSUM_MISMATCH |
| `Panels.EndIsDecided` | Sources/services/com_gateway.c:386-402 | A well-formed END in an open upload is ACKed if it carries the XOR of the stored bytes and NACKed CHECKSUM_MISMATCH if not |
| `Panels.SeedsAgree` | CANOE/ECU6_Panel_Bridge.can:105-109 | With replies delivered before the next request, panel and gateway hold the same seed from the first acknowledged seed on |
| `Panels.RepliesCarryTheSeed` | CANOE/ECU6_Panel_Bridge.can:81-110 | The panel's reply handler, run on the response frames, stores exactly that seed |
| `Panels.PanelAuthenticates` | CANOE/ECU6_Panel_Bridge.can:121-162 | Then panel chunks are never NACKed INVALID_AUTH, the correct key never INVALID_KEY, and the wrong key never unlocks |
| `Panels.CorruptedReplyIsIgnored` | CANOE/ECU6_Panel_Bridge.can:85-99 | A reply corrupted inside eight consecutive data bits is shown as bad and leaves the stored seed alone |
| `PanelSessions.PanelUploads` | CANOE/ECU6_Panel_Bridge.can:112-190 | The closed loop: with prompt replies and no active lockout, RequestSeed, SendCorrectKey, OtaStart, any number of chunks up to 256 bytes, OtaEndCorrectCrc, a status frame and OtaActivate are each answered 0x79 and end in SUCCESS with exactly the chunks stored and the version one further |
| `PanelSessions.SecurityButtons` | CANOE/ECU6_Panel_Bridge.can:112-137 | Outside lockout RequestSeed is acknowledged; the key buttons get 0x21 without a seed out; with one, SendCorrectKey unlocks and SendWrongKey gets 0x22 and does not |
| `PanelSessions.UploadButtons` | CANOE/ECU6_Panel_Bridge.can:139-198 | Outside lockout: OtaStart 0x79 or 0x20, SendOtaChunk 0x79, 0x16 or 0x14, OtaActivate 0x79 or 0x14, each exactly by the gateway state; OtaAbort 0x79 and FAILED |
| `PanelSessions.EndButtons` | CANOE/ECU6_Panel_Bridge.can:164-180 | Outside lockout, in an open upload the correct END gets 0x79 and the wrong one 0x17, else both 0x14 |
| `PanelSessions.ButtonsInLockout` | CANOE/ECU6_Panel_Bridge.can:112-198 | In a lockout every button gets 0x23 |
| `PanelSessions.ButtonBytes` | CANOE/ECU6_Panel_Bridge.can:33-198 | The eight bytes that each button sends |
| `Panels.PanelBridge.Press` | CANOE/ECU6_Panel_Bridge.can:112-198 | Each button fills the request in place and updates the panel variables as specified |
| `Panels.PanelBridge.SendOtaCommand` | CANOE/ECU6_Panel_Bridge.can:33-45 | Steps the sequence number modulo 256 and writes the eight bytes |
| `Panels.PanelBridge.OnResponse` | CANOE/ECU6_Panel_Bridge.can:81-110 | Shows a good reply, stores the seed of an acknowledged seed request, ignores a bad checksum |
| `Panels.PanelBridge.OnStatus` | CANOE/ECU6_Panel_Bridge.can:52-79 | Decodes a status frame as specified |
| `Capl.CalcChecksum` | CANOE/ECU2.can:19-33 | The CAPL checksum of seven bytes is the gateway's: it makes the frame pass |
| `Capl.ExpectedChecksum` | CANOE/ECU6_Panel_Bridge.can:11-25 | What the panel expects in byte 7 is the gateway's frame checksum |
| `CyclicSenders.LossNeverFreezes` | Sources/services/com_gateway.c:808-847 | A sender with a 4-bit counter and period P never raises the freeze fault under any loss, if every event comes at most D ticks after a timeout check, frames arrive at most L late and 300 + D + L <= 16 P; the freeze count stays 0 |
| `CyclicSenders.NoRepeat` | Sources/services/com_gateway.c:822-834 | If every event comes at most D ticks after a check, frames arrive at most L late and 300 + D + L <= 16 P, a valid frame that repeats the nibble of the one before comes only after a silence of 300 ticks that a check has reached |
| `CyclicSenders.LossBoundIsTight` | Sources/services/com_gateway.c:808-847 | The bound is tight: for every ECU and every period of 38 ticks or more, a run with no delay and 300 + D = 16 P + 1 in which four frames with the same nibble (three repeats) raise the fault |
| `CyclicSenders.TightRunIsSupervised` | Sources/services/com_gateway.c:1051-1072 | The clock of that run never goes back and every event comes at most D = 16 P - 299 ticks after a check |
| `CyclicSenders.CyclicSender.SendStatus` | CANOE/ECU2.can:35-63 | Sends payload, alive nibble and checksum, then steps the counter modulo 16 |
| `CyclicSenders.CyclicSender.Run` | CANOE/ECU1.can:71-81 | Frame k goes out at first + k * period with alive nibble (alive + k) mod 16 |
| `CanLoops.LoopNeverFreezes` | Sources/drivers/can.c:395-454 | The whole chain: sender, lossy bus and CAN task. If each pass ends at most D ticks after the previous timeout check and 300 + D + L <= 16 P, no loss pattern raises the freeze fault |
| `CanLoops.LoopSupervises` | Sources/drivers/can.c:395-454 | Passes bounded so put every gateway event at most D ticks after a timeout check |
| `CanLoops.StatusNotEarly` | Sources/drivers/can.c:406-412 | A status frame is only built when the transmit time kept by the CAN task is really at least 100 ticks old, however the tick wraps |
| `CanLoops.TransmitTimesAreSpaced` | Sources/drivers/can.c:406-412 | The transmit time has advanced by at least 100 ticks for every frame sent: never more than one frame per 100 ticks on the whole |
| `CanLoops.FramesApart` | Sources/drivers/can.c:406-412 | A frame is built at least 100 ticks after the transmit time of any earlier one; two frames are closer only by the time the first took from its transmit time to its timeout check |
| `CanLoops.FramesCanCrowd` | Sources/drivers/can.c:406-412 | And they can be: two status frames one tick apart, in a concrete run of the loop |
| `CanLoops.StatusNotLate` | Sources/drivers/can.c:406-412 | With due tests at most D apart (D <= 2^32 - 100) a status frame is due iff the transmit time is really 100 ticks old, and before it is 100 + D old |
| `LoopDeadlines.EndIsFollowedByReady` | Sources/services/com_gateway.c:284-299 | In a loop whose passes each end at most D ticks after the check of the pass before, once an END has been accepted and no later request touches the state, the first frame to fall due shows VERIFYING and leaves READY_TO_ACTIVATE, and it is due before the transmit time is 100 + D ticks old |
| `LoopDeadlines.SilenceIsReported` | Sources/services/com_gateway.c:1051-1127 | In such a loop an ECU that falls silent is reported: a frame saying DEGRADED falls due less than 400 + 2 D ticks after its last valid frame |
| `LoopDeadlines.FirstDue` | Sources/drivers/can.c:395-454 | From any pass on, a frame falls due before the transmit time is 100 + D ticks old, if the loop goes on that long |
| `CanLoops.LoopIsMonotone` | Sources/drivers/can.c:395-454 | The events of the loop are a run with a clock that never goes backwards |
| `CanTasks.CanTask.OnePass` | Sources/drivers/can.c:395-454 | Each frame found in the five mailboxes, the OTA mailbox and the catch-all gives exactly one event with that frame and its clock readings, in this order, then the timeout check, then the status frame iff 100 wrapped ticks have passed, and nothing else; the blocked counter grows by the unknown and invalid frames found, up to 255; the gateway's variables stay equal to the history |
| `CanTasks.PassIsHandled` | Sources/drivers/can.c:395-454 | The events of a pass as the loop lemmas see them are exactly those of its mailboxes |
| `CanTasks.PassBlocks` | Sources/drivers/can.c:354-378 | A pass adds the unknown and invalid frames of the five mailboxes and the catch-all to the blocked frames |
| `CanTasks.CanTask.HistoryIsTheRun` | Sources/drivers/can.c:395-454 | At any time the gateway is in the state, and the driver has been handed the frames, that the history says; after a request the latest is its response |
| `GatewaySpec.BusStep` | Sources/drivers/can.c:315-352 | One response for each request, one status frame for each publication, in order, and nothing else |
| `GatewaySpec.FollowingIsTheRun` | Sources/drivers/can.c:395-454 | A gateway that has followed the events one by one is in the state of the run and has sent its frames |
| `CanTasks.CanTask.Run` | Sources/drivers/can.c:380-455 | After n passes the history is the loop's event sequence, cut into the passes, each of which handled exactly its own mailboxes |
| `CanTasks.CanTask.ProcessGatewayRxMessages` | Sources/drivers/can.c:284-313 | Polls all five mailboxes; arrived frames are handled in mailbox order |
| `CanTasks.CanTask.ProcessOtaRxMessage` | Sources/drivers/can.c:315-352 | Answers an arrived request, and does nothing otherwise |
| `CanTasks.CanTask.Answer` | Sources/drivers/can.c:315-352 | The request is recorded and the response built for it handed to the driver |
| `CanTasks.CanTask.ReceiveMail` | Sources/drivers/can.c:354-378 | One mailbox: an arrived frame is handled, else nothing changes |
| `CanTasks.CanTask.TransmitIfDue` | Sources/drivers/can.c:406-412 | Publishes iff the tick difference is at least 100, and then takes the second clock reading as transmit time |
| `CanTasks.CanTask.Publish` | Sources/drivers/can.c:410-412 | The transmitted frame is the run's published frame |
| `GatewaySpec.HalvesAreIndependent` | Sources/services/com_gateway.c:128-154 | The OTA/security half and the supervision half of the gateway never influence each other's state |
| `ComGateways.ComGateway.constructor` | Sources/services/com_gateway.c:120-154 | A new gateway object is in the initial state of its static variables |
| `ComGateways.ComGateway.Init` | Sources/services/com_gateway.c:850-886 | Establishes the initial state from any state |
| `ComGateways.ComGateway.HandleRequestMessage` | Sources/services/com_gateway.c:889-1006 | Does nothing without request or response; else decides, answers and steps the response counter, leaving supervision alone |
| `ComGateways.ComGateway.HandleRxMessage` | Sources/services/com_gateway.c:1009-1048 | Updates supervision as specified and leaves the OTA half alone |
| `ComGateways.ComGateway.CheckTimeouts` | Sources/services/com_gateway.c:1051-1072 | Checks all five monitors and leaves the OTA half alone |
| `ComGateways.ComGateway.UpdateGatewayState` | Sources/services/com_gateway.c:642-656 | DEGRADED before NORMAL before INIT |
| `ComGateways.ComGateway.PackFlags` | Sources/services/com_gateway.c:1090-1117 | Packs state code and four flags into byte 1 |
| `ComGateways.ComGateway.PackStatus` | Sources/services/com_gateway.c:1086-1120 | Fills the frame in place with the specified bytes and checksum |
| `ComGateways.ComGateway.BuildStatusMessage` | Sources/services/com_gateway.c:1076-1127 | Lockout update, timeout check, gateway state, frame, alive counter, publication step, in that order |
| `OtaServices.OtaService.HandleRequestMessage` | Sources/services/com_gateway.c:889-1006 | The in-place handler refines the decision function, with all early answers |
| `OtaServices.OtaService.DecideKnown` | Sources/services/com_gateway.c:939-1006 | Lockout, REQUEST_SEED, SEND_KEY and the upload commands as specified |
| `OtaServices.OtaService.ApplyCommandState` | Sources/services/com_gateway.c:404-506 | The command switch in place, including the fall-through to INVALID_SEQUENCE |
| `OtaServices.OtaService.StoreDataPayload` | Sources/services/com_gateway.c:351-384 | Length, authentication and capacity tests in this order, then the copy |
| `OtaServices.OtaService.RecordFailure` | Sources/services/com_gateway.c:263-282 | Counts a failure; at the third also fails the session |
| `OtaServices.OtaService.UpdateStateAfterStatusPublish` | Sources/services/com_gateway.c:284-299 | VERIFYING becomes READY_TO_ACTIVATE or FAILED, any other state stays |
| `OtaServices.OtaService.AdvanceActiveSwVersion` | Sources/services/com_gateway.c:229-239 | Steps the version, 0xFF wraps to 1 |
| `OtaServices.OtaService.BuildResponse` | Sources/services/com_gateway.c:564-583 | Fills the 0x651 frame in place and steps the counter modulo 16 |
| `OtaServices.OtaService.Init` | Sources/services/com_gateway.c:850-886 | Re-establishes the initial OTA and security state |
| `OtaServices.SecurityAccess.UpdateLockout` | Sources/services/com_gateway.c:241-255 | Clears the lockout once the wrapped difference reaches 3000 |
| `OtaServices.SecurityAccess.IsLockoutActive` | Sources/services/com_gateway.c:257-261 | Updates, then reports |
| `OtaServices.SecurityAccess.RecordFailure` | Sources/services/com_gateway.c:263-282 | Saturating counters; the third failure locks from the given tick |
| `OtaServices.SecurityAccess.MarkUnlocked` | Sources/services/com_gateway.c:215-221 | Unlocks, drops the seed and clears the streak |
| `OtaServices.SecurityAccess.ResetUnlock` | Sources/services/com_gateway.c:208-213 | Locks and drops the seed |
| `OtaServices.SecurityAccess.ClearFailureStreak` | Sources/services/com_gateway.c:201-206 | Clears streak and lockout |
| `OtaServices.UploadBuffer.Reset` | Sources/services/com_gateway.c:301-311 | Zeroes all 256 bytes and the record around them |
| `OtaServices.UploadBuffer.CalculateChecksum` | Sources/services/com_gateway.c:313-324 | The loop computes the XOR of the stored bytes |
| `OtaServices.UploadBuffer.VerifyAuth` | Sources/services/com_gateway.c:326-349 | Compares byte 3 with seed XOR sequence XOR length XOR 0xC3 |
| `OtaServices.UploadBuffer.Store` | Sources/services/com_gateway.c:370-384 | The copy loop appends the payload behind the stored bytes and touches nothing else, or only notes the overflow |
| `OtaServices.UploadBuffer.VerifyChecksum` | Sources/services/com_gateway.c:386-402 | Compares byte 2 of END with the XOR of the stored bytes |
| `RxSpec.FindEcu` | Sources/services/com_gateway.c:120-126 | Which identifiers are monitored: found iff one of the five table entries |
| `RxSupervisions.MonitorTable` | Sources/services/com_gateway.c:120-126 | Five distinct records with the identifiers, mask bits and limits of the table |
| `RxSupervisions.RxSupervision.FindRxMonitor` | Sources/services/com_gateway.c:520-533 | The search returns the record of the identifier, or none iff it is unknown |
| `RxSupervisions.RxSupervision.HandleRxMessage` | Sources/services/com_gateway.c:1009-1048 | Unknown, invalid and valid frames in place, one record at a time |
| `RxSupervisions.RxSupervision.Block` | Sources/services/com_gateway.c:1022-1028 | A monitored frame with a bad checksum changes its own record and the blocked counter only |
| `RxSupervisions.RxSupervision.Admit` | Sources/services/com_gateway.c:1030-1047 | A valid frame changes its own record and its own mask bit only |
| `RxSupervisions.RxSupervision.CheckTimeouts` | Sources/services/com_gateway.c:1051-1072 | The loop checks every record exactly once |
| `RxSupervisions.RxSupervision.HasAnyAliveError` | Sources/services/com_gateway.c:604-617 | True iff some record has a timeout or alive fault |
| `RxSupervisions.RxSupervision.HasAnyChecksumError` | Sources/services/com_gateway.c:626-639 | True iff some record has a checksum fault |
| `RxSupervisions.RxSupervision.HasAllMonitoredEcusSeen` | Sources/services/com_gateway.c:620-623 | True iff all five mask bits are set |
| `RxSupervisions.RxSupervision.Init` | Sources/services/com_gateway.c:850-866 | All records start from the current tick |
| `RxSupervisions.ComRxMonitor.UpdateAliveMonitor` | Sources/services/com_gateway.c:808-847 | Baseline, repeat and change branches in place |
| `RxSupervisions.ComRxMonitor.UpdateChecksumRecovery` | Sources/services/com_gateway.c:787-805 | Fifth valid frame clears the fault |
| `RxSupervisions.ComRxMonitor.SetChecksumError` | Sources/services/com_gateway.c:775-784 | Sets the fault and restarts recovery |
| `RxSupervisions.ComRxMonitor.Accept` | Sources/services/com_gateway.c:1036-1047 | A valid frame: recovery, alive monitor, timeout cleared, tick stored |
| `RxSupervisions.ComRxMonitor.CheckTimeout` | Sources/services/com_gateway.c:1056-1071 | Latches a timeout and drops the baseline |
| `HostAgreement.GatewayModelAgrees` | Tests/host/test_ecu6_gateway_logic.py:96-147 | In every run, with checks at most 2^32 - 300 ticks apart, every host monitor has the firmware's timeout, baseline, nibble, freeze count and alive fault, and a firmware checksum fault is one of the model too |
| `HostAgreement.BlockedCountAgrees` | Tests/host/test_ecu6_gateway_logic.py:114-126 | The blocked counters agree in every run; no proviso |
| `HostAgreement.ModelChecksumNeverRecovers` | Tests/host/test_ecu6_gateway_logic.py:122-126 | The checksum faults differ exactly after five or more valid frames since an invalid one |
| `HostAgreement.ChecksumsAgree` | Tests/host/test_ecu6_gateway_logic.py:67-71 | The model's running checksum is the firmware's XOR, for inputs of any length |
| `HostAgreement.AnswersAgreeIff` | Tests/host/test_ecu6_gateway_logic.py:225-308 | Model and firmware answer a known command alike if and only if it is in the stated domain (in lockout: always; else no ABORT, SEND_KEY only with a seed out, END only in START/RECEIVING, DATA length at most 4 in an open upload), and there the sessions stay mirrored |
| `HostAgreement.UnknownCommandsAgreeIff` | Tests/host/test_ecu6_gateway_logic.py:225-231 | Unknown commands are answered alike iff there is no lockout |
| `HostAgreement.ModelOffDomain` | Tests/host/test_ecu6_gateway_logic.py:225-308 | What the model does where the firmware does otherwise: 0x12 for ABORT, a key taken without a seed, an END taken in any state, four bytes stored for a longer DATA |
| `HostAgreement.OtaModelAgrees` | Tests/host/test_ecu6_gateway_logic.py:150-308 | In every run of well-formed requests, known ones on that domain and unknown ones outside lockout, with lockout updates at most 2^32 - 3000 ticks apart, all eight response bytes, version and state are the same; the model handles each event at one clock reading, the failure's if the firmware records one, else the first |
| `HostAgreement.ReadyAlike` | Tests/host/test_ecu6_gateway_logic.py:168-178 | The looks at its clock that unknown commands make the model take, and the firmware not, leave no difference at the next event |
| `HostAgreement.AdvanceInSteps` | Tests/host/test_ecu6_gateway_logic.py:168-178 | Advancing the model's clock in two steps is the same as in one |
| `HostModels.OtaModel.Request` | Tests/host/test_ecu6_gateway_logic.py:225-308 | The method computes the specified verdict and response |
| `HostModels.OtaModel.RecordFailure` | Tests/host/test_ecu6_gateway_logic.py:188-199 | Failure counters and lockout of the model |
| `HostModels.OtaModel.PublishGatewayStatus` | Tests/host/test_ecu6_gateway_logic.py:220-223 | Publication step of the model |
| `HostModels.OtaModel.BufferChecksum` | Tests/host/test_ecu6_gateway_logic.py:286-289 | The loop computes the XOR of the buffer |
| `HostModels.GatewayModel.Receive` | Tests/host/test_ecu6_gateway_logic.py:114-140 | One received frame in the model |
| `HostModels.GatewayModel.CheckTimeouts` | Tests/host/test_ecu6_gateway_logic.py:142-147 | The loop over the dictionary checks every monitor once |
| `HostModels.Checksum` | Tests/host/test_ecu6_gateway_logic.py:67-71 | The loop computes the model's checksum |
| `Schedulers.ComScheduler.SchedulerTask` | Sources/services/ms_scheduler.c:30-59 | After n rounds the counters are n, n / 10 and n / 100, each modulo 2^32, for every n |
| `Schedulers.NextRound` | Sources/services/ms_scheduler.c:43-55 | The slower counters step exactly when the true quotient does, although the cycle counter is put back to 0 at 100 |

## Left out

- HostAgreement.OtaModelAgrees: requests of these runs are well formed, because the host model has no identifier or length to check.
- CanTasks.CanTask.Run: the endless loop is modelled by its first n passes, and the bound on a pass's duration is an assumption of the timing lemmas, because delays and preemption are not modelled.
- Logging (`COM_Log*`, `LOG_Print`, the log ticks and the throttling of blocked-frame messages): output only, no effect on the gateway's state.
- CAN driver calls, mailbox configuration, the armed flags, transmit status and its one-time messages in `can.c`: they depend on a driver that is not part of this model. A mailbox either holds a frame or not.
- Message storage shared between the driver and the OTA buffer: the objects passed to the handlers never alias the 256-byte buffer, as in the firmware, where it is private to the gateway.
- FreeRTOS scheduling, preemption and delays: one task touches the gateway; the tick is an input.
- `Generated_Code` (except the tick rate and width), `system_init.c`, `gpio.c`, `uart.c`, `main.c`, `monitoring.c`: configuration, hardware access or empty.
- The payload layout of the simulated ECUs: only alive nibble, checksum and period matter to the gateway, and the layout of `ECU1.can` differs from the DBC's.
- `ECU3.can`, `ECU4.can`, `ECU5.can`: the same sender, covered by the period parameter.
- Panel variables of the CANoe environment: their values are results of the reply handlers, and resetting a button is not modelled. A panel with a button queue or with lost requests is not modelled either; requests reach the gateway in order.
- `CANOE/ECU6_Gateway_Test.can`, `ECU6_OTA_State_Test.can` and the debugger scripts: finite scenarios of the behaviour proved here for all runs.
- `make_status` and the test cases of the host tests: only the two models and their checksum are modelled.
- The reason strings of `OTA_SetState`: ignored by the firmware too.
