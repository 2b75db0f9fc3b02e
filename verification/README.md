# Aqara BLE: a verified model

This project models the protocol core of the Aqara U200 client in Dafny 4.11 and proves properties of it. It covers

- the voice-pack transfer (`ota_language.py`, `ota.py`): the bulk framing, the sliding-window sender with its
  retransmission and stall exit, and the whole system of sender, lossy FIFO link and lock;
- the authenticated session (`session.py`, with the login part of `auth.py` and `read_burst` of `client.py`): any
  number of callers over any number of devices, the handshake, the single retry, the follow-up burst and the listen
  window;
- the three CRC-16s, the auth message and fragment formats and the stream reader (`framing.py`, `ota_language.py`,
  `protocol.py`, `session.py`);
- the H4 deframer of the USB bridge firmware (`main.c`);
- HKDF-Expand and the `x-aes128gcm` text envelope (`cloud_crypto.py`).

`dafny verify dfyconfig.toml` checks everything.

## How it is built

| file | what it holds |
|---|---|
| `Bytes.dfy` | byte strings, slices, chunks |
| `Crc16.dfy`, `Checksums.dfy` | the CRC loops over bit-vectors, their algebra, and the two wire bytes the rest uses |
| `OtaFrames.dfy`, `OtaReceiver.dfy` | the data plan, and a reference receiver written from the wire format alone |
| `OtaSender.dfy`, `OtaWindow.dfy` | the streaming loop as a machine that yields at each `await`, and its invariants |
| `OtaStream.dfy` | the same loop in imperative form, a refinement of the machine, with its termination |
| `OtaPacing.dfy` | how the pacing of the writes decides whether a NAK is ever answered |
| `OtaTransfer.dfy`, `OtaSafety.dfy`, `OtaAmbiguity.dfy` | sender, link and lock together; safety; its exact condition |
| `OtaRuns.dfy` | building runs of that system, for the results that say that something can happen |
| `OtaRepair.dfy` | which block a retransmission repeats, seen from the lock, what a lost block costs, and when it can be repaired |
| `OtaDelivery.dfy` | what arrives when no block is lost, and when the whole image can arrive at all |
| `AuthFraming.dfy` | auth messages, fragments and the stream reader |
| `Session.dfy`, `SessionSafety.dfy` | concurrent sessions as a machine cut at each `await`, and what every interleaving keeps |
| `SessionExact.dfy` | what a session call does exactly: the log of a call that returns, when an attempt is retried, each step case by case |
| `SessionRun.dfy` | the code of one session call in imperative form, a refinement of that machine |
| `Burst.dfy`, `Listen.dfy` | the two read loops over timed arrivals |
| `H4.dfy` | the deframer over its 1029-byte buffer, fed by short reads |
| `Hkdf.dfy`, `Base64.dfy`, `Envelope.dfy` | key expansion and the text envelope over abstract primitives |

Code that changes state in a loop or an object is imperative here too, proved against a function or against a machine.
The streaming loop and the session call interleave with other code at every `await`; for these a machine on values says
what may happen between two awaits, the properties are proved of all its runs, and the imperative form is proved to do
exactly machine steps (`OtaStream`, `SessionRun`). The shared dictionary of busy flags is a map in the state of the
session machine. Clocks are integers in milliseconds and only ever advance. The environment chooses all replies, losses,
failures and cancellations.

## Findings

- **Resuming counts the window from zero.** With `0 < resume_from < window` the sender really has a window of
  `window - resume_from`; from `resume_from >= window` on it sends no block until an ack comes, and without one stalls
  at `resume_from + 1` (`OtaWindow.EffectiveWindow`, `OtaWindow.ResumeStarves`). The comment at
  `aqara_ble/ota.py:284` says that a NAK retransmits the oldest unacknowledged block; on a resumed transfer the block
  repeated is `resume_from` places older (`OtaRepair.RetransmitsOldest`). So in a setup whose block number is not
  ambiguous the lock never needs it (`OtaRepair.ResumedRepeatsUseless`), a block that is lost is never made up for
  (`OtaRepair.LossDooms`), and from `resume_from >= window` on no run at all brings the lock the missing blocks
  (`OtaDelivery.DeliveryCondition`). Lowering `base_ack` by `resume_from`, the field `shift` of the model, would put
  the window and the repeats right.
- **The block number can be ambiguous.** The lock takes a wrong block on some run exactly when first transmissions can
  get 256 blocks ahead of it, or a retransmission can happen and be a positive multiple of 256 blocks behind it
  (`OtaAmbiguity.ResumeCondition`, for every window, resume point and pacing). From the start of a blob with more than
  256 blocks that is every window past 256, and a window of 256 when a NAK can be answered before the stall limit
  (`OtaAmbiguity.WindowCondition`); on a resumed transfer it is, for instance, a `resume_from` that is a multiple of
  256. Nothing in the code bounds the window.
- **A lost block dooms the transfer.** Take a lock that accepts blocks only in order, and a setup whose block number
  is not ambiguous. Once the first transmission of the block the lock needs is lost, no run brings the lock the whole
  image, however many retransmissions are left: the sender is too far ahead, so no first transmission is ever accepted
  again, and a repeat brings the lock on by one block at most (`OtaRepair.LossDooms`). The only exception, in which
  the loss can be repaired, is a window of 1 with the base at the resume point, retransmission on, a block left after
  the lost one, and a stall limit that outlasts the sending of one block (`OtaRepair.RepairCondition`). So the
  retransmission at `aqara_ble/ota.py:284-294` never saves a transfer with a window of two or more. Without a loss,
  all that was sent and has left the link is at the lock, however many acks were lost on the way
  (`OtaDelivery.LosslessDelivers`).
- **The init frame does not truncate**: when name, digits and separators exceed 128 bytes the size is not announced.
  Nor does it check the name: after a NUL in it, the rest of the name up to its first space is read as the size
  (`OtaReceiver.InitFrameAnnouncesSize`).
- **4608 bytes is the longest auth message** that survives fragmenting and the stream reader. At 257 chunks the place
  of fragment 255 is 0xFF as well, so the reader stops early, although `assemble_auth_fragments` would still succeed
  (`AuthFraming.ReadBackExactly`, `AuthFraming.CutShort`).
- **Unsubscribing can be cut short.** `suppress(Exception)` does not hold back `CancelledError`, so a cancellation
  that hits one of the first three unsubscriptions leaves the others untried (`SessionSafety.CleanUpCutShort` is such
  a run). That is the only way: an attempt that got to the inner `try` leaves it with all four tried if and only if it
  does not leave by such a cancellation (`SessionSafety.UnsubscribesUnlessCut`).

## Model

| member | source | states |
|---|---|---|
| Crc16.Crc16Xmodem | aqara_ble/ota_language.py:61-69 | the nested loops compute the XMODEM register advance from 0 |
| Crc16.Crc16Mijia | aqara_ble/ota_language.py:72-80 | the nested loops compute the reflected 0xA001 advance from 0xFFFF |
| Crc16.Crc16Aqara | aqara_ble/framing.py:67-74 | the table-driven loop equals the bitwise reflected 0xA001 advance from 0, for every byte string |
| Crc16.TableIsAdvance | aqara_ble/framing.py:37-63 | each of the 256 table entries is eight clocks of the register on its index |
| Crc16.Generators | aqara_ble/ota_language.py:61-80 | the bit sent last, alone, leaves the generator polynomial in the register: 0x1021, and 0xA001 reflected |
| Crc16.CrcXor | aqara_ble/framing.py:67-74 | linearity: the CRC of a bytewise XOR of messages is the XOR of their CRCs, start values included |
| Crc16.MijiaIsAqaraPlusZeros | aqara_ble/ota_language.py:72-80 | for all d, MODBUS(d) is ARC(d) XOR MODBUS of as many zero bytes |
| Crc16.CrcInjective | aqara_ble/framing.py:67-74 | over one message, different start values give different CRCs |
| Crc16.Residue | aqara_ble/ota_language.py:90-90 | two trailing bytes drive the register to zero exactly when they are its CRC in wire order, for both polynomials and orders |
| Crc16.BurstDetected | aqara_ble/ota_language.py:61-69 | equal CRCs rule out every error burst of up to sixteen transmitted bits |
| Crc16.AdjacentBytesDetected | aqara_ble/framing.py:67-74 | messages of equal length that differ only inside two adjacent bytes have different CRCs |
| Crc16.OddErrorDetected | aqara_ble/framing.py:67-74 | an odd number of flipped bits always changes the CRC |
| Crc16.ValidCrcExactly | aqara_ble/protocol.py:41-45 | `valid_crc` accepts exactly the strings with zero residue, and these are exactly a payload with its own CRC |
| Checksums.ValidCrcIffAppended | aqara_ble/protocol.py:41-45 | `valid_crc` accepts exactly what `frame_data_block` appends a CRC to |
| Checksums.AqaraCrcExactly | aqara_ble/framing.py:93-94 | the two bytes in the auth header are the only pair that, appended to the body, drives the register from 0 back to 0 |
| Checksums.DamageDetected | aqara_ble/protocol.py:41-45 | `valid_crc` rejects a good string after any burst of up to sixteen bits or any odd number of flipped bits |
| OtaFrames.IterDataFrames | aqara_ble/ota_language.py:93-109 | the loop yields the framed blocks, numbered from 1, the last padded with 0x1a |
| OtaFrames.SliceSegment | aqara_ble/ota_language.py:196-199 | one segment as prefixed writes of at most the MTU payload |
| OtaFrames.BuildOtaDataPlan | aqara_ble/ota_language.py:184-201 | the loop builds the init frame and one group of writes for each block |
| OtaFrames.IterOtaDataWrites | aqara_ble/ota_language.py:204-219 | the writes yielded are the init frame followed by the flattened groups of the plan |
| OtaReceiver.InitFrameAnnouncesSize | aqara_ble/ota_language.py:166-181 | what a receiver reads from the init frame, for every name: the size when the fields fit in 128 bytes and the name has no NUL; with a NUL, the number the rest of the name spells up to a space |
| OtaReceiver.InitBytes | aqara_ble/ota_language.py:166-181 | the init frame byte by byte: 0x11 0x01 0x00 0xFF, name, NUL, decimal size without leading zeros, space, NULs up to 128 bytes, CRC |
| OtaReceiver.FrameAccepted | aqara_ble/ota_language.py:83-90 | a framed block passes marker, complement and CRC checks under exactly the numbers equal to its own modulo 256 |
| OtaReceiver.ReadFrames | aqara_ble/ota_language.py:93-109 | reading the frames of any blocks back returns the blocks |
| OtaReceiver.PlanShape | aqara_ble/ota_language.py:184-201 | ceil(n/1024) groups; a group is one 1029-byte segment in ceil(1029/mtu) writes, none across two blocks |
| OtaReceiver.WriteBytes | aqara_ble/ota_language.py:196-199 | write j of a segment is 0x11 and the segment from `mtu * j` on, cut to the MTU |
| OtaReceiver.SegmentBytes | aqara_ble/ota_language.py:83-107 | frame i byte by byte: 0x02, the number i + 1 in one byte and its complement, 1024 bytes of the blob with 0x1a past its end, CRC |
| OtaReceiver.ImageOnTheWire | aqara_ble/ota_language.py:93-109 | the image starts with the blob and is a whole number of 1024-byte blocks |
| OtaReceiver.ReceivesImage | aqara_ble/ota_language.py:204-219 | from the writes alone the receiver rebuilds the padded image, for every blob, name and MTU, cut to the size announced |
| OtaReceiver.Lossless | aqara_ble/ota_language.py:204-219 | the receiver gets the blob exactly when its size is announced; without a NUL in the name, exactly when the init fields fit |
| OtaWindow.Reachable | aqara_ble/ota.py:251-300 | the loop's invariant holds in every state of every run, whatever reports arrive and however time passes |
| OtaWindow.EffectiveWindow | aqara_ble/ota.py:273-300 | never more than `window + shift - resume_from` ahead of the acks; holding exactly at that distance; a NAK resends block `gi - window` |
| OtaWindow.WindowFromStart | aqara_ble/ota.py:273-300 | with `resume_from` 0: at most `window` blocks sent and not confirmed, exactly `window` while holding, and only sent blocks resent |
| OtaWindow.AckEndsHold | aqara_ble/ota.py:275-280 | an ack seen at the head of the loop forces a block to be sent in that round |
| OtaWindow.ResumeStarves | aqara_ble/ota.py:262-283 | resumed at or past the window and without an ack, no block is streamed and the only exit is a stall at `resume_from + 1` |
| OtaWindow.ScheduleIsPlan | aqara_ble/ota.py:251-252 | the schedule of all blocks carries exactly the writes of the plan, in order |
| OtaWindow.FirstSendsInOrder | aqara_ble/ota.py:274-300 | first transmissions go out once each and in plan order, `sent` counts them, and a full unresumed run has sent `total` |
| OtaWindow.ResendsBounded | aqara_ble/ota.py:285-289 | at most `max_resends` blocks are ever retransmitted |
| OtaWindow.ReportsCounted | aqara_ble/ota.py:136-157 | in every run `blockack` and `nak` count the ff92 reports received that begin with 0x11 0x06 and 0x11 0x15, and `done` is up exactly when it was at the start or one of them said "success" or "abort" |
| OtaWindow.NaksAnswered | aqara_ble/ota.py:285-289 | in every run there are never more retransmissions than NAKs received, and each answer uses up one that was not seen before |
| OtaWindow.LoopHead | aqara_ble/ota.py:274-294 | in every reachable state, which of its five ways the head of the loop takes: end, stall, next block, answer to a NAK with the block after the confirmed ones, or a sleep of 5 ms |
| OtaWindow.DoneStops | aqara_ble/ota.py:274-300 | once a final report was received no block and no retransmission is begun, whatever happens |
| OtaStream.VoicePackSender.DrainReport | aqara_ble/ota.py:136-157 | one ff92 report that begins with 0x11 0x06 counts as an ack, with 0x11 0x15 as a NAK, and one that says "success" or "abort" ends the transfer; other reports change nothing |
| OtaStream.VoicePackSender.HoldRound | aqara_ble/ota.py:280-294 | stalls exactly when the last noticed ack is older than `stall_s`, otherwise uses up stall budget |
| OtaStream.VoicePackSender.Round | aqara_ble/ota.py:274-300 | one round is a run of machine steps that sends a block, notes an ack, lets time pass or stalls |
| OtaStream.VoicePackSender.Stream | aqara_ble/ota.py:274-300 | the loop terminates because time passes, and ends with all blocks, a final report, or a stall of more than `stall_s` since the last ack |
| OtaStream.RunDataPhase | aqara_ble/ota.py:251-300 | what is returned is an exit state of the machine; `sent == total` on a full unresumed run; and the loop was ended by a report exactly when one of all that came said "success" or "abort" |
| OtaTransfer.DamageExactly | aqara_ble/ota_language.py:83-90 | whatever a frame is turned into, it passes the checks under some number exactly when length, first byte and complement are right and the flipped bits in block and CRC have CRC zero |
| OtaTransfer.RadioDamageSeen | aqara_ble/ota_language.py:83-90 | bursts of up to sixteen bits and odd numbers of flipped bits in block and CRC, and one wrong marker byte, are never of that kind |
| OtaSafety.OnlyTheRightBlock | aqara_ble/ota.py:262-300 | in a setup that is not ambiguous, the lock accepts a block that reaches it exactly when it is the next one |
| OtaSafety.AlwaysInv | aqara_ble/ota.py:262-300 | in every setup that is not ambiguous, the system invariant holds in every reachable state of sender, link and lock |
| OtaSafety.ImageIsPrefix | aqara_ble/ota.py:262-300 | in every reachable state of every setup that is not ambiguous the lock's image is a prefix of the padded blob, and blocks on the link are less than a window ahead of it and at most a window, or `resume_from`, behind |
| OtaAmbiguity.ResumeCondition | aqara_ble/ota.py:262-300 | for every window, resume point and pacing: no run makes the lock take a wrong block exactly when first transmissions cannot get 256 blocks ahead and repeats cannot happen or cannot be a positive multiple of 256 behind |
| OtaAmbiguity.WindowCondition | aqara_ble/ota.py:262-300 | from the start: exactly when the window is below 256, or there are at most 256 blocks, or the window is 256 and retransmission is off or the sender stalls before it can answer |
| OtaAmbiguity.OvertakeFails | aqara_ble/ota.py:280-300 | with room for more than 256 blocks, losing 256 makes the lock take the next one for the first |
| OtaAmbiguity.RepeatFails | aqara_ble/ota.py:284-294 | whenever a NAK can be answered in time with a block a multiple of 256 behind, a run makes the lock take it |
| OtaPacing.DoPaced | aqara_ble/ota.py:276-298 | every step keeps the pacing: blocks take their time since the start and since the last noticed ack, and a retransmission has the room and the time it needs |
| OtaRepair.AcksAccounted | aqara_ble/ota.py:254-277 | in every reachable state the blocks accepted are the acks heard, on their way and lost |
| OtaRepair.RetransmitsOldest | aqara_ble/ota.py:284-294 | in every reachable state the block a NAK repeats is behind the one the lock needs by the acks on their way or lost and by `resume_from - shift`, so it is that block exactly when both are zero |
| OtaRepair.ResumedRepeatsUseless | aqara_ble/ota.py:284-294 | in a setup that is not ambiguous, resumed with an unshifted base, every repeat on the link is at least `resume_from` blocks old and is rejected |
| OtaRepair.LossDooms | aqara_ble/ota.py:273-300 | in a setup that is not ambiguous and outside the case of `RepairCondition`: after the first transmission the lock needs is lost, whatever happens the lock never gets the whole image; it gets at most `max_resends` more blocks, and none when no repeat can be of use |
| OtaRepair.RepairCondition | aqara_ble/ota.py:273-300 | in a setup that is not ambiguous, some run loses such a block and yet delivers the whole image exactly when the window is 1, the base is at the resume point, `max_resends` is positive, a block is left after the lost one, and one block takes no longer than the stall limit |
| OtaRepair.LossPossible | aqara_ble/ota.py:273-300 | in a setup that is not ambiguous, such a loss can happen exactly when the effective window is positive and a block is left to send |
| OtaRepair.LoseLoses | aqara_ble/ota.py:273-300 | losing the block the lock waits for is such a loss, in every reachable state of a setup that is not ambiguous |
| OtaRepair.Budget | aqara_ble/ota.py:285-289 | in a setup that is not ambiguous there are never more repeats under way than retransmissions begun |
| OtaDelivery.LosslessDelivers | aqara_ble/ota.py:262-300 | in a setup that is not ambiguous, on every run that loses and damages no block: first transmissions on the link run without a gap from the block the lock needs to the last one sent, and once all are sent and the link is empty the lock's image starts with the blob |
| OtaDelivery.DeliveryCondition | aqara_ble/ota.py:262-300 | in a setup that is not ambiguous, some run brings the lock the whole image exactly when `resume_from - shift` is below the window or nothing was missing |
| AuthFraming.BuildAuthMessage | aqara_ble/framing.py:77-96 | the header filled in place is 00, type, 10 01 00, length, CRC of the body, lock token, seven zeros; other types and values too large fail, nothing else does |
| AuthFraming.ParseBuilt | aqara_ble/framing.py:129-144 | parsing inverts building, whatever follows the body, and the token that comes back is the body's CRC |
| AuthFraming.ParseExactly | aqara_ble/framing.py:129-144 | a string parses exactly when it has eighteen bytes and as many more as its length bytes say, and then to which type, tokens and body |
| AuthFraming.TrailingIgnored | aqara_ble/framing.py:129-144 | bytes after the declared body never change a parse |
| AuthFraming.FragmentAuthMessage | aqara_ble/framing.py:99-107 | for both directions, fragment i is the direction, 0xFF on the last and i before, and the payload from 18 i on cut to 18 bytes; one fragment for each started 18 bytes, at least one; fails exactly past 4626 bytes or for another direction |
| AuthFraming.AssembleAuthFragments | aqara_ble/framing.py:110-126 | the loop gives the contents in order or the error of the first bad fragment |
| AuthFraming.AssembleExactly | aqara_ble/framing.py:110-126 | assembly succeeds exactly on a non-empty list of fragments with direction and place right, the last place unchecked |
| AuthFraming.AssembleFragments | aqara_ble/framing.py:99-126 | assembling inverts fragmenting whenever fragmenting succeeds |
| AuthFraming.ReadFullAuthMessage | aqara_ble/session.py:476-484 | the reader skips empty notifications, stops at place 0xFF, and leaves the rest in the queue |
| AuthFraming.ReadExactly | aqara_ble/session.py:476-484 | for every queue: the reader stops at the first notification of one byte, an error, or with place 0xFF, and then assembles all before it but the empty ones in direction 0xDA; without one it times out |
| AuthFraming.StreamRoundTrip | aqara_ble/session.py:476-484 | any list of messages of at most 4608 bytes, with empty notifications anywhere among their fragments, is read back exactly |
| AuthFraming.CutShort | aqara_ble/session.py:476-484 | at 257 chunks the reader returns the first 4608 bytes and leaves one fragment, though batch assembly succeeds |
| AuthFraming.ReadBackExactly | aqara_ble/framing.py:99-107 | a message comes back with nothing left over exactly when it has at most 4608 bytes |
| AuthFraming.ExchangeExactly | aqara_ble/session.py:468-484 | build, fragment, read and parse give type, token, body and CRC exactly for types 6 and 7, fitting tokens and at most 4590 bytes |
| SessionSafety.Reachable | aqara_ble/session.py:351-387 | every task keeps its invariant in every interleaving |
| SessionSafety.MutualExclusion | aqara_ble/session.py:448-458 | at most one task for each device is in the session body, and the flag is up exactly while there is one |
| SessionSafety.ExitReleases | aqara_ble/session.py:947-949 | every way out, the gap between two attempts included, lowers the flag in the same step, and no other flag changes |
| SessionSafety.RejectedChangesNothing | aqara_ble/session.py:448-453 | a rejected caller changes no flag and no other task |
| SessionSafety.ActuatesOnce | aqara_ble/session.py:782-815 | over all attempts at most one control write of the operation or hook start, right after a whole handshake of its own attempt |
| SessionSafety.RetryOnlyBeforeActuation | aqara_ble/session.py:351-387 | a second attempt only after code 108 before actuation and before any follow-up, no third, at most two logins and one forced |
| SessionSafety.SubscriptionsBracket | aqara_ble/session.py:506-518 | notify-enable attempts precede everything else an attempt does, and all four are undone in order on exit, or the first few when cancelled |
| SessionSafety.UnsubscribesUnlessCut | aqara_ble/session.py:943-946 | an attempt that got to the inner `try` leaves with all four channels tried if and only if it does not leave by a cancellation of one of the first three |
| SessionSafety.CleanUpCutShort | aqara_ble/session.py:943-946 | a run in which the first unsubscription is cancelled and no other is tried |
| SessionSafety.OneEntryEach | aqara_ble/session.py:837-880 | over both attempts the output list has each follow-up at most once and in order, nothing from a retried attempt, and all of them on return |
| SessionExact.ActuatesItsOwn | aqara_ble/session.py:777-815 | over both attempts a call with a hook never writes the operation, and one without never starts a hook |
| SessionExact.ReturnedLog | aqara_ble/session.py:506-946 | the whole log of the last attempt of a call that returns: handshake, its own actuation once, at least its follow-ups, four unsubscriptions |
| SessionExact.TriedTwice | aqara_ble/session.py:351-387 | a call with a manager that reached the inner `try` ends with code 108 and nothing done to the lock only after a second attempt with a forced login |
| SessionExact.AttemptEnds | aqara_ble/session.py:371-387 | when an attempt is over, and that it is then retried, with a forced login, exactly when there is a manager, it was the first, the outcome is code 108 and nothing was done to the lock; any other outcome is final |
| SessionExact.FollowsTheCourse | aqara_ble/session.py:669-946 | what follows each await of an attempt that is not over; so it fails of itself only on a message that cannot be built, six messages without a 0x06 body of 33 bytes, or a wrong answer to the proof |
| SessionExact.LoginExactly | aqara_ble/auth.py:136-151 | the first `_login` runs exactly when the manager has no token, a successful one leaves a token, a failed one ends the call |
| SessionExact.EntersUnlessBusy | aqara_ble/session.py:448-458 | a caller ready for the session body is turned away exactly when another is in it for the same device, and otherwise enters in the same step |
| SessionRun.Operation.WriteAuthMessage | aqara_ble/session.py:468-474 | one write for each fragment, each followed by an await, ending where the machine does |
| SessionRun.Operation.ReadLockKey | aqara_ble/session.py:733-752 | the loop over six messages finds the lock's key or fails as the machine does |
| SessionRun.Operation.FollowUps | aqara_ble/session.py:837-880 | one write and one entry for each follow-up, in order, as the machine does |
| SessionRun.Operation.Subscribe | aqara_ble/session.py:506-518 | best-effort steps and subscriptions absorb every failure but a cancellation |
| SessionRun.Operation.CleanUp | aqara_ble/session.py:943-946 | the `finally` block leaves the body with its outcome, or cancelled |
| SessionRun.Operation.Once | aqara_ble/session.py:448-949 | the check, the flag, the body and the release are exactly the machine's steps from entering to leaving |
| SessionRun.Operation.BuildSigner | aqara_ble/auth.py:136-151 | `_login` runs when forced or when no token is cached, and success caches one |
| SessionRun.Operation.Run | aqara_ble/session.py:346-387 | the retry loop ends, and the world at its end is one that a run of the machine leads to |
| SessionRun.LockOperation | aqara_ble/session.py:346-387 | whatever others do before and meanwhile, one call actuates at most once, only after a handshake and only as its own kind, and has done so if it returns; logs in at most twice, and gives up on code 108 before the actuation only after a forced login; collects each entry once, and brackets its work with subscriptions |
| Burst.Session.AwaitReply | aqara_ble/session.py:855-879 | the wait loop returns, forwards and leaves what the reference wait does |
| Burst.Session.FollowUps | aqara_ble/session.py:837-880 | the burst loop appends one entry for each request as the reference burst does |
| Burst.ReadBurst | aqara_ble/client.py:637-665 | one write for each spec, with its prefix; every spec is paired, in order, with None or a reply that starts with its own first byte; fails only on a frame that cannot be decrypted |
| Burst.FirstAnswerWins | aqara_ble/session.py:855-879 | a wait takes frames in order and before the deadline, returns the first that starts with the opcode, forwards all before it, and ends at that arrival or at the deadline |
| Burst.WaitError | aqara_ble/session.py:865-872 | a wait fails exactly when the codec rejects a frame that comes in time and before any answer |
| Burst.Paired | aqara_ble/session.py:837-880 | one entry for each request, in order, and a reply never carries another opcode |
| Burst.NothingLost | aqara_ble/session.py:855-880 | every frame of two bytes or more taken off the queue is used exactly once, in the order of arrival |
| Listen.Listener.Listen | aqara_ble/session.py:882-934 | forwarding is complete and FIFO on each channel but for short frames and keepalive answers; keepalives are at least 20 s apart, and at most 20.1 s when writes take no time; nothing of the window is left; it fails only on a frame that cannot be decrypted |
| Listen.AfterOperation | aqara_ble/session.py:837-934 | over burst and window together, every control frame taken is used exactly once and in order, as a reply or forwarded, but for short frames and keepalive answers in the window |
| H4.ParseSplit | tools/esp32s3_hci_usb/main/main.c:79-111 | parsing a stream can stop anywhere and go on from the partial packet alone |
| H4.OnlyWellFormed | tools/esp32s3_hci_usb/main/main.c:55-108 | on any stream, each packet delivered is a command, ACL, synchronous, event or ISO packet of exactly the length in its header, at most 1029 bytes |
| H4.OversizeDropsHeader | tools/esp32s3_hci_usb/main/main.c:97-98 | of a packet too long for the buffer only the header is dropped; what follows is read as packets |
| H4.WellFormedStream | tools/esp32s3_hci_usb/main/main.c:79-111 | of a well-formed stream exactly its packets are delivered, in order, and bytes outside 1..5 between them change nothing |
| H4.Deframer.RxTask | tools/esp32s3_hci_usb/main/main.c:79-111 | over the 1029-byte buffer, for any split into short reads, delivered packets and buffer depend only on the bytes read, and each packet has exactly the length in its header |
| H4.Deframer.DeliversExactly | tools/esp32s3_hci_usb/main/main.c:79-111 | once a well-formed stream is read, its packets were delivered and the buffer is empty |
| H4.Deframer.SplitDoesNotMatter | tools/esp32s3_hci_usb/main/main.c:79-111 | two tasks that read the same bytes in different pieces delivered the same and hold the same partial packet |
| H4.TxItem | tools/esp32s3_hci_usb/main/main.c:37-50 | what goes out is as much of the item as the driver takes up to the first write that fails; the item is cut exactly when that is less than all |
| Hkdf.HkdfExpand | aqara_ble/cloud_crypto.py:49-69 | for 0 < length <= 8160 exactly `length` bytes, of which the first 32 are the MAC of info and 0x01, and every later block, as far as it goes, the MAC of the block before it, info and its number; else an error |
| Hkdf.OkmAt | aqara_ble/cloud_crypto.py:58-69 | byte i of the output is byte i mod 32 of T(i / 32 + 1) of section 2.3 of RFC 5869 |
| Hkdf.PrefixConsistent | aqara_ble/cloud_crypto.py:49-69 | a shorter request gives a prefix of a longer one |
| Base64.RoundTrip | aqara_ble/cloud_crypto.py:270-276 | decoding inverts encoding for every byte string |
| Base64.EncodeClean | aqara_ble/cloud_crypto.py:270-276 | encoded text has neither '-' nor white space, and four symbols for each started group of three bytes |
| Base64.EncodeAt | aqara_ble/cloud_crypto.py:270-276 | each group of four symbols is the 24-bit number of its three bytes in the alphabet of RFC 4648, with '=' for missing bytes |
| Envelope.RoundTrip | aqara_ble/cloud_crypto.py:263-289 | decrypting inverts encrypting for every plaintext, the empty one included, with white space around the blob |
| Envelope.BlobLayout | aqara_ble/cloud_crypto.py:263-276 | a blob has three parts between dashes: salt and a zero byte, as many sealed bytes as the plaintext has, and the sixteen after them; it takes a key of sixteen bytes |
| Envelope.DecryptsParts | aqara_ble/cloud_crypto.py:279-289 | decrypting any three encoded parts opens text and tag with the first sixteen bytes of the key and a nonce from the first sixteen of the salt |
| Envelope.OnlyThreeParts | aqara_ble/cloud_crypto.py:279-284 | nothing is decrypted but three parts with a key of at least sixteen bytes |
| Envelope.StripExactly | aqara_ble/cloud_crypto.py:282-282 | what `strip` removes is the white space at both ends, all of it and nothing else |

## Left out

- Packet: the link loses or damages whole blocks; losing single writes of a block counts as losing the block.
- Damages: a block may arrive as any string that the lock's checks tell from a good one; what they cannot tell (`Undetectable`, exact by `DamageExactly`) does not happen on the model's link.
- ImageIsPrefix: the lock acks each accepted block once and the ack of the init frame is counted in `base_ack`; an init ack that comes later widens the window by one.
- Valid: a setup has a window of at least 1, a positive MTU payload and a resume point inside the blob.
- ReadBurst: takes the list to be empty when the burst starts, as `OneEntryEach` proves for both attempts.
- DecryptBody: rejects what the standard decoder of Python skips (characters outside the alphabet); it decodes exactly the padded texts of the alphabet (`Base64.DecodesPadded`).
- Listener: how the event loop resolves a frame that arrives in the very instant a timer fires; the timer wins here.
- VoicePackSender: keepalives and the progress callback between blocks; to the machine a keepalive is one more pause, which it allows anywhere. Failing writes end the real loop with an exception and are not modelled.
- The arming reads, the manifest handshake and the activation writes of `run_voice_pack_ota`: straight-line sends with time-outs and no ordering guarantee.
- What a lock does besides accepting and acking blocks; its reports are arbitrary.
- The contents of a `post_auth` hook in the session model: it is any number of further writes.
- Best-effort steps before the subscriptions, beyond that they may fail and are absorbed.
- The cloud: an oracle that returns material or an error; HTTP, signing and JSON are not part of this model.
- AES-CCM, AES-GCM, HMAC and MD5 themselves: parameters, with decrypt-after-encrypt and output lengths where needed.
- BLE stacks and adapters, scanning, command-line interface, lock-state decoders and setting builders: they would only add easy members.
- Fairness: that a session ends at all depends on the environment answering or timing out.
