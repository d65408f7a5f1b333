# AFIK radio: a verified model

A Dafny model of the parts of the AFIK firmware where a mistake costs an owner something: the
configuration memory, the receive controller and the channels it walks, the APRS receiver, the
transceiver driver, the device half of the serial protocol, and the keypad. Each part is written
in the form its source has: fields updated in place become classes, loops become loops, and each
method is proved against a function or relation about which the system's promises are then proved
for every input, every run, and every way the hardware may fail.

## What is modelled

**Configuration memory** (`NorImage`, `NorDevice`, `Eeprom`, `StagedImage`, `StagedRun`,
`StagedFailure`, `CommitFailure`, `StagedGuard`, `Staged`, `StagedHost`).
A NOR device can only clear bits until a whole sector is erased. The device is a byte image, a
write-enable latch and an operation in progress; a transfer that fails or an operation that is cut
short leaves any mixture of the bytes before and after it that changes bits one way only. The
device keeps a trace of every image it has been in, so that "at every instant" is a statement about
that trace, and a list of its own faults: a transfer lost, a latch not taken, an operation still
running after every poll of it. No call fails by the device unless the device then adds the fault it
is blamed for, so that on a device without faults every call is decided by its arguments and by what
the device holds. Above it are the driver that splits programs at pages and polls for completion, and the
staged writer that gathers a host's eight-byte blocks in a spare region and swaps them in. The
central quantity is the *merge*: what a commit begun now would make of the live region. Every torn
step of a commit leaves the merge unchanged, which gives crash safety and retry together. What
failed writes and failed commits can cost is told by a ledger of the calls alone: for every byte it
keeps the value the host last wrote and a floor of the bits that staging is sure to have still. The
guard the ledger gives is exact: where it fails, a device exists on which the same calls, with the
same outcomes, leave the host with other bytes.

**Channels** (`SortedList`, `ChannelPlan`, `ChannelSpace`, `ChannelMemory`). Stored records sorted
by identifier, followed by generated plans sorted by bank whose channels are expanded one at a time
when asked for. The whole space is a sequence of records; each lookup that avoids building it is
proved to agree with it.

**Receive control** (`Marks`, `ReceiveControl`, `ReceiveHistory`, `ReceiveReport`,
`ReceiveController`). Selection, manual tuning, monitoring, dual watch and scanning as one function
from a state and an input to a state and an update, what runs of inputs make of the audio, the scan
and the watch, what each update tells the adapter that obeys it and the cause of each refusal, and
the class that does it in place.

**APRS** (`Fcs`, `Ax25`, `Ax25Wire`, `Discovery`). The strict parser of UI frames (AX.25 v2.2,
section 3.12 for addresses) with the printer it inverts and the bytes they agree on, the frame check
sequence of RFC 1662 appendix C.2 with its error detection, and the table of repeaters heard.

**Transceiver** (`TransceiverState`, `Transceiver`). The register driver over a bus in which any
call may fail and leave any register contents. The bus records each write of a mode other than
standby together with the frequency loaded at that moment, each write of an amplifier bias, and how
often it failed, so that the order of writes matters; the bit that switches the amplifier is followed
over whole runs, and what a call leaves in the registers is said by their numbers.

**Serial device** (`Replay`). The cache that answers a resent request, over a store and a receiver
that may do anything with a request that is performed, the window between handing a control request
out and answering it, and streams of every kind of request with answers in any order.

**Keys** (`Keys`). The debouncer, and what each edge says of the whole history of samples.

`Wrappers` holds the option and result types and the machine integers shared by all of them.

## Where the code and its documentation differ

- Staged writes are documented to lose nothing (`crates/radio-eeprom/src/staged.rs:1`). Failed
  commits do keep, in one region or the other, everything a further commit needs
  (`CommitsLoseNothing`), but two things are lost on the way. Until a commit passes, the host no
  longer reads the sector as it has written it (`staged.rs:65`): what it had not written over reads as
  erased once the live region is, exactly unless it was erased before
  (`ReadAfterFailedCommitExactlyWhen`). And a block the host then writes for the first time is accepted
  over the staging the commit has filled, since `staged.rs:123-133` checks a block against staging only
  when it is marked; it reads back wrong, and the next commit makes it live wrong, exactly unless it
  needs no bit its live bytes lacked (`WriteAfterFailedCommitExactlyWhen`,
  `CommitAfterThatExactlyWhen`; `FailedCommitCanSpoilABlock` is such a run).
- A failed *write* can leave its block short of bits in staging while the block is not marked as
  written, with the same lack of a check. So a commit made then can lose bits of the live block
  (`FailedWriteCanCostABlock`), unless the block was written before or the bytes sent have every
  live bit (`CommitAfterFailureIsExactExactlyWhen`); and sending *other* bytes next is accepted and
  read back wrong (`OtherBytesCanBeSpoiled`), unless the bits common to all the failed sends cover
  them (`AcceptedIsExactExactlyWhen`). Sending the same bytes again is always exact
  (`RetriedWriteIsFlat`). Runs with failures of both kinds are a flat array as long as the guard of
  `FailingRunIsFlatArray` holds, and `SureExactlyWhen` says that the guard is exact.
- A receive-control failure is documented to leave no partial state change
  (`crates/radio-channel-control/src/banked.rs:425`). That holds of every failure but running out of
  timer tokens, which comes after the change the timer was for: a new watch partner, the audio of a
  busy observation, the channel the watch swaps to, the audio and phase of a scan's move.
  `FailureChangesNothingExactlyWhen` gives the exact condition for every input, and
  `ExhaustedWatchLeavesItsPartner` is such a failure.
- Disarming dual watch while a scan runs clears the scan's timer and not the scan
  (`DualWatchKeepsStepExactlyWhen` gives the exact condition, `DisarmingStrandsAScan` a case). And
  tuning by hand, or going back to memory, while a watch is armed tells the adapter to cancel its
  timer and keeps the token active (`crates/radio-channel-control/src/banked.rs:744-795`), so that the
  watch never expires; `TimerAgreesExactlyWhen` says exactly what parts the two.
- Entering transmission is documented to leave the power amplifier disabled
  (`crates/radio-bk4819/src/transmit.rs:138`). Nothing there or in stopping clears its bit, so the
  amplifier is on again if an enable before was not followed by a disable or a reset
  (`TransmissionStartsWithPaOffExactlyWhen`; `PaStaysOnWhenSentAgain` is such a run).
- A resent runtime-control request is documented to be answered from memory rather than performed a
  second time (`crates/radio-device/src/lib.rs:381-384`). The memory learns of it only when it is
  answered, so a copy that arrives while the first is handed out is handed out and performed as well
  (`CopiesBeforeTheAnswerAllTakeEffect` counts them, `OvertakingCopyIsPerformedTwice` is a case), and
  so is one that arrives when another request has been settled since
  (`InterleavedCopyIsPerformedTwice`).

## Model

| member | source | states |
|---|---|---|
| NorImage.PageProgramIsAnd | crates/radio-eeprom/src/lib.rs:456-484 | A program that stays inside one page, done byte by byte with the device's wrap, is one bitwise AND at its address |
| NorImage.TornStaysInside | crates/radio-eeprom/src/lib.rs:456-484 | However an operation is torn, no byte outside the range it was for changes |
| NorDevice.NorDevice.Transfer | crates/radio-eeprom/src/lib.rs:76-97 | One chip-selected transfer: a failed or interrupted program or erase leaves any one-way mixture, every image passed through is recorded, and so is every fault |
| Eeprom.Claim | crates/radio-eeprom/src/lib.rs:181-195 | A region is granted exactly when it is whole sectors above the vendor area and inside the device, and refused for the first of these it is not |
| Eeprom.Resolve | crates/radio-eeprom/src/lib.rs:222-227 | An access resolves exactly when it lies inside the region, and its address never overflows |
| Eeprom.PageSplit | crates/radio-eeprom/src/lib.rs:528-531 | The largest transfer from an address ends exactly at the page's end |
| Eeprom.HeaderRoundTrip | crates/radio-eeprom/src/lib.rs:534-546 | The device decodes the address the driver encoded, highest byte first |
| Eeprom.ChangeIsGuarded | crates/radio-eeprom/src/lib.rs:430-484 | A change confined to the claimable area leaves every byte below 0x20000 and from 0x200000 up as it was, in every image it passes through |
| Eeprom.Eeprom.SetWriteEnable | crates/radio-eeprom/src/lib.rs:487-495 | Success means the latch is set, failure a transfer lost or the latch refused; no byte changes either way |
| Eeprom.Eeprom.AwaitReady | crates/radio-eeprom/src/lib.rs:507-515 | Success means the operation in progress completed; failure leaves it torn at most, and is a transfer lost or an operation still running after every poll |
| Eeprom.Eeprom.BeginEraseSector | crates/radio-eeprom/src/lib.rs:430-447 | An erase is issued only for an aligned sector between the vendor area and the device's end, with the latch set, and always unless the address is refused or the device is at fault |
| Eeprom.Eeprom.BeginProgramPage | crates/radio-eeprom/src/lib.rs:456-484 | A program is issued only inside one page and the claimable area, with the latch set, and always unless the range is refused or the device is at fault |
| Eeprom.Eeprom.Read | crates/radio-eeprom/src/lib.rs:295-309 | Returns the region's bytes at any offset and length that fit, refuses exactly the rest, and fails otherwise only by a fault of the device |
| Eeprom.Eeprom.ReadVendor | crates/radio-eeprom/src/lib.rs:319-335 | Returns the bytes the device had before the driver existed, whatever has been written since |
| Eeprom.Eeprom.Erase | crates/radio-eeprom/src/lib.rs:338-344 | Erases exactly the region, sector by sector; it fails only by a fault of the device, and then leaves a one-way mixture |
| Eeprom.Eeprom.Program | crates/radio-eeprom/src/lib.rs:368-385 | However pages split it, a program is one AND of all its bytes; it fails on range exactly when it does not fit, and then does nothing, and otherwise only by a fault of the device |
| Eeprom.Eeprom.Write | crates/radio-eeprom/src/lib.rs:351-363 | Success leaves the bytes and erased flash after them; it fails exactly on bytes too many or a fault of the device, and nothing outside the region changes in any case |
| Eeprom.Eeprom.IsReady | crates/radio-eeprom/src/lib.rs:392-394 | Ready means the operation in progress completed and nothing is in progress; not ready leaves it in progress |
| Eeprom.Eeprom.IssueErase | crates/radio-eeprom/src/lib.rs:397-406 | Starts one sector's erase without waiting, refused exactly past the region |
| Eeprom.Eeprom.IssueProgram | crates/radio-eeprom/src/lib.rs:412-421 | Starts one page's program without waiting, refused exactly past the region or the page |
| StagedImage.WithSetMarksOne | crates/radio-eeprom/src/staged.rs:133-174 | Marking a block marks that block and no other |
| StagedImage.FillStepIsSafe | crates/radio-eeprom/src/staged.rs:153-159 | A torn program of an unwritten block into staging changes neither the live bytes nor the merge |
| StagedImage.EraseStepIsSafe | crates/radio-eeprom/src/staged.rs:160 | A torn erase of the live region leaves staging whole and the merge unchanged |
| StagedImage.CopyStepIsSafe | crates/radio-eeprom/src/staged.rs:161-167 | A torn copy of a page back leaves staging whole and the merge unchanged |
| StagedRun.AcceptedWriteIsFlat | crates/radio-eeprom/src/staged.rs:108-135 | An accepted write replaces exactly its eight bytes in what the host reads, first writes and re-writes alike |
| StagedRun.FailedWriteKeepsOverlay | crates/radio-eeprom/src/staged.rs:108-135 | A write the bus failed changes nothing the host reads, unless it was re-writing that block |
| StagedRun.CommitsLoseNothing | crates/radio-eeprom/src/staged.rs:13-15 | Crash safety over any number of commit attempts: in every image the device passes through, the old contents are all live or the new contents are all in staging |
| StagedRun.FirstPassingCommitIsExact | crates/radio-eeprom/src/staged.rs:137-169 | However many attempts fail, wherever and however torn, the one that passes makes live exactly what the host read back before the first |
| StagedRun.RunIsFlatArray | crates/radio-eeprom/src/staged.rs:70-169 | Over every run without a bus failure the staged region is a flat byte array under accepted writes, refusals and commits |
| StagedFailure.CommitAfterFailureIsExactExactlyWhen | crates/radio-eeprom/src/staged.rs:108-169 | After a failed write on a clean session, open or not, every way of tearing it leaves commits giving what the host reads, if and only if its block was written before in the session or the bytes sent have every bit of the live ones |
| StagedFailure.AcceptedIsExactExactlyWhen | crates/radio-eeprom/src/staged.rs:123-133 | After any failed sends of a block, an accepted write of other bytes reads back exactly for every way of tearing them, if and only if the block was written before or the AND of all that was sent covers the new bytes |
| StagedFailure.TrustedWriteIsFlat | crates/radio-eeprom/src/staged.rs:108-135 | Under that guard the accepted write replaces exactly its eight bytes and the session is clean again |
| StagedFailure.RetriedWriteIsFlat | crates/radio-eeprom/src/staged.rs:108-135 | Sending a block again after any number of failed sends of it, written before or not, gives exactly what one successful write would have |
| StagedFailure.FailingRunIsFlatArray | crates/radio-eeprom/src/staged.rs:70-169 | Over every run in which writes and commits fail anywhere, torn in any way, the ledger of calls stays true of the device, as long as each write accepted and each commit passed was sure by that ledger |
| StagedFailure.StandingIsReadable | crates/radio-eeprom/src/staged.rs:70-99 | A ledger true of the device says what the host reads back, with a failed commit outstanding too (every bit of the array, and of its own blocks the array), what a commit would make live, and what is live with no write open |
| StagedFailure.FailedWriteCanCostABlock | crates/radio-eeprom/src/staged.rs:130-135 | A failed first write over an erased device after which a commit would not give the host what it reads |
| StagedFailure.OtherBytesCanBeSpoiled | crates/radio-eeprom/src/staged.rs:123-133 | After that failure eight 0xF0 bytes are accepted, and what is read back is neither them nor what was there |
| CommitFailure.ReadAfterFailedCommitExactlyWhen | crates/radio-eeprom/src/staged.rs:65-99 | On a clean open session, the host reads after a failed commit what it read before, wherever it stopped, if and only if every live byte it had not written over was erased |
| CommitFailure.WriteAfterFailedCommitExactlyWhen | crates/radio-eeprom/src/staged.rs:123-169 | A block accepted after a failed commit reads back as sent, wherever that stopped, if and only if it was written before in the session or its live bytes cover it |
| CommitFailure.CommitAfterThatExactlyWhen | crates/radio-eeprom/src/staged.rs:123-169 | Under exactly the same condition the commit that then passes makes live what was read before the failed one, with the block replaced |
| CommitFailure.FailedCommitCanSpoilABlock | crates/radio-eeprom/src/staged.rs:142-169 | A session of one block whose commit fails as its copy begins: zeroes read as erased, a block of 0xF0 bytes is accepted and reads back as zeroes, and the next commit makes the zeroes live |
| CommitFailure.FailedCommitsAreOne | crates/radio-eeprom/src/staged.rs:137-146 | Any number of failed attempts leave the device as one failed attempt could |
| StagedGuard.SureExactlyWhen | crates/radio-eeprom/src/staged.rs:108-169 | After any run of which the guard held, with writes and commits failing anywhere, an accepted write or passing commit gives the host what it wrote on every device on which the same calls can have ended the same way, if and only if the guard holds of it |
| StagedGuard.UnsureRunCanGoWrong | crates/radio-eeprom/src/staged.rs:108-169 | A run of calls of which the guard fails somewhere has a device on which they end the same way and go wrong there |
| Staged.Staged.Pair | crates/radio-eeprom/src/staged.rs:46-57 | Regions are paired exactly when they have one size, fit the bitmap and do not overlap |
| Staged.Staged.Read | crates/radio-eeprom/src/staged.rs:70-99 | Returns the overlay's bytes at any offset and length, across block boundaries; unless the device is at fault it fails exactly past the region |
| Staged.Staged.Write | crates/radio-eeprom/src/staged.rs:108-135 | Refuses exactly a bad offset or a block needing bits set again, changing nothing; otherwise programs and marks the block, or fails partway by a fault of the device; every image on the way keeps the live region byte for byte |
| Staged.Staged.Commit | crates/radio-eeprom/src/staged.rs:142-169 | Passes through crash-safe images only; success makes live the merge and closes the write, failure keeps it open, and it fails only by a fault of the device |
| StagedHost.Make | crates/radio-eeprom/src/staged.rs:70-169 | One write or commit by a host is one step of the run relation, failed by the bus exactly when the device was then at fault |
| StagedHost.Play | crates/radio-eeprom/src/staged.rs:70-169 | Over any sequence of writes and commits there is a bus failure exactly when there was a fault of the device; and without any, each commit passes, each write passes exactly when its block is aligned, inside and permitted, and the region reads as the flat array of those that passed |
| SortedList.UpsertIsUpdate | crates/radio-channel-control/src/banked.rs:90-114 | Inserting in place keeps the order strict and is an update of the map from key to element |
| SortedList.ShiftUp | crates/radio-channel-control/src/banked.rs:106-110 | The in-place loop opens one slot and moves the rest up unchanged |
| ChannelPlan.LinearIsValid | crates/radio-channel-plan/src/lib.rs:723-770 | A plan the constructor accepts keeps every frequency in range, on the raster if broadcast, and every name in its field |
| ChannelPlan.LinearAcceptsExactlyWhen | crates/radio-channel-plan/src/lib.rs:723-770 | A plan is accepted if and only if its bank and count are allowed, both ends and both their offsets are frequencies, a broadcast plan is simplex and on the raster, its tones are valid and its name starts with more than spaces; and it is then what was asked for, numbered from one |
| ChannelPlan.DerivedDesignatorExactlyWhen | crates/radio-channel-plan/src/lib.rs:983-1000 | The prefix of a plan is its name's first three bytes without trailing spaces, and a space; there is none exactly when they are all spaces |
| ChannelPlan.NumberingFitsExactlyWhen | crates/radio-channel-plan/src/lib.rs:808-829 | A numbering is accepted if and only if its last number has sixteen bits and every channel's own name, the calling one's included, fits the field |
| ChannelPlan.ChangeTakesExactlyWhen | crates/radio-channel-plan/src/lib.rs:777-804 | A new designator, first number or calling channel is taken as asked if and only if the channel is the plan's and every name still fits |
| ChannelPlan.CodeIsValidExactlyWhen | crates/radio-domain/src/lib.rs:138-150 | A DCS code is valid if and only if it is three octal digits, not all zero |
| ChannelPlan.EveryBuiltPlanExpands | crates/radio-channel-plan/src/lib.rs:723-826 | However an accepted plan is re-designated and re-marked, it expands at exactly the indices below its count, at base + index × spacing |
| ChannelPlan.ExpansionNeverFails | crates/radio-channel-plan/src/lib.rs:891-974 | Every expanded record is valid, transmits at receive + offset, prints its own number, leads by its identifier back to its index, and takes its tones, modulation, bandwidth, power, step and other flags from the template |
| ChannelPlan.NamesAreDistinct | crates/radio-channel-plan/src/lib.rs:939-974 | No two channels of a plan have one name |
| ChannelPlan.DigitsPrintTheNumber | crates/radio-channel-plan/src/lib.rs:954-965 | The digits of a name read back as the channel's number |
| ChannelPlan.BuildChannelName | crates/radio-channel-plan/src/lib.rs:939-974 | The fixed-field digit loop writes the designator, the number and the calling suffix, or fails as specified |
| ChannelSpace.TotalAfterInstall | crates/radio-channel-control/src/banked.rs:208-236 | Installing a plan moves the expanded total by its count less the count it replaces |
| ChannelSpace.LocatedRecord | crates/radio-channel-control/src/banked.rs:286-307 | The prefix-sum search lands on the record at that offset of the whole expansion, in the located plan's bank |
| ChannelSpace.FindGivesBackExactlyWhen | crates/radio-channel-control/src/banked.rs:272-280 | Finding a banked record by bank and identifier gives that record back, exactly unless storage holds it under a reserved identifier no plan expands to it |
| ChannelSpace.StoredWithoutItsPlan | crates/radio-channel-control/src/banked.rs:272-280 | Any plan's own record, stored where no plan is installed, is in the space and is not found; and there are such plans |
| ChannelSpace.FindAfterInsert | crates/radio-channel-control/src/banked.rs:90-123 | After storing a channel its identifier finds it in its own bank and nowhere else; every other lookup answers as before |
| ChannelSpace.FindAfterInstall | crates/radio-channel-control/src/banked.rs:208-280 | After installing a plan, reserved identifiers of its bank find a record exactly below its count, at base + index × spacing; every other lookup answers as before |
| ChannelMemory.ChannelMemory.Insert | crates/radio-channel-control/src/banked.rs:90-114 | Fails exactly when the identifier is new and no slot is free; otherwise the contents are the sorted update |
| ChannelMemory.ChannelMemory.Find | crates/radio-channel-control/src/banked.rs:117-123 | Finds exactly the record with the identifier |
| ChannelMemory.ProgrammedMemory.Install | crates/radio-channel-control/src/banked.rs:208-245 | Accepts exactly when there is a slot or a plan to replace and the resulting space fits a 16-bit index; banks stay strictly ascending and the total exact |
| ChannelMemory.ProgrammedMemory.Find | crates/radio-channel-control/src/banked.rs:272-280 | Answers as the whole space would, building at most one record |
| ChannelMemory.ProgrammedMemory.Len | crates/radio-channel-control/src/banked.rs:313-315 | The length of the space, saturated; no index below it lacks a record |
| ChannelMemory.ProgrammedMemory.Get | crates/radio-channel-control/src/banked.rs:298-322 | The record at every index of the space, and none past it |
| ChannelMemory.ProgrammedMemory.MemberAt | crates/radio-channel-control/src/banked.rs:286-334 | Membership decided without a record is membership of the record at that index |
| ChannelMemory.ProgrammedMemory.PlaceOf | crates/radio-channel-control/src/banked.rs:53-57 | The counting loop gives the bank and position of the record at that index |
| ChannelMemory.ProgrammedMemory.IndexOf | crates/radio-channel-control/src/banked.rs:60-64 | The searching loop gives the index of that position of the bank, or nothing exactly when the bank has fewer |
| Marks.NthUndoesCount | crates/radio-channel-control/src/banked.rs:678-706 | Counting and selecting undo each other, and there is an n-th for exactly the n below the total |
| Marks.NearestIsNext | crates/radio-channel-control/src/banked.rs:1069-1101 | The nearest eligible index around the end is the one of the next or previous rank, and there is none exactly when nothing is eligible |
| Marks.NextInOrder | crates/radio-channel-control/src/banked.rs:1069-1101 | The next or previous eligible index by rank is the first one past the start in that direction, around the end |
| Marks.BackUndoesOn | crates/radio-channel-control/src/banked.rs:732-741 | A step one way is undone by a step the other way |
| Marks.TurnsVisitEachOnce | crates/radio-channel-control/src/banked.rs:1012-1030 | Going round visits every eligible index exactly once before it is back |
| ReceiveControl.VisiblePositionsAreSelectable | crates/radio-channel-control/src/banked.rs:678-714 | A position is selectable exactly below the number of visible channels, is then the position selected, and the selection's own position selects it |
| ReceiveControl.PreviousUndoesNext | crates/radio-channel-control/src/banked.rs:732-741 | Next then previous, or previous then next, never fails and returns to the same channel |
| ReceiveControl.PlacesAndIndicesAreInverse | crates/radio-channel-control/src/banked.rs:53-64 | A place in a bank and a storage index lead to each other |
| ReceiveControl.KeptPlaceSurvives | crates/radio-channel-control/src/banked.rs:529-567 | Rebuilding over any source that leaves the channel's bank alone keeps the operator on an equal record at the same place |
| ReceiveControl.ActivationFindsAChannel | crates/radio-channel-control/src/banked.rs:529-567 | Activation succeeds exactly when the configuration is valid and the view has a channel, on the kept place or else the first |
| ReceiveControl.InputKeepsGood | crates/radio-channel-control/src/banked.rs:637-1030 | Every input leaves the held record the source's own, in the view, and manual tuning not scanning |
| ReceiveControl.TokensIncrease | crates/radio-channel-control/src/banked.rs:1103-1112 | An input arms the next token or none, so tokens strictly increase; exhaustion is reported only at the last |
| ReceiveControl.StaleTokensChangeNothing | crates/radio-channel-control/src/banked.rs:946-954 | A token that is not the active one changes nothing in the controller or the adapter |
| ReceiveControl.FailureChangesNothingExactlyWhen | crates/radio-channel-control/src/banked.rs:425-441 | For every consistent controller and every input, a failure leaves the controller as it was if and only if it is not exhaustion of tokens or what the input would have changed is already so |
| ReceiveControl.ExhaustedWatchLeavesItsPartner | crates/radio-channel-control/src/banked.rs:810-835 | With no token left, asking for dual watch fails and leaves its partner behind |
| ReceiveControl.InputKeepsStep | crates/radio-app/src/interface.rs:787-805 | An adapter obeying the directives holds exactly the active token, active exactly while scanning, after every input but dual watch |
| ReceiveControl.DualWatchKeepsStepExactlyWhen | crates/radio-channel-control/src/banked.rs:810-835 | Dual watch keeps that agreement if and only if it is refused, or arms during a scan, or disarms outside one |
| ReceiveControl.DisarmingStrandsAScan | crates/radio-channel-control/src/banked.rs:810-835 | Giving dual watch up during a scan leaves the scan running with no timer |
| ReceiveControl.RunStaysInStep | crates/radio-channel-control/src/banked.rs:637-1112 | Over every run of inputs the controller stays good and, while tokens last, in step with its adapter |
| ReceiveControl.MovesGoRound | crates/radio-channel-control/src/banked.rs:875-1030 | Dwells that run out and quiet channels skipped, in any mixture, walk the eligible channels in turn |
| ReceiveControl.ScanVisitsEachOnce | crates/radio-channel-control/src/banked.rs:1012-1030 | A scan from an eligible channel visits every eligible channel exactly once before it is back where it started |
| ReceiveHistory.AudioIsOpenExactlyWhen | crates/radio-channel-control/src/banked.rs:797-940 | Over every run, audio is open if and only if, counting from the last observation or retune, the channel observed was busy or the monitor was on at some point since: switching the monitor off leaves audio open |
| ReceiveHistory.HeldScanLeavesExactlyWhen | crates/radio-channel-control/src/banked.rs:896-969 | A held scan moves to the next channel in turn exactly when its resume rule says (its own timer, the carrier going, or never), ends exactly when stopped or a channel is selected, and otherwise keeps its channel |
| ReceiveHistory.DwellingScanLeavesExactlyWhen | crates/radio-channel-control/src/banked.rs:874-969 | A dwelling scan holds exactly on a busy observation with a token left and a rule that does not stop there, and moves only on a skip or its own timer |
| ReceiveHistory.HeldScanStays | crates/radio-channel-control/src/banked.rs:896-969 | Over any run in which neither happens a held scan stays on its channel |
| ReceiveHistory.ScanGoesRound | crates/radio-channel-control/src/banked.rs:874-1030 | Over every run of inputs through which a scan goes on, holds and restarts included, it is on the channel its number of moves takes it to in turn |
| ReceiveHistory.EveryChannelIsVisited | crates/radio-channel-control/src/banked.rs:874-1030 | A scan that has moved as often as there are eligible channels has been on every one of them, whatever else happened meanwhile |
| ReceiveHistory.WatchSwaps | crates/radio-channel-control/src/banked.rs:971-1004 | An expiry of the watch swaps the channel selected with the one watched, or keeps both while audio is open |
| ReceiveHistory.WatchAlternates | crates/radio-channel-control/src/banked.rs:971-1004 | Over any number of expiries with the audio closed the watch goes back and forth between the two channels |
| ReceiveReport.UpdateTellsSelection | crates/radio-channel-control/src/banked.rs:637-1040 | Whatever succeeds reports the audio as it leaves it, a retune exactly to the selection it leaves and none only where the tuning is unchanged, and arms holds for the hold time and all else for the dwell time |
| ReceiveReport.RetuneReportedExactlyWhen | crates/radio-channel-control/src/banked.rs:637-1040 | A success reports a retune if and only if it selects, tunes, sets the monitor, swaps a watch or moves a scan that has somewhere to go |
| ReceiveReport.ReceiverFollows | crates/radio-app/src/interface.rs:787-805 | Over every run in which no input finds the tokens gone, a receiver that does what each update says is tuned to the controller's selection and heard exactly while audio is open |
| ReceiveReport.TuningFollowsExactlyWhen | crates/radio-channel-control/src/banked.rs:971-1004 | With no token left it stays so tuned if and only if the input is not a watch swapping channels |
| ReceiveReport.TimerAgreesExactlyWhen | crates/radio-app/src/interface.rs:787-805 | From any state in which the adapter holds the active token, watches included, an input leaves it so if and only if it is not an expiry that fails, nor tuning by hand or leaving it while a token is active |
| ReceiveReport.RefusedExactlyWhen | crates/radio-channel-control/src/banked.rs:637-1040 | For every input, the one cause of each of the six errors, and success without it |
| ReceiveReport.OtherwiseUnchanged | crates/radio-channel-control/src/banked.rs:637-1040 | The view, the manual tuning, the mode, the partner and the channel change only by the inputs that are for them, and only starting a scan leaves rest |
| ReceiveReport.NeighboursComeInOrder | crates/radio-channel-control/src/banked.rs:732-741 | Next and previous land on the first channel of the view past the selection, up or down the space, and start again at the other end |
| ReceiveReport.ScanMovesInOrder | crates/radio-channel-control/src/banked.rs:1012-1030 | A scan's move lands on the first channel past it that is in view and not skipped, starting again after the last |
| ReceiveReport.ViewStartsOnItsFirst | crates/radio-channel-control/src/banked.rs:637-643 | A new view starts at rest on its first channel and watches nothing, and is refused exactly when it has none |
| ReceiveReport.CallingIsTheLeast | crates/radio-channel-control/src/banked.rs:719-729 | Calling goes to the calling channel of least index in the view, and is refused exactly when it has none |
| ReceiveReport.SelectingByIndex | crates/radio-channel-control/src/banked.rs:645-667 | A channel is selected exactly when the space has it and the view shows it |
| ReceiveReport.VfoStartsOnTheChannel | crates/radio-channel-control/src/banked.rs:744-770 | Entering manual tuning tunes to just what going back to the channel would; both are refused exactly while scanning |
| ReceiveReport.ChannelIsReceivedAs | crates/radio-channel-control/src/banked.rs:1132-1154 | A channel is received where it is sent when reversed and with the squelch open while monitoring, with its own modulation, bandwidth, receive tone and step |
| ReceiveReport.VfoIsReceivedAs | crates/radio-channel-control/src/banked.rs:1032-1037 | Manual tuning is received as it stands, with the squelch open while monitoring |
| ReceiveReport.StepsGoTheirWay | crates/radio-channel-control/src/banked.rs:1039-1067 | A step up raises the frequency by the step and a step down lowers it, refused exactly past either end, and a step the other way undoes it |
| ReceiveReport.TuningByNumber | crates/radio-channel-control/src/banked.rs:783-795 | Tuning by number changes the frequency alone, and is refused with the channel mode exactly outside manual tuning |
| ReceiveReport.ConfigIsRefusedFor | crates/radio-channel-control/src/banked.rs:529-567 | Activation refuses a configuration for a time of nothing or else a choice past the last, and a valid one exactly for an empty view |
| ReceiveReport.ActivationStartsQuietly | crates/radio-channel-control/src/banked.rs:529-567 | A controller starts on its channel in memory mode, at rest and quiet, watching nothing, with every token ahead of it |
| ReceiveController.BankedReceiveController.ActivateAt | crates/radio-channel-control/src/banked.rs:529-567 | Builds the controller on the kept place if it survives in the view, else on the view's first channel, with no timer |
| ReceiveController.BankedReceiveController.Neighbour | crates/radio-channel-control/src/banked.rs:1069-1101 | The walking loop finds the least cyclic successor that is eligible, and fails exactly when there is none |
| ReceiveController.BankedReceiveController.SelectCalling | crates/radio-channel-control/src/banked.rs:719-729 | Selects the first calling channel of the view, or changes nothing |
| ReceiveController.BankedReceiveController.Observe | crates/radio-channel-control/src/banked.rs:896-940 | The method does what the observation step says, of which the audio, the hold and the resume rule are stated above |
| ReceiveController.BankedReceiveController.TimerElapsed | crates/radio-channel-control/src/banked.rs:946-1004 | The active token's expiry moves a dwelling scan, moves or renews a held one by the resume rule, and swaps the watched channels unless audio is open; any other token does nothing |
| ReceiveController.BankedReceiveController.AdvanceScan | crates/radio-channel-control/src/banked.rs:1012-1030 | Moves to the next eligible channel and reports its tuning, or dwells again where it is |
| Fcs.FcsAccumulator | crates/radio-aprs/src/ax25.rs:236-249 | The nested bit loop computes the check sequence, of which the rows below say where it starts |
| Fcs.FirstBitsEnterComplemented | crates/radio-aprs/src/ax25.rs:236-249 | As RFC 1662 has it, the first sixteen bits of any message enter complemented into a register of zeroes |
| Fcs.LeadingZeroesCountExactlyWhen | crates/radio-aprs/src/ax25.rs:236-249 | Zero bytes put before a message change its check sequence, unless and only unless their number brings the register back to where it started |
| Fcs.ZeroByteCounts | crates/radio-aprs/src/ax25.rs:236-249 | One zero byte, and two, always change it |
| Fcs.NineDigits | crates/radio-aprs/src/ax25.rs:236-249 | The check sequence of the nine digits is the published one |
| Fcs.GoodExactlyWhenComplemented | crates/radio-aprs/src/ax25.rs:141-143 | For a message of any length, two bytes after it give the residue 0xF0B8 if and only if they are the little-endian complement of its check sequence |
| Fcs.BurstsAreDetected | crates/radio-aprs/src/ax25.rs:141-143 | Any change confined to sixteen consecutive bits of a frame of any length destroys the good residue |
| Fcs.AdjacentBytesAreDetected | crates/radio-aprs/src/ax25.rs:141-143 | Changing any one byte or two adjacent bytes does |
| Fcs.OddErrorsAreDetected | crates/radio-aprs/src/ax25.rs:141-143 | Any odd number of flipped bits, anywhere in a frame of any length, changes the check sequence |
| Ax25.AddressRoundTrip | crates/radio-aprs/src/ax25.rs:194-234 | Every callsign, SSID and flag printed parses back |
| Ax25.AddressIsCanonical | crates/radio-aprs/src/ax25.rs:194-234 | Every address accepted is the printed form of what it parsed to |
| Ax25.ParseAddress | crates/radio-aprs/src/ax25.rs:194-234 | The byte loop decodes the address, and what it accepts it would print the same |
| Ax25.FrameRoundTrip | crates/radio-aprs/src/ax25.rs:134-192 | Every frame with valid callsigns, up to eight digipeaters and 1 to 256 information bytes parses back from its printed form |
| Ax25.FrameIsCanonical | crates/radio-aprs/src/ax25.rs:134-192 | Whatever is accepted is the printed form of what is returned, check bytes included |
| Ax25.AcceptedExactlyWhenPrinted | crates/radio-aprs/src/ax25.rs:134-192 | The parser accepts exactly the printed frames |
| Ax25.PrintingIsInjective | crates/radio-aprs/src/ax25.rs:134-192 | Different valid frames are printed differently |
| Ax25.BurstIsRefused | crates/radio-aprs/src/ax25.rs:141-143 | A good frame hit by a burst of up to sixteen bits is refused for its check bytes |
| Ax25.OddErrorIsRefused | crates/radio-aprs/src/ax25.rs:141-143 | A good frame with an odd number of bits flipped is refused for its check bytes |
| Ax25.ParseUiFrame | crates/radio-aprs/src/ax25.rs:134-192 | The parsing loops accept and refuse as the inverse of the printer does, with each error in its own case |
| Ax25Wire.WireLayout | crates/radio-aprs/src/ax25.rs:134-234 | A printed frame byte by byte: destination, source and digipeaters a bit up with their flags, numbers and the mark of the last, control 0x03, protocol 0xF0, the information, and the complemented check sequence, low byte first |
| Ax25Wire.RefusedAtTheStart | crates/radio-aprs/src/ax25.rs:134-161 | Size, then check bytes, then destination, then source decide, each with its own error |
| Ax25Wire.RefusedAlongThePath | crates/radio-aprs/src/ax25.rs:162-192 | With any number of digipeaters read in order: at the end of the path the control byte, protocol byte and length of the information decide in turn, and otherwise a ninth digipeater, the end of the frame, and the next address |
| Discovery.AppliedIsLastWriterWins | crates/radio-aprs/src/table.rs:166-262 | The table is a map from identity to newest report: which reports take their place, and that nothing else changes |
| Discovery.AnswersExactlyWhen | crates/radio-aprs/src/table.rs:166-262 | When each of the six updates and the error is answered: stale, conflict, removed, updated, unchanged, inserted into the first free slot, full |
| Discovery.LiveAreCounted | crates/radio-aprs/src/table.rs:166-262 | Whoever counts the updates always knows how many repeaters held are live |
| Discovery.NothingIsEvicted | crates/radio-aprs/src/table.rs:166-192 | A slot in use keeps its identity and never goes back in time; the table reports full exactly for an unknown live repeater and no free slot |
| Discovery.RunEvictsNothing | crates/radio-aprs/src/table.rs:166-262 | The same over every run, with no identity in two slots |
| Discovery.RunHoldsNewest | crates/radio-aprs/src/table.rs:166-262 | After any reports of identities it holds, each slot holds the newest of its own |
| Discovery.OrderDoesNotMatter | crates/radio-aprs/src/table.rs:166-262 | The same consistent reports in any order and number leave exactly the same slots |
| Discovery.OrderMattersExactlyWhen | crates/radio-aprs/src/table.rs:210-233 | Two reports in either order differ if and only if they are of one identity and one time newer than the table, and not the same |
| Discovery.UnknownKillOrderMattersExactlyWhen | crates/radio-aprs/src/table.rs:165-177 | For an identity not held, a report and its kill in either order differ if and only if the kill is newer, which is to say only where the kill coming first would need receive times to run backwards |
| Discovery.ExpiredForgetsOldOnly | crates/radio-aprs/src/table.rs:195-204 | Dropping old reports forgets exactly the identities last heard before the time |
| Discovery.DiscoveryTable.Apply | crates/radio-aprs/src/table.rs:166-192 | The slot array is updated in place by one report, with each of the six outcomes in its own case |
| Discovery.DiscoveryTable.ExpireBefore | crates/radio-aprs/src/table.rs:195-204 | Empties exactly the old slots and counts them |
| TransceiverState.ShippedProfilesAreWellFormed | crates/radio-bk4819/src/receive.rs:211-318 | Neither shipped chip's tables reach a register the driver's states speak of, and neither receives with a transmit word |
| TransceiverState.OutcomeIsTruthful | crates/radio-bk4819/src/lib.rs:256-357 | Under any bus failure, the state reported after a call is true of the chip: mode word, loaded frequency, and the frequency the mode was entered with |
| TransceiverState.WordsTellFrequency | crates/radio-bk4819/src/lib.rs:100-110 | The two words a frequency is loaded as are its halves in units of 10 Hz, and tell it back |
| TransceiverState.RunTellsHertz | crates/radio-bk4819/src/transmit.rs:85-221 | Over every run with any failures, in each state that names a frequency registers 0x39 and 0x38 hold just that frequency |
| TransceiverState.StatesAllowExactly | crates/radio-bk4819/src/lib.rs:256-357 | State by state, exactly the operations it allows |
| TransceiverState.RefusedExactlyWhen | crates/radio-bk4819/src/lib.rs:295-317 | A call is refused for want of authority, or else for the state, or else for a frequency off the 10 Hz grid, each exactly then, and has then touched nothing |
| TransceiverState.BusErrorExactlyWhen | crates/radio-bk4819/src/lib.rs:340-356 | A call fails by the bus if and only if a transfer of its own failed |
| TransceiverState.RunBlamesTheBus | crates/radio-bk4819/src/lib.rs:340-356 | Over every run as many calls fail by the bus as transfers failed, so on a sound bus each call is decided by the state and its arguments |
| TransceiverState.BiasIsInTheUpperByte | crates/radio-bk4819/src/transmit.rs:60-79 | The amplifier's word holds the bias in its upper byte, over the enable bit and the gain of the frequency's side |
| TransceiverState.PathIsOfItsSide | crates/radio-bk4819/src/receive.rs:1113-1130 | Below 280 MHz the amplifier selected is that of bit 2 and from there on that of bit 3, and not the other |
| TransceiverState.PathKeepsOthers | crates/radio-bk4819/src/receive.rs:1113-1130 | Selecting a path leaves the rest of the word as it was |
| TransceiverState.ReceiveEnables | crates/radio-bk4819/src/receive.rs:678-726 | A full setup sets the receive enable besides, and no other bit |
| TransceiverState.FaultLatches | crates/radio-bk4819/src/lib.rs:340-356 | A failed bus operation latches the fault, only recovering or initialising leaves it, and only switching the amplifier off reaches the bus meanwhile |
| TransceiverState.StartsNeedAuthority | crates/radio-bk4819/src/lib.rs:295-317 | A mode is started only to receive, or to transmit a request its authority matches with exactly that request's frequency loaded |
| TransceiverState.BiasNeedsAuthority | crates/radio-bk4819/src/transmit.rs:180-188 | Whether or not the bus fails, a call writes a bias only while an authorised request is transmitting; when nothing fails no other call leaves a bias it did not find |
| TransceiverState.RunBiasesAreLicensed | crates/radio-bk4819/src/transmit.rs:85-221 | Over every run with any failures, every bias written was an authorised request's, written in the state of transmitting it |
| TransceiverState.PaIsOnExactlyWhen | crates/radio-bk4819/src/transmit.rs:82-177 | Over every run without a bus failure the output word and its register have the amplifier on if and only if it was enabled and neither disabled nor reset since, or was on at first and never either |
| TransceiverState.EnableNeedsAuthority | crates/radio-bk4819/src/transmit.rs:167-177 | Over every run with any failures the driver has the amplifier on only by an authorised enable of a transmitting request, or from the start, with no passing disable or reset since |
| TransceiverState.TransmissionStartsWithPaOffExactlyWhen | crates/radio-bk4819/src/transmit.rs:138-165 | Entering transmission leaves the amplifier off if and only if no enable before it was left on |
| TransceiverState.PaStaysOnWhenSentAgain | crates/radio-bk4819/src/transmit.rs:138-177 | Enabled, stopped, prepared and entered again, every call passing, the radio transmits with the amplifier on from the start |
| TransceiverState.RunIsTruthful | crates/radio-bk4819/src/transmit.rs:85-221 | Over every run with any failures, the last state is true and every start of the run was a receiving one or an authorised request's |
| TransceiverState.ProbeKeepsFrontEndExactlyWhen | crates/radio-bk4819/src/receive.rs:793-809 | A probe leaves exactly its side's amplifier on if and only if that was so before or it crossed 280 MHz |
| TransceiverState.IncrementalRetuneIsFull | crates/radio-bk4819/src/receive.rs:678-826 | After a full setup, any run of probes, re-probes and readings leaves the output word a full setup at the last frequency would have |
| Transceiver.Bk4819.Initialise | crates/radio-bk4819/src/receive.rs:634-670 | Success leaves standby, the default output word and no bias, in those registers |
| Transceiver.Bk4819.StartReceive | crates/radio-bk4819/src/lib.rs:263-274 | Only at rest and only for a multiple of 10 Hz, loads the frequency with the chip idle and starts the receive mode; the frequency registers then hold exactly that frequency, and any bus failure faults |
| Transceiver.Bk4819.StartTransmit | crates/radio-bk4819/src/lib.rs:295-317 | Refuses for authority, then state, then frequency, before any bus operation; otherwise loads exactly the request's frequency before the transmit word, as its registers say by number |
| Transceiver.Bk4819.ConfigureReceive | crates/radio-bk4819/src/receive.rs:678-726 | Loads the frequency before starting the receive mode, leaves the full output word, and leaves the registers holding the bandwidth, the six squelch thresholds, the tone to the nearest unit of the chip and the audio asked for |
| Transceiver.Bk4819.Probe | crates/radio-bk4819/src/receive.rs:793-826 | Retunes with the audio output off and writes the filter path only on a crossing |
| Transceiver.Bk4819.StartFrequencyScan | crates/radio-bk4819/src/receive.rs:901-908 | Receives on with both amplifiers off and the scan register on |
| Transceiver.Bk4819.SetTransmitTone | crates/radio-bk4819/src/transmit.rs:192-204 | Sets the tone to the nearest unit, or none, only while that request is transmitting |
| Transceiver.Bk4819.ReceiveMetrics | crates/radio-bk4819/src/receive.rs:829-882 | Reading and servicing interrupts leave the state, the mode, the frequency and the output word alone |
| Transceiver.Bk4819.PrepareTransmit | crates/radio-bk4819/src/transmit.rs:99-136 | Loads the request's frequency and bandwidth and clears receive enable without starting a mode |
| Transceiver.Bk4819.EnableTransmit | crates/radio-bk4819/src/transmit.rs:139-165 | Starts transmitting only at the prepared frequency of the same authorised request, with the blocks powered and the audio not muted, and leaves the output word, with the amplifier's bit, as it was |
| Transceiver.Bk4819.EnablePa | crates/radio-bk4819/src/transmit.rs:168-177 | Selects the request's filter path and switches the amplifier on only while that request is transmitting |
| Transceiver.Bk4819.DisablePa | crates/radio-bk4819/src/transmit.rs:85-89 | From any state, zeroes the bias and switches the amplifier and its light off |
| Replay.RetriesTakeEffectOnce | crates/radio-device/src/lib.rs:359-521 | Repeating requests in place ends in the same state and cache, answers every copy the same, and hands the receiver the same requests |
| Replay.NumberInUseExactlyWhen | crates/radio-device/src/lib.rs:478-521 | A request is answered without being performed if and only if the last one answered has its number: with that answer if it is the same request, and otherwise with flags 3, command 0x7F and its own command and code 10, changing nothing |
| Replay.AnswersAreTheirOwn | crates/radio-device/src/lib.rs:478-521 | Over every run no answer is another request's: each is what performing that very request gave, then or before, or was cached for it at the start, or is a conflict of its own |
| Replay.RefusalsNameTheCause | crates/radio-device/src/lib.rs:386-431 | A request neither handled nor handed out is answered with the code of its cause and leaves the device as it was |
| Replay.RetriedStreamIsUncached | crates/radio-device/src/lib.rs:478-521 | A host that numbers requests afresh and retries each drives the device as if each were sent once to a device with no cache |
| Replay.UnansweredIsPerformedAgain | crates/radio-device/src/lib.rs:478-486 | A request no response could be built for is not remembered, and its repeat is performed again |
| Replay.CopiesBeforeTheAnswerAllTakeEffect | crates/radio-device/src/lib.rs:359-475 | However copies of a control request and their answers interleave, it is performed once for every copy that arrived before the first answer, and never for a later one |
| Replay.OvertakingCopyIsPerformedTwice | crates/radio-device/src/lib.rs:359-475 | A copy that arrives before the first is answered is performed as well, on every device |
| Replay.MixedStreamIsUncached | crates/radio-device/src/lib.rs:359-521 | With requests of every kind and answers in any order, what is performed and in which order depends on the traffic alone, and the device ends as one with no cache that performed just that |
| Replay.MixedRequestsAreCounted | crates/radio-device/src/lib.rs:498-521 | In such a stream each request is performed, or still handed out, once for every copy that found another number performed last |
| Replay.InterleavedCopyIsPerformedTwice | crates/radio-device/src/lib.rs:498-521 | A request settled between two copies of another makes the second copy count |
| Replay.DeviceService.HandleExchange | crates/radio-device/src/lib.rs:489-538 | Answers a resend from the cache, a conflict with an error, and anything else by performing it |
| Replay.DeviceService.PushControl | crates/radio-device/src/lib.rs:359-431 | Hands a control request to the receiver's owner exactly when it is not a resend or a conflict; otherwise it is one whole exchange |
| Replay.DeviceService.AnswerControl | crates/radio-device/src/lib.rs:438-475 | Answering what was handed out performs and caches it whatever arrived meanwhile, and with nothing between completes exactly one exchange |
| Keys.PressedExactlyWhen | crates/radio-app/src/keys.rs:61-91 | A press is emitted if and only if the history ends in 20 ms or more of accepted samples of that key alone and the key is not held |
| Keys.ReleasedExactlyWhen | crates/radio-app/src/keys.rs:61-91 | A release is emitted if and only if the history ends in 20 ms or more of no key and the latest edge pressed that key with no reset since |
| Keys.HeldExactlyWhen | crates/radio-app/src/keys.rs:53-98 | A key is held if and only if the latest edge pressed it and nothing has reset since |
| Keys.Debouncer.Update | crates/radio-app/src/keys.rs:61-98 | The edge returned is the one the whole history calls for |

## Left out

- NorDevice.NorDevice.Transfer: a device still busy when the driver gives up polling, or when its
  bus failed, is taken to stop there with a torn result; an operation that goes on after its failed
  call has returned is not modelled.
- ReceiveControl.RunStaysInStep: speaks of runs without `set_dual_watch`, whose own exact condition
  is `DualWatchKeepsStepExactlyWhen`, and claims agreement only while timer tokens last.
- ReceiveController.BankedReceiveController.Neighbour: the source is a sequence of records, that is,
  one that answers every index below its length and always the same; a memory whose reads fail now
  and then is not modelled.
- Transceiver.Bk4819.ConfigureReceive: what it writes to the demodulator, gain and interrupt registers,
  and to the code register of a DCS tone, is in the body and not in a contract; a CTCSS tone above
  390 Hz, which no channel can have, is cut to the register and not promised.
- Transceiver.Bk4819.ReceiveMetrics: what is read is arbitrary, so the values returned, and whether
  a tone is found, are in the body and not in a contract.
- Replay.DeviceService.PushControl: frames arrive decoded and leave unencoded; the stream decoder,
  the checksum and a response buffer too short are not modelled.
- Replay.MixedStreamIsUncached: a device that has an answer to everything; what an answer that cannot
  be built changes is `UnansweredIsPerformedAgain`.
- StagedGuard.SureExactlyWhen: the device and its bus may do whatever the step relation allows,
  which for a failed commit is every safe image, not only those its loops stop at.
- Eeprom.Eeprom.constructor: asks that an operation already in progress when the driver is made is
  not aimed outside the claimable area, since the driver cannot then keep what it finds there.
- Replay.RetriesTakeEffectOnce: requires every request of the run to have been answered; the store
  and the receiver are arbitrary functions.
- ChannelSpace.FindGivesBackExactlyWhen: a stored record under a reserved identifier, which only a
  record taken from a plan can have, is given back only if a plan still expands to it.
- Eeprom: `identify`, `release` and the region accessors, which decide nothing.
- Bank sets are mathematical sets; their packing into words and bytes is not modelled.
- The Golay code word of a DCS tone is a parameter of the driver, and `detected_tone`, which decodes
  what the chip heard, is not modelled.
- Squelch thresholds, tone tables and the conversions between them: finite tables.
- Repeater reports are taken as parsed: the text of APRS objects and items is not modelled.
- The interface's run loop, rendering, clocks and the board support below the register bus; time and
  timer expiry are inputs.
- The transactional store behind the serial device and the transmit policy behind an authority:
  arbitrary functions here.
