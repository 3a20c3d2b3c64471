# Drivers for WCH CH36x cards, and a few small ones: a verified model

This project models, in Dafny, the parts of the repository that carry state, protocols or
arithmetic, and proves what they keep over every run. Seven groups of modules follow the sources.

- **SPI of the 2021 driver** (`PortIo`, `RegisterMap`, `SpiTransfer`, `SpiAccesses`, `SpiFraming`, `SpiRuns`,
  `SpiReadback`, class `Ch36xDev` in `Ch36xDevice`). Port space is a class `Bus` that records every
  port access, every chip select edge and every byte through the SPI data register; at any access
  the card may refuse to let chip select fall or to let it rise. The methods of `Ch36xDev` make the port accesses of the driver and are
  proved equal to the functions of `SpiTransfer`. The main results are what the pins show after any
  run on any card, exactly when that reads back as the transfers that started, and what a run leaves
  in the card's registers and elsewhere.
- **Interrupts of the 2021 driver** (`InterruptModes`, `InterruptPorts`, `SharedLine`,
  `InterruptRaces`, `LatchLedger`, `ReleaseRace`). Register contents over any sequence of mode changes; several
  cards on one line; a step machine in which the handler, any number of mode changes and the card's
  pin interleave between single port accesses; in it, the count of latches and signals, and an
  enable beside a release. `InterruptPorts` ties the methods' port accesses to the register contents.
- **Probe, remove and lookup of the 2021 driver** (`RegistryModel`, class `Ch36xDriver` in
  `Driver`). The unwinding ladder is written with labelled blocks; what a probe has taken is a
  stack, and unwinding may release only its top.
- **Poll hand-over of the 2013 driver** (`PollHandshake`): interrupt handler and any number of
  pollers over one unlocked flag, any interleaving.
- **Numbering and block access of the 2013 driver** (`Enumeration`, `BlockIo`), with the demo's
  device search.
- **Hexadecimal reader and printer of the console demo** (`HexText`), with 32-bit wrap-around.
- **GPIO debouncing and the firmware dump** (`Debounce`, `FirmwareDump`): a wrapping tick counter,
  and 16-bit and 8-bit loop counters.

Bytes are `bv8`, other unsigned widths are written out with `%`. A kernel service is an answer
given to the operation (a `Fate`: success or failure), so every theorem holds for every mixture of
failures.

Where the code does something other than it seems meant to, the model follows the code:

- The write that should turn the SPI data line round has value and port exchanged
  (`pcie/ch36x_linux-main/drv/ch36x.c:469`). `SpiRuns.OtherPortsAfterTransfer` says which port it
  hits and when.
- A transfer that cannot select the chip still returns 0 (`ch36x.c:537-542` of the same driver);
  `SpiRuns.ReplyMatchesFrame` says exactly when 0 is returned, `SpiRuns.ZeroWithoutTransfer` is an
  example.
- The result of deselecting is ignored (line 551). A failed deselect is made up for by the next start
  unless that cannot raise chip select either; then two requests merge on the line
  (`SpiReadback.FramingRoundTrip`, `SpiReadback.TwoTransfersMerge`).
- Enabling ORs mode bits over the old ones, so the card acts on the mode asked for only under the
  condition of `InterruptModes.DecodesIff`; `InterruptModes.WithoutDisableTheModeCanBeWrong` is an
  example. Enabling with mode 0 sets the enable bit (`InterruptModes.EnableBitMeansModeIff`).
- An interrupt latched while the handler is about to write back a status byte read before is wiped
  (`InterruptRaces.LatchKeptIff`). With edge modes that needs a second processor
  (`LatchLedger.NestedSpoilsNothing`, `LatchLedger.EveryLatchKept`, `InterruptRaces.LatchCanBeLost`),
  on which one latch can also be counted both as signalled and as cleared
  (`LatchLedger.OneLatchCanCountTwice`). `LatchLedger.ConservationIff` says on which schedules.
- A release disables interrupts without the lock that an enable holds. `ReleaseRace.ReleaseAgreesIff`
  says exactly when the two leave the enable bit and the remembered mode contradicting each other;
  `ReleaseRace.BothDisagreementsHappen` shows both ways.
- Removing a card leaves one reference on the enabled PCI device behind
  (`RegistryModel.ResourcesConserved`).
- The 8-bit count of cards wraps, and it never goes down on removal
  (`RegistryModel.NextMinorIsNewIff`, `RegistryModel.ReachableIff`,
  `RegistryModel.LastOf257IsUnreachable`).
- The 2013 handler can lose a pulse that arrives between its raising the flag and its clearing the
  latch: exactly if the flag is down again and no poll is about to report
  (`PollHandshake.PulseKeptIff`, `PollHandshake.LatePulseCanBeLost`).
- Two pollers can report one interrupt twice (`PollHandshake.NoMoreThanHandledIff`).
- A registration of the 2013 driver that fails once it has its numbers destroys the class that later
  device nodes need (`Enumeration.LateFailureHidesCards`).
- The debounce handler turns away a press just after a whole turn of the tick counter
  (`Debounce.TakenIsGreedyIff`, `Debounce.DroppedAfterWholeTurn`).
- The hexadecimal printer prints zero as nothing and writes no terminator
  (`HexText.PrintedInBuffer`).
- The firmware dump never ends for images of one mebibyte or more (`FirmwareDump.LoopEndsIff`).

## Model

| member | source | states |
|---|---|---|
| `RegisterMap.Ch367Registers` | pcie/ch36x_linux-main/drv/ch36x.c:167-201 | the port offsets are those a compiler gives the members of the structure, which fills the window |
| `RegisterMap.Ch365Registers` | pcie/ch36x_linux-main/drv/ch36x.c:139-160 | a CH365's control register lies at the same offset as the others' status register |
| `Ch36xDevice.Ch36xDev.StartSpiDataIn` | pcie/ch36x_linux-main/drv/ch36x.c:466-471 | refines the stray write |
| `Ch36xDevice.Ch36xDev.SetSpiControl` | pcie/ch36x_linux-main/drv/ch36x.c:477-491 | refines the choice of the control byte |
| `Ch36xDevice.Ch36xDev.StartSpi` | pcie/ch36x_linux-main/drv/ch36x.c:473-506 | refines the start of a transfer on values; fails exactly if chip select stays up |
| `Ch36xDevice.Ch36xDev.StopSpi` | pcie/ch36x_linux-main/drv/ch36x.c:508-522 | refines the end of a transfer; -1 exactly if chip select is still down, which the card can bring about |
| `Ch36xDevice.Ch36xDev.SendAll` | pcie/ch36x_linux-main/drv/ch36x.c:543-544 | every byte of the input goes out once, in order |
| `Ch36xDevice.Ch36xDev.ReceiveAll` | pcie/ch36x_linux-main/drv/ch36x.c:548-549 | the buffer ends up with exactly the bytes the card delivered, in order |
| `Ch36xDevice.Ch36xDev.Exchange` | pcie/ch36x_linux-main/drv/ch36x.c:541-551 | one buffer, first sent from and then overwritten, gives the sent and received bytes of the transfer on values |
| `Ch36xDevice.Ch36xDev.StreamSpi` | pcie/ch36x_linux-main/drv/ch36x.c:524-562 | the whole ioctl: port space, return value and bytes handed back for every outcome of allocation, copies and selection |
| `SpiAccesses.ModeBits` | pcie/ch36x_linux-main/drv/ch36x.c:468-491 | which of the four control bytes each mode starts with, and which modes make the stray write |
| `SpiAccesses.StartAccesses` | pcie/ch36x_linux-main/drv/ch36x.c:477-503 | every port access of a start, with its value, in order |
| `SpiAccesses.TransferAccesses` | pcie/ch36x_linux-main/drv/ch36x.c:524-562 | every port access of a transfer, with its value, in order, whether it starts or not |
| `SpiFraming.StopOnTheLine` | pcie/ch36x_linux-main/drv/ch36x.c:508-522 | the end of a transfer raises chip select if and only if the card lets it at the last access but one |
| `SpiFraming.TransferOnTheLine` | pcie/ch36x_linux-main/drv/ch36x.c:473-562 | what one transfer adds to the pins, on any card and from any state: one frame, or its bytes in the frame still open, or nothing |
| `SpiFraming.ParseRendered` | pcie/ch36x_linux-main/drv/ch36x.c:524-562 | parsing rendered frames gives back the frames |
| `SpiFraming.ParsedIsRendered` | pcie/ch36x_linux-main/drv/ch36x.c:524-562 | whatever parses is the rendering of what it parses to, so parsing is unique |
| `SpiFraming.DecodeIff` | pcie/ch36x_linux-main/drv/ch36x.c:524-562 | the decoder yields given frames for their rendering, perhaps after a rise, perhaps with the last rise missing, and for nothing else |
| `SpiReadback.SessionsOnTheLine` | pcie/ch36x_linux-main/drv/ch36x.c:466-562 | over any run of ioctls on any card, the pins show exactly the bytes of the transfers that started, grouped by the falls and rises that happened |
| `SpiReadback.SessionsCount` | pcie/ch36x_linux-main/drv/ch36x.c:473-522 | there are as many groups as transfers, less one for each that could not raise a line found down |
| `SpiReadback.FramesOnTheLine` | pcie/ch36x_linux-main/drv/ch36x.c:466-562 | if every such rise works, the pins show the frames of the transfers that started, one by one, failed deselects or not |
| `SpiReadback.DecodedCount` | pcie/ch36x_linux-main/drv/ch36x.c:508-522 | the number of frames the pins read back as, on any card |
| `SpiReadback.FramingRoundTrip` | pcie/ch36x_linux-main/drv/ch36x.c:466-562 | decoding the pins gives exactly the transfers that started if and only if every transfer that finds chip select down can raise it |
| `SpiReadback.RisesAlwaysWork` | pcie/ch36x_linux-main/drv/ch36x.c:493-513 | so on a card that lets chip select rise it always does |
| `SpiReadback.TwoTransfersMerge` | pcie/ch36x_linux-main/drv/ch36x.c:517-551 | what is read back when a deselect fails and the next start cannot raise the line: one frame with the bytes of both, or no frames at all |
| `SpiReadback.StuckCardMerges` | pcie/ch36x_linux-main/drv/ch36x.c:517-551 | a card on which any two requests do that |
| `SpiReadback.RoundTripCanFail` | pcie/ch36x_linux-main/drv/ch36x.c:517-551 | so on it two requests do not read back as the two transfers that started |
| `SpiRuns.StartsIff` | pcie/ch36x_linux-main/drv/ch36x.c:493-505 | a transfer starts if and only if the card lets chip select down at one particular access, or holds it down anyway |
| `SpiRuns.EveryRequestFramed` | pcie/ch36x_linux-main/drv/ch36x.c:854-864 | with no failures the frames are the requests, one for one, with their bytes and lengths |
| `SpiRuns.LastModeInForce` | pcie/ch36x_linux-main/drv/ch36x.c:854-864 | transfers run in the mode set last, whatever came before and between |
| `SpiRuns.ReplyMatchesFrame` | pcie/ch36x_linux-main/drv/ch36x.c:530-561 | the bytes returned are those on the pins, and with the return value add up to those asked for; zero is returned exactly if the copy in was complete and the card refused the start or the copy out was complete too; the other returns |
| `SpiRuns.ZeroWithoutTransfer` | pcie/ch36x_linux-main/drv/ch36x.c:537-542 | a zero return with no transfer |
| `SpiRuns.RegistersAfterTransfer` | pcie/ch36x_linux-main/drv/ch36x.c:473-522 | output and control register after a transfer that started, deselected or not, and after one that did not |
| `SpiRuns.OtherPortsAfterTransfer` | pcie/ch36x_linux-main/drv/ch36x.c:466-471 | at most one other port changes, which one, when, and that it never is one of the card's own registers |
| `SpiRuns.KeptBitsNeverChange` | pcie/ch36x_linux-main/drv/ch36x.c:502-513 | over any run bits 0, 3, 4 and 5 of the output register keep their values |
| `SpiRuns.OutputRegisterSettles` | pcie/ch36x_linux-main/drv/ch36x.c:502-513 | on a card that obeys, the first transfer settles the output register, no later one moves it |
| `Ch36xDevice.Ch36xDev.IsOurs` | pcie/ch36x_linux-main/drv/ch36x.c:570-592 | the handler's decision for each chip and mode |
| `Ch36xDevice.Ch36xDev.Isr` | pcie/ch36x_linux-main/drv/ch36x.c:564-604 | port accesses, registers, signal count and answer of the handler; unclaimed, only a read happens, and no other port ever changes |
| `Ch36xDevice.Ch36xDev.EnableInterrupts` | pcie/ch36x_linux-main/drv/ch36x.c:606-638 | port accesses, and interrupt registers, configuration byte and mode as the register-level operation has them; no other port changes |
| `Ch36xDevice.Ch36xDev.DisableInterrupts` | pcie/ch36x_linux-main/drv/ch36x.c:640-656 | the same for disabling |
| `InterruptModes.WhoIsClaimed` | pcie/ch36x_linux-main/drv/ch36x.c:570-592 | by bits of the status byte: on a CH365 and in edge modes, exactly a card on which acknowledging changes something; the level modes by the pin level |
| `InterruptModes.TriggersInSteps` | pcie/ch36x_linux-main/drv/ch36x.c:84-87 | the bits of the four modes |
| `InterruptModes.WhatEnableWrites` | pcie/ch36x_linux-main/drv/ch36x.c:606-638 | the value of every register after enabling, mode by mode |
| `InterruptModes.WhatTheOthersWrite` | pcie/ch36x_linux-main/drv/ch36x.c:594-656 | the same for disabling and for the handler |
| `InterruptPorts.EnableAccesses` | pcie/ch36x_linux-main/drv/ch36x.c:615-635 | every port access of enabling, with its value, in order |
| `InterruptPorts.DisableAccesses` | pcie/ch36x_linux-main/drv/ch36x.c:649-653 | the same for disabling |
| `InterruptPorts.IsrAccesses` | pcie/ch36x_linux-main/drv/ch36x.c:570-601 | the same for the handler, and that mode changes of a CH365 make none |
| `InterruptModes.ModeBitsAccumulate` | pcie/ch36x_linux-main/drv/ch36x.c:606-656 | over any run, polarity and type are the OR of what was asked since the last disable, or of the start value |
| `InterruptModes.LastCallShows` | pcie/ch36x_linux-main/drv/ch36x.c:632-656 | after any run the enable bit and the mode show the last call, and the latch is clear |
| `InterruptModes.Ch365LastCallShows` | pcie/ch36x_linux-main/drv/ch36x.c:611-613 | the same for the CH365's bit in configuration space, whose other bits stay |
| `InterruptModes.EnableBitMeansModeIff` | pcie/ch36x_linux-main/drv/ch36x.c:627-637 | the enable bit agrees with the mode if and only if the last call was not an enable with mode 0 |
| `InterruptModes.OtherBitsKept` | pcie/ch36x_linux-main/drv/ch36x.c:606-656 | the bits no run of mode changes alters, and what bits 5 to 7 do |
| `InterruptModes.DecodesIff` | pcie/ch36x_linux-main/drv/ch36x.c:616-637 | exactly when the control register decodes to the remembered mode |
| `InterruptModes.DisableFirst` | pcie/ch36x_linux-main/drv/ch36x.c:606-656 | an enable that follows a disable always decodes right |
| `InterruptModes.WithoutDisableTheModeCanBeWrong` | pcie/ch36x_linux-main/drv/ch36x.c:616-631 | a run after which the card acts on the wrong mode |
| `SharedLine.InterruptSettles` | pcie/ch36x_linux-main/drv/ch36x.c:564-604 | every port after all handlers have run, said without any order |
| `SharedLine.SignalledAreClaimers` | pcie/ch36x_linux-main/drv/ch36x.c:564-604 | the cards signalled are those that claim in the state before |
| `SharedLine.OrderDoesNotMatter` | pcie/ch36x_linux-main/drv/ch36x.c:1044-1045 | any permutation of the handlers signals the same cards and leaves the same ports |
| `SharedLine.OnlyClaimersTouched` | pcie/ch36x_linux-main/drv/ch36x.c:570-601 | a card that does not claim keeps its whole window, one that does loses its latch bit only |
| `InterruptRaces.UnpackedFaithfully` | pcie/ch36x_linux-main/drv/ch36x.c:575-601 | the step machine's view of a status byte loses nothing and commutes with test and clear |
| `InterruptRaces.LatchKeptIff` | pcie/ch36x_linux-main/drv/ch36x.c:564-656 | in any mode, with any number of threads: a latch set now is signalled, cleared by a mode change or stays set in every continuation, if and only if the handler is not about to write back an old status byte |
| `InterruptRaces.LatchCanBeLost` | pcie/ch36x_linux-main/drv/ch36x.c:594-635 | from the start, a run on two processors in which one is, though the totals balance |
| `LatchLedger.ConservationIff` | pcie/ch36x_linux-main/drv/ch36x.c:564-656 | with edge modes, on any number of processors: at every point of a run latches equal signals plus clears plus the latched bit, once the handler has finished, if and only if no mode change writes the status register after the handler has claimed, nor makes it claim a latch already cleared |
| `LatchLedger.SignalConservation` | pcie/ch36x_linux-main/drv/ch36x.c:564-656 | so whenever the handler is idle in such a run |
| `LatchLedger.EveryLatchKept` | pcie/ch36x_linux-main/drv/ch36x.c:564-656 | and no latch is lost in it |
| `LatchLedger.NestedSpoilsNothing` | pcie/ch36x_linux-main/drv/ch36x.c:564-656 | every run in which the handler preempts mode changes is one |
| `LatchLedger.OneLatchCanCountTwice` | pcie/ch36x_linux-main/drv/ch36x.c:594-635 | from the start, a run on two processors in which one latch is signalled and counted as cleared |
| `InterruptRaces.StepsAreTheOperation` | pcie/ch36x_linux-main/drv/ch36x.c:606-656 | the steps of a call taken in a row do to control register, status register and mode what the operation does, and nothing else |
| `InterruptRaces.PreemptionSafeModeChange` | pcie/ch36x_linux-main/drv/ch36x.c:606-656 | handler and card may interrupt a mode change anywhere: same control register and mode |
| `InterruptRaces.LatchClearAfterStatusWrite` | pcie/ch36x_linux-main/drv/ch36x.c:634-635 | the latch is clear right after the last status write |
| `InterruptRaces.OtherStatusBitsKept` | pcie/ch36x_linux-main/drv/ch36x.c:564-656 | no interleaving changes any other writable status bit |
| `InterruptRaces.HandlerAlone` | pcie/ch36x_linux-main/drv/ch36x.c:564-604 | the handler's steps in a row are the handler |
| `ReleaseRace.TestPassesIff` | pcie/ch36x_linux-main/drv/ch36x.c:695 | a release goes on to disable if and only if a mode was set before or the enable beside it has set its own |
| `ReleaseRace.WhatAReleaseLeaves` | pcie/ch36x_linux-main/drv/ch36x.c:695-696 | enable bit, mode bits and remembered mode after an enable beside a release, test included, for every interleaving, by the order of their steps |
| `ReleaseRace.ReleaseAgreesIff` | pcie/ch36x_linux-main/drv/ch36x.c:695-696 | enable bit and mode agree if and only if the release failed its test, or the operation that wrote the control register last also set the mode last |
| `ReleaseRace.BothDisagreementsHappen` | pcie/ch36x_linux-main/drv/ch36x.c:695-696 | with a mode set before: a silent card thought enabled, and an interrupting card thought silent |
| `Driver.ChipsById` | pcie/ch36x_linux-main/drv/ch36x.c:1019-1024 | the ids in the table and the chip each stands for |
| `Driver.Ch36xDriver.Attach` | pcie/ch36x_linux-main/drv/ch36x.c:1026-1085 | the ladder: the first failure's answer, everything taken on success, exactly nothing kept on failure, released in reverse |
| `Driver.Ch36xDriver.PciProbe` | pcie/ch36x_linux-main/drv/ch36x.c:1006-1086 | the whole probe refines the model's step; on success one fresh record joins the end, with the card's I/O base, chip, number and cleared modes; on failure the list is as it was |
| `Driver.Ch36xDriver.PciRemove` | pcie/ch36x_linux-main/drv/ch36x.c:1088-1103 | removal refines the model's step; a card without driver data is left alone |
| `Driver.Ch36xDriver.Lookup` | pcie/ch36x_linux-main/drv/ch36x.c:878-888 | the shared scan returns the first card with the minor, or none exactly if there is none |
| `Driver.Ch36xDriver.FopsOpen` | pcie/ch36x_linux-main/drv/ch36x.c:658-676 | -ENODEV exactly if no card has the minor |
| `Driver.Ch36xDriver.FopsRelease` | pcie/ch36x_linux-main/drv/ch36x.c:678-699 | switches off the interrupts of the card found; every other field of every listed record keeps its value |
| `RegistryModel.InvHolds` | pcie/ch36x_linux-main/drv/ch36x.c:1006-1103 | in every reachable state listed cards are distinct, in probe order, with the wrapped number of their probe as minor, and the resources balance |
| `RegistryModel.ResourcesConserved` | pcie/ch36x_linux-main/drv/ch36x.c:967-1103 | over any run, held resources are six for each listed card plus one PCI enable per removal |
| `RegistryModel.HeldCount` | pcie/ch36x_linux-main/drv/ch36x.c:967-1103 | in numbers: six for each listed card and one for each removal |
| `RegistryModel.FirstFailureDecides` | pcie/ch36x_linux-main/drv/ch36x.c:1013-1060 | the answer of a probe for every mixture of failures |
| `RegistryModel.ListedIff` | pcie/ch36x_linux-main/drv/ch36x.c:1013-1068 | a card is listed by exactly the probes in which all steps succeed |
| `RegistryModel.MinorsWithoutWrap` | pcie/ch36x_linux-main/drv/ch36x.c:1055-1068 | up to 255 successful probes: minors strictly increase along the list and lie below the count |
| `RegistryModel.EveryProbeListed` | pcie/ch36x_linux-main/drv/ch36x.c:1055-1068 | every successful probe's card was listed at some point of the run, removed since or not |
| `RegistryModel.NextMinorIsNewIff` | pcie/ch36x_linux-main/drv/ch36x.c:1055-1068 | the next minor was never given to any card of the run, listed or removed, if and only if fewer than 256 probes have succeeded |
| `RegistryModel.EveryCardCanBeFound` | pcie/ch36x_linux-main/drv/ch36x.c:872-920 | as long as the listed cards stem from one turn of the counter, a lookup finds exactly the card asked for |
| `RegistryModel.ReachableIff` | pcie/ch36x_linux-main/drv/ch36x.c:872-920 | after any number of wraps, a lookup can reach a card if and only if no earlier listed one was probed a multiple of 256 successful probes before |
| `RegistryModel.LastOf257IsUnreachable` | pcie/ch36x_linux-main/drv/ch36x.c:1055-1068 | a run after which a listed card cannot be reached |
| `PollHandshake.Card.InterruptHandler` | pcie/CH36X_LINUX/drv/ch36x.c:783-865 | the handler is its steps in a row, and changes the latch bit alone |
| `PollHandshake.Card.FopsPoll` | pcie/CH36X_LINUX/drv/ch36x.c:1421-1429 | one poll is its steps in a row |
| `PollHandshake.NoHandledInterruptLost` | pcie/CH36X_LINUX/drv/ch36x.c:783-865 | in every interleaving a handled interrupt has a later POLLIN, or the flag is up, or a poll that saw it has yet to return |
| `PollHandshake.PulseKeptIff` | pcie/CH36X_LINUX/drv/ch36x.c:783-865 | after any interleaving: a pulse stays latched for the handler or is delivered, in every continuation, if and only if, when it arrives, the handler is not between flag and latch clear, or the flag is up, or a poll is about to report |
| `PollHandshake.LatePulseIsWiped` | pcie/CH36X_LINUX/drv/ch36x.c:831-836 | otherwise the handler's next write loses it for good |
| `PollHandshake.NoTimelyPulseLost` | pcie/CH36X_LINUX/drv/ch36x.c:783-865 | a pulse outside that window is latched or delivered after any further steps |
| `PollHandshake.LatePulseCanBeLost` | pcie/CH36X_LINUX/drv/ch36x.c:831-836 | a run in which such a pulse is lost |
| `PollHandshake.NoWakeupLost` | pcie/CH36X_LINUX/drv/ch36x.c:1419-1425 | nobody sleeps through a raised flag once the handler has woken the queue |
| `PollHandshake.WokenReports` | pcie/CH36X_LINUX/drv/ch36x.c:1419-1428 | a triggered sleeper tests again and, if the flag is up, reports; one not triggered sleeps on |
| `PollHandshake.NoMoreThanHandledIff` | pcie/CH36X_LINUX/drv/ch36x.c:1421-1425 | all runs of a set of pollers have at most one POLLIN per handled interrupt, if and only if the set has at most one poller |
| `PollHandshake.OnePollerSeesNoMoreThanHandled` | pcie/CH36X_LINUX/drv/ch36x.c:1421-1425 | for a single poller, also counting what it is still owed |
| `PollHandshake.NoPollinWithoutInterrupt` | pcie/CH36X_LINUX/drv/ch36x.c:1421-1425 | with any number of pollers, every POLLIN has a handled interrupt before it |
| `PollHandshake.TwoPollersCanShareOneInterrupt` | pcie/CH36X_LINUX/drv/ch36x.c:1421-1425 | two pollers can both report one interrupt |
| `PollHandshake.EventsKeptByStep` | pcie/CH36X_LINUX/drv/ch36x.c:783-865 | every step of handler or poller keeps the invariant behind these |
| `Enumeration.OldDriver.RegisterChrdev` | pcie/CH36X_LINUX/drv/ch36x.c:1446-1525 | numbering, name, class and failure of a registration, equal to the model's step; a late failure leaves no class |
| `Enumeration.OldDriver.PciProbe` | pcie/CH36X_LINUX/drv/ch36x.c:1610-1763 | the probe refines the model's step |
| `Enumeration.OldDriver.FopsOpen` | pcie/CH36X_LINUX/drv/ch36x.c:887-897 | -ENODEV exactly if no card has the minor |
| `Enumeration.OldDriver.GetCh36xDevList` | pcie/CH36X_LINUX/demo/ch36x_demo_CMD.c:1525-1563 | the search stops at the first node that does not open, of sixteen; -1 exactly if it found none |
| `Enumeration.ListedIff` | pcie/CH36X_LINUX/drv/ch36x.c:1610-1763 | a card is listed by exactly the probes in which all steps succeed |
| `Enumeration.ClassLostIff` | pcie/CH36X_LINUX/drv/ch36x.c:1466-1524 | which probes make the class of the device nodes, and which destroy it |
| `Enumeration.NumbersGotOnce` | pcie/CH36X_LINUX/drv/ch36x.c:1453-1470 | device numbers are asked for until a range has been got, and never again |
| `Enumeration.EveryRunIsNumbered` | pcie/CH36X_LINUX/drv/ch36x.c:1453-1499 | after any run, failed probes included, place, minor, name and count agree, round the 8-bit counter |
| `Enumeration.PlaceIsNumber` | pcie/CH36X_LINUX/drv/ch36x.c:1741-1742 | up to 256 cards, card k has minor base+k and the suffix '0'+k as a byte, and the count is the length until it wraps |
| `Enumeration.SearchAgreesIff` | pcie/CH36X_LINUX/demo/ch36x_demo_CMD.c:1534-1551 | the demo never finds too many cards, and min(n, 16) exactly if their nodes were made |
| `Enumeration.SearchFindsAll` | pcie/CH36X_LINUX/demo/ch36x_demo_CMD.c:1534-1551 | min(n, 16), over any run in which node creation works and no registration fails late |
| `Enumeration.LateFailureHidesCards` | pcie/CH36X_LINUX/drv/ch36x.c:1515-1524 | a run with a card that the demo does not find |
| `BlockIo.IoSpace.ReadBlock` | pcie/CH36X_LINUX/drv/ch36x.c:703-734 | the loop fills the buffer with the block, nothing behind it; too large a size changes nothing |
| `BlockIo.IoSpace.WriteBlock` | pcie/CH36X_LINUX/drv/ch36x.c:745-780 | the loop lays the buffer over the cells and changes no other; too large a size changes nothing |
| `BlockIo.ReadBack` | pcie/CH36X_LINUX/drv/ch36x.c:703-780 | reading after writing gives what was written, at every address |
| `BlockIo.WriteBack` | pcie/CH36X_LINUX/drv/ch36x.c:703-780 | writing back what was read changes nothing |
| `BlockIo.BlocksApart` | pcie/CH36X_LINUX/drv/ch36x.c:773-777 | a write does not disturb a block it does not overlap |
| `BlockIo.Then` | pcie/CH36X_LINUX/drv/ch36x.c:773-777 | two writes back to back are one write of both |
| `BlockIo.SixtyFourBits` | pcie/CH36X_LINUX/drv/ch36x.c:704-777 | addresses add up without wrapping below 2^64, and wrap there |
| `HexText.ChrToHex` | pcie/CH36X_LINUX/demo/ch36x_demo_CMD.c:1575-1606 | start times 16 to the number of digits not at index 0, plus the value of the digits, modulo 2^32 |
| `HexText.HexToChr` | pcie/CH36X_LINUX/demo/ch36x_demo_CMD.c:1618-1642 | the digits in place, at most eight of them, and nothing else in the buffer changed |
| `HexText.WordPrintsShort` | pcie/CH36X_LINUX/demo/ch36x_demo_CMD.c:1620-1634 | a word prints as at most eight digits, so the scratch array is never overrun |
| `HexText.DigitTable` | pcie/CH36X_LINUX/demo/ch36x_demo_CMD.c:1582-1632 | which characters are read as which digit, and which is printed for it |
| `HexText.OnlyTheseAreHex` | pcie/CH36X_LINUX/demo/ch36x_demo_CMD.c:1582-1603 | every other character is skipped |
| `HexText.PrintsLowerCase` | pcie/CH36X_LINUX/demo/ch36x_demo_CMD.c:1629-1632 | letters are printed in lower case |
| `HexText.DigitsLowerCase` | pcie/CH36X_LINUX/demo/ch36x_demo_CMD.c:1575-1642 | and so are those of the normal form |
| `HexText.ReadingIsCaseBlind` | pcie/CH36X_LINUX/demo/ch36x_demo_CMD.c:1590-1603 | upper and lower case read alike, from any start |
| `HexText.ParseIsLastEight` | pcie/CH36X_LINUX/demo/ch36x_demo_CMD.c:1575-1606 | only the last eight digits count |
| `HexText.NormalForm` | pcie/CH36X_LINUX/demo/ch36x_demo_CMD.c:1575-1642 | parsing and printing any text gives its normal form |
| `HexText.SameWordIffSameNormalForm` | pcie/CH36X_LINUX/demo/ch36x_demo_CMD.c:1575-1642 | texts read alike if and only if their normal forms are equal |
| `HexText.PrintThenParse` | pcie/CH36X_LINUX/demo/ch36x_demo_CMD.c:1575-1642 | the round trip on every 32-bit word |
| `HexText.PrintIsShortlexMonotone` | pcie/CH36X_LINUX/demo/ch36x_demo_CMD.c:1618-1642 | numeric order is shortlex order of the printed texts, both ways |
| `HexText.PrintedInBuffer` | pcie/CH36X_LINUX/demo/ch36x_demo_CMD.c:1636-1638 | what a caller reads from its buffer, and that it is the printed word if and only if the buffer was cleared behind it |
| `Debounce.Button.IrqHandler` | gpio_wakeup/gpio_intr/gpio_intr.c:58-80 | deciding on wrapped readings is deciding on the true distance, wrapped |
| `Debounce.Button.EtxWrite` | gpio_wakeup/gpio_intr/gpio_intr.c:152-173 | sets the pin and nothing the handler relies on |
| `Debounce.CounterDistance` | gpio_wakeup/gpio_intr/gpio_intr.c:64 | the wrapped difference of wrapped readings |
| `Debounce.AcceptedAreApart` | gpio_wakeup/gpio_intr/gpio_intr.c:64-70 | accepted presses are 20 true ticks apart, over overflow and ticks between the two readings |
| `Debounce.RunAccepts` | gpio_wakeup/gpio_intr/gpio_intr.c:58-80 | the presses accepted over any run, whatever is written meanwhile |
| `Debounce.PinShowsParity` | gpio_wakeup/gpio_intr/gpio_intr.c:73-75 | after an accepted press the pin is the parity of accepted presses, whatever was written |
| `Debounce.PinAfterOthers` | gpio_wakeup/gpio_intr/gpio_intr.c:152-173 | a write of 1 puts the pin high, of 0 low; any other write and any rejected press leaves it; no write affects debouncing |
| `Debounce.HoldOffIsTwenty` | gpio_wakeup/gpio_intr/gpio_intr.c:64-68 | a press is accepted from 20 ticks after the last accepted one, and not before, in each turn of the counter |
| `Debounce.SpacedMeans` | gpio_wakeup/gpio_intr/gpio_intr.c:64-70 | spacing, said by position |
| `Debounce.TakenIsGreedyIff` | gpio_wakeup/gpio_intr/gpio_intr.c:64-70 | the handler follows the greedy rule if and only if no press falls just after a whole counter turn |
| `Debounce.WithinOneTurn` | gpio_wakeup/gpio_intr/gpio_intr.c:64-70 | which holds while gaps to the last accepted press stay below a turn |
| `Debounce.GreedyStaysAhead` | gpio_wakeup/gpio_intr/gpio_intr.c:64-70 | a later start of the hold-off costs the greedy rule at most one press |
| `Debounce.GreedyIsLargest` | gpio_wakeup/gpio_intr/gpio_intr.c:64-70 | no spaced selection is larger than the greedy one |
| `Debounce.TakenIsLargest` | gpio_wakeup/gpio_intr/gpio_intr.c:58-80 | so the handler accepts as many presses as any selection that keeps the hold-off |
| `Debounce.ShortfallIsBounded` | gpio_wakeup/gpio_intr/gpio_intr.c:58-80 | and without the condition it falls short by at most the presses turned away after whole turns |
| `Debounce.NoneTurnedAwayIff` | gpio_wakeup/gpio_intr/gpio_intr.c:64-68 | none is turned away exactly under the condition above |
| `Debounce.DroppedAfterWholeTurn` | gpio_wakeup/gpio_intr/gpio_intr.c:64-68 | a press that is lost that way |
| `FirmwareDump.SampleFwLoad` | linux_tips/firmware/firmware.c:27-47 | for every image and any number of rounds: every read in bounds, the lines printed so far, exactly when the dump has ended, and then the whole lines of the image once, in order |
| `FirmwareDump.AddressIsPosition` | linux_tips/firmware/firmware.c:39-42 | sixteen bytes a line, and before a line the number of bytes printed before it |
| `FirmwareDump.RowAfterIsCount` | linux_tips/firmware/firmware.c:38 | the row counter counts rounds until it wraps |
| `FirmwareDump.LoopEndsIff` | linux_tips/firmware/firmware.c:38 | the loop can end if and only if the image is below one mebibyte |

## Left out

- Kernel services (PCI core, character devices, interrupt core, signal delivery, allocation): only
  their success or failure, and the resources they stand for.
- User memory: ioctl arguments are already decoded and `copy_*_user` is a number of bytes left
  over; byte-wise `get_user` and `put_user` faults in the 2013 block loops are not modelled, nor is
  the unchecked length in `etx_write`.
- The raw register, memory and configuration ioctls, and the register dump at the end of a probe,
  which can reach any register and are thin wrappers.
- The graphical demo, the menus, the user-space libraries, and the remaining tutorial modules.
- Enumeration.OldDriver.RegisterChrdev: making a node in a destroyed class is undefined in the source
  and taken to fail; giving back the number range has no effect on the numbers.
- The 2013 driver's resources: its cleanup labels do not match what was acquired. Its exit function
  and what its open and release do to interrupt registers and lines are not modelled either.
- Two processes inside different operations of the 2021 driver at once, apart from the interleavings
  of `InterruptRaces`; in particular two probes racing on the count of cards.
- Device node creation in the 2021 driver, whose failure it only logs.
- Record fields `minor` and `ioaddr` are set when the record is made, not one by one during the
  probe; nothing reads them in between. Clearing of driver data by the PCI core is not modelled.
- Hardware: ports that are not SPI registers are plain bytes; of the output register only chip select
  may differ from what was written.
- InterruptRaces.PreemptionSafeModeChange: one mode change at a time, as the ioctl lock ensures; a
  release, which takes no lock, beside an enable is the subject of ReleaseRace.WhatAReleaseLeaves.
- InterruptRaces.LedgerBalances: totals only; what becomes of one latch is InterruptRaces.LatchKeptIff.
- InterruptRaces.OtherStatusBitsKept: works on status bytes with latch and level taken out, which
  InterruptRaces.UnpackedFaithfully shows to lose nothing.
- Ch36xDevice.Ch36xDev.StreamSpi: lengths stay below 2^31 when the buffer is had, as no kernel
  allocation is larger.
- FirmwareDump.SampleFwLoad: the unchecked allocation is taken to succeed; a dump that does not end
  is followed for any number of rounds.
- HexText.ChrToHex: the text is shorter than 2^31 characters and holds no NUL, as a C string.
- BlockIo.IoSpace.ReadBlock: the buffer is as long as the size says whenever the size is accepted.
