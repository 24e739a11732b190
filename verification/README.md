# Speeduino: verified models of six control cores

A Dafny 4.11 project that models the state machines and the fixed-point arithmetic at the heart of the
Speeduino firmware, and proves what they do over all inputs and all runs. `dafny verify dfyconfig.toml`
checks everything.

Each core that updates state step by step is a class with the firmware's variables as fields. Every
method that stands for a function of the firmware is proved to take the abstract state `Abs()` exactly
to the value of a step function; the theorems are then about the step function, over sequences of
interrupts, readings, polls or bytes of any length. Unsigned arithmetic is written out modulo 2^8,
2^16 and 2^32. RPM readings, random draws, the free space of the serial port and the outcome of each
write are arbitrary at every step.

- **Decoders.** The missing-tooth primary (`MissingTooth`, `MissingToothTracking`,
  `MissingToothStart`, `MissingToothStamps`, `MissingToothRecovery`), Honda J32 (`HondaJ32`,
  `HondaJ32Wheel`, `HondaJ32Revolution`, `HondaJ32Restart`), the NGC 6/8 cam (`NgcCam`,
  `NgcCamTracking`) and Subaru 6/7 (`Subaru67`, `Subaru67Cycle`). A physical wheel with a true position
  and a true time runs beside the decoder. The results are self-stabilisation, then exact tracking.
- **Cut.** `EngineProtection` and `EngineProtectionRuns`: the rev-limit cut as a machine on channel
  masks, with the fuel history of each channel beside it.
- **PWM.** `VvtPwm` and `VvtPwmTiming`: two waveforms from one compare register, with an unwrapped clock
  beside them.
- **Serial line.** `SerialFrame`, `SerialParser`, `SerialComms`: both pumps in one class that shares the
  buffer, the counter and the status, with any chunking. `ToothLog` and `ToothLogRuns`: the resumable
  tooth log. The checksum is any function that is computed byte by byte.
- **Arithmetic.** `FixedPoint`, `CrankMaths`, `CrankRoundTrip`, `StagedInjection`: error bounds and
  conservation of fuel.
- **Knock.** `KnockRecovery` and `KnockRecoveryRuns`: recovery depends on time, not on polling.

## Where the code does not do what one would expect

Each of these is proved, with the exact condition under which the code does.

- A missing-tooth stamp that reads exactly zero on one of the two teeth before the gap loses tooth 1, and
  once locked at constant speed no other stamp does (`TracksAfterLockIff`, `ZeroStampIsReached`). The
  decoder is back on the wheel one or two turns later (`RecoversAfterLastTooth`,
  `RecoversAfterLastButOne`). The second zero test inside the gap branch (decoders.cpp:568) can never be
  true, since the branch is only entered with both stamps positive.
- A missing-tooth decoder that first sees the last tooth before the gap declares full sync at a wrong
  tooth, in two stretches, before it locks. From set-up no other start does, and the loss counter still
  rises by exactly one (`FalselySyncedIff`, `MissingToothStart.SelfStabilises`).
- When the engine stalls, the main loop resets the decoder and sets it up again, but it leaves out the
  set-up while a tooth log or a composite log is taken (speeduino.ino:204, 221-223). The reset alone keeps
  the tooth count. A missing-tooth decoder then also syncs falsely from other first teeth
  (`StartFalselySyncsIff` says from which), but it still locks within two turns and one tooth, and loses
  sync at most once.
- A J32 decoder keeps the last gap as well. After such a stall it can declare full sync at any tooth
  (`FalselySyncsIff`), and a small gap that was kept can mask every tooth for good (`SyncsForGoodIff`); set
  up again, it does as after power-up.
- Honda J32, from set-up, syncs if and only if a gap is at least three halves of a wide interval, which
  the real wheel meets with nothing to spare, and the first time stamp is not too small
  (`SyncReachedIff`). The first revolution time it publishes, eight edges after it syncs, is an eighth too
  long; all later ones are true (`RevolutionTimesPublished`, `FirstRevolutionTimeIsAnEighthTooLong`).
- Dropping the cut altogether brings ignition back at once, without two revolutions of fuel
  (`EarlyReturnIff`). An ignition output that is off when a draw leaves it on comes back if and only if it
  has an injector channel; without one it stays off while the rolling cut lasts (`DrawnOutputReturnsIff`,
  `OutputWithoutInjectorStaysOff`).
- Inside the window of a rolling cut, masks and status stay as they were until a draw or pending ignition is
  due; until then the status may still be that of a full cut or of none (`WindowBetweenDraws`).
- The revolution counter begins again at every stall and resync, the revolution of the last draw does not.
  Until the counter has caught up, the rolling cut is frozen (`FrozenThroughout`), but ignition never
  comes back too early for that (`IgnitionWaitsForFuel`).
- A PWM duty of the whole period programs a distance of zero (`FullDutyStallsIff`).
- The PWM handler counts its distances from the moment it is served, so that every wait lengthens the
  period and the pulses that are on (`PeriodsAreMaxAndWaits`).
- The serial time-out is tested by receiving calls also while an answer is being sent; when it strikes,
  the answer is cut short (`SerialReceive`, `TimeOut`).
- With staging switched on but too few injector channels, the pulse is neither split nor limited
  (`UnsplitPulseIsLimitedIff`).
- An angle converted to a time and back may come back changed from 30531 microseconds on
  (`RoundTripsUpToIff`).
- If the first call that sends the tooth log finds no room for a record, the header is sent again by the
  next call (`LogOnTheWire`, `SameBytesIff`).
- A percentage from 2047 on is wrong for every value but zero, and 100% is exact only below 2^23
  (`PercentageBoundAtIff`, `HundredPercentIsExactIff`).
- A staging split above 100 delivers more than three times the fuel in every pulse of six microseconds or
  more (`LargeSplitOverfuels`, `TableConservesFlowAtIff`).
- Knock recovery truncates both the number of steps and the retard to give back to a byte, so sparse
  polling can lose nearly all of a recovery (`PollIsRightIff`, `SparsePollingLags`). With no hold time, a
  further knock has no effect (`FurtherKnockCountsIff`). With a threshold of zero the retard comes back
  at the poll after a complete recovery (`ReactivatedIff`).
- The comment in crankMaths.cpp that gives 3542 for the degrees per microsecond at the highest RPM
  does not fit the code, which gives 3539 (`DegreesAtTheLimits`).

## Model

| member | source | states |
|---|---|---|
| `Machine.StampDifference` | speeduino/elapsed_time.h:33-51 | the modular difference of two microsecond stamps is the true interval, across any rollover, for intervals below one counter period |
| `MissingTooth.Decoder.TriggerPrimary` | speeduino/decoders.cpp:541-656 | the interrupt handler takes the decoder state exactly to the state that one pulse determines |
| `MissingTooth.Decoder.SetFilter` | speeduino/decoders.cpp:406-434 | the filter time for the configured filter level |
| `MissingTooth.Decoder.Setup` | speeduino/decoders.cpp:866-893 | the decoder state after set-up, whatever it held before |
| `MissingTooth.Decoder.Stall` | speeduino/speeduino.ino:197-223 | what a stall leaves: a reset, which keeps the tooth count, no revolutions counted, and the set-up again unless a log is being taken |
| `MissingToothTracking.TrackStepIff` | speeduino/decoders.cpp:541-656 | a synced decoder stays on the true tooth after a pulse if and only if the pulse is admissible: it passes the filter, does not look like a gap where there is none, and no needed stamp reads zero |
| `MissingToothTracking.TracksThroughoutIff` | speeduino/decoders.cpp:541-656 | over every pulse stream, exact tracking at every tooth if and only if every pulse is admissible |
| `MissingToothTracking.ZeroStampBeforeGapLosesTooth` | speeduino/decoders.cpp:548-550 | a tooth just before the gap whose stamp reads exactly zero makes tooth 1 be missed |
| `MissingToothTracking.TurnKeepsMatch` | speeduino/decoders.cpp:541-656 | one well-formed tooth keeps the decoder equal to the physical wheel: index, stamps, revolution count, half of the cycle |
| `MissingToothTracking.TracksAcceleratingWheel` | speeduino/decoders.cpp:406-434 | under acceleration within 3/4 and 1.5 (or m) times the interval before, under every filter setting and any RPM reading, the decoder equals the wheel for ever, without a loss of sync |
| `MissingToothTracking.PublishedTimeIsTrue` | speeduino/decoders.cpp:366-377 | the published revolution time is the true time of the last turn, and it is published exactly when the engine is past cranking and the stamps are usable |
| `MissingToothTracking.SkipStepIff` | speeduino/decoders.cpp:554-571 | skipping the gap test at speed changes the outcome of a pulse exactly when the skipped test would have seen a gap |
| `MissingToothTracking.SkippingRefinesFullTest` | speeduino/decoders.cpp:554-571 | on every well-formed stream, with any RPM at each tooth, skipping the gap test gives the same decoder state as always testing |
| `MissingToothTracking.NoiseIsDroppedIff` | speeduino/decoders.cpp:406-434 | after an accepted regular tooth at an interval whose triple fits, an edge d later leaves the decoder untouched if and only if 4 * (d + 1) is at most 0, 1, 2 or 3 times the interval, for the filter off, light, medium or aggressive |
| `MissingToothTracking.GapSyncsIff` | speeduino/decoders.cpp:597-619 | at the gap, a decoder without full sync finds it if and only if it is not sequential, needs no cam tooth or has seen one; the revolution count starts anew where there was no sync, and only the cam counts that are used up are cleared |
| `MissingToothTracking.NoFullSyncWithoutCam` | speeduino/decoders.cpp:600-610 | a sequential engine that needs a cam tooth and gets none never has full sync, whatever pulses come |
| `MissingToothStart.QuietUntilRollover` | speeduino/decoders.cpp:541-550 | until the microsecond counter first rolls over, no stamp reads zero, so that what follows applies to any slow start |
| `MissingToothStart.PhaseAt` | speeduino/decoders.cpp:541-639 | at every pulse from the second on, after set-up or after a stall, the decoder is in the phase that the first tooth seen and the stale count determine: searching, falsely synced, lost, one behind, or locked |
| `MissingToothStart.SelfStabilises` | speeduino/decoders.cpp:541-639 | after set-up or a stall, whichever tooth is seen first and whatever the stale count, full sync at the true tooth within two turns and one tooth and for ever after; sync is lost at most once, and exactly when the count overflows at a tooth other than tooth 2 |
| `MissingToothStart.FalselySyncedIff` | speeduino/decoders.cpp:541-639 | at any pulse of any run, full sync at a wrong tooth if and only if the count overflows before the first gap that can be seen and the pulse is in one of two stretches: from the overflow to that gap, or from the tooth after it to the lock |
| `MissingToothStart.StartFalselySyncsIff` | speeduino/decoders.cpp:345-354 | a start has a false sync somewhere if and only if the first tooth seen is the last before the gap, or two teeth or more can follow it and the count that a reset kept is no less than its number |
| `MissingToothStart.StallKeeps` | speeduino/speeduino.ino:197-223 | field by field, what a stall clears and what it keeps, with and without a log being taken |
| `MissingToothStamps.TracksAfterLockIff` | speeduino/decoders.cpp:541-656 | once locked at constant speed, the true tooth at every pulse if and only if no tooth 1 has a zero stamp on one of the two teeth before it; zero stamps elsewhere do no harm |
| `MissingToothStamps.ZeroStampIsFatal` | speeduino/decoders.cpp:548-550 | the first tooth 1 with such a stamp before it is missed, in every run |
| `MissingToothStamps.ZeroStampIsReached` | speeduino/decoders.cpp:548-550 | a concrete 4-1 wheel whose counter rolls over at its last tooth: locked, then a zero stamp, then tooth 1 missed |
| `MissingToothRecovery.RecoversAfterLastTooth` | speeduino/decoders.cpp:541-639 | after a zero stamp on the last tooth before the gap, at any RPM: not on the true tooth for exactly two turns, sync lost once, at the second gap, and on the wheel from the third on |
| `MissingToothRecovery.RecoversAfterLastButOne` | speeduino/decoders.cpp:541-639 | after one on the tooth before that: at a wrong tooth for exactly one turn, from tooth 1 on, no loss of sync, and on the wheel from the next gap on |
| `HondaJ32.Decoder.TriggerPrimary` | speeduino/decoders.cpp:2407-2463 | the interrupt handler takes the decoder state exactly to the state that one edge determines |
| `HondaJ32.Decoder.Stall` | speeduino/speeduino.ino:197-223 | what a stall leaves: a reset, which keeps the tooth count and the last gap, no revolutions counted, and the set-up again unless a log is being taken |
| `HondaJ32Wheel.RealWheel` | speeduino/decoders.cpp:2388-2406 | the wheel of 15, 18 and 27 degrees just meets the gap condition: a gap one microsecond shorter does not |
| `HondaJ32Wheel.NeverFalselySynced` | speeduino/decoders.cpp:2417-2463 | from set-up, full sync never comes with a wrong tooth number, from any first tooth on, on any wheel with this order of teeth, whatever the first stamp |
| `HondaJ32Wheel.SyncedFromEdge38` | speeduino/decoders.cpp:2417-2463 | from set-up, full sync at the true tooth at every edge from the 39th on |
| `HondaJ32Wheel.SyncReachedIff` | speeduino/decoders.cpp:2443-2461 | from set-up, sync is ever reached if and only if the gap is at least three halves of a wide interval and the first stamp does not mask plain teeth |
| `HondaJ32Restart.FalselySyncsIff` | speeduino/decoders.cpp:2443-2461 | after a stall, full sync comes at a wrong tooth somewhere if and only if the count kept is fifteen at one of the first two edges, and that looks like one after a missing tooth without being tooth 16, or it reaches fifteen at the gap that ends the string of seven |
| `HondaJ32Restart.SettlesOrNever` | speeduino/decoders.cpp:2407-2463 | after a stall, either full sync at the true tooth at every edge from the 70th on, or no sync at all from some edge on |
| `HondaJ32Restart.SyncsForGoodIff` | speeduino/decoders.cpp:2407-2463 | the former if and only if, where gaps stand out, the gap kept after the first edge does not mask plain teeth or one of the first two edges brought sync; and, where they do not, by good luck alone |
| `HondaJ32Restart.StallKeeps` | speeduino/speeduino.ino:197-223 | field by field, what a stall clears and what it keeps, with and without a log being taken |
| `HondaJ32Restart.RunsAlikeWithoutLogging` | speeduino/speeduino.ino:197-223 | set up again after a stall, the decoder goes through the states of a first start at every edge, but for the time published last |
| `HondaJ32Wheel.StuckOnFirstStamp` | speeduino/decoders.cpp:2443-2461 | a small non-zero first stamp is never replaced as the last gap, and sync never comes |
| `HondaJ32Wheel.GapsGoUnseen` | speeduino/decoders.cpp:2443-2461 | a gap that does not stand out after a wide tooth is never recognised |
| `HondaJ32Revolution.SyncBeginsAtSixteen` | speeduino/decoders.cpp:2443-2461 | the edge that brings full sync is that of tooth 16 |
| `HondaJ32Revolution.RevolutionTimesPublished` | speeduino/decoders.cpp:2421-2456 | over every run from set-up that syncs, at every tooth 1 after the edge that syncs it: the true turn is published, except eight edges after that edge, where the estimate from one wide interval is |
| `HondaJ32Revolution.FirstRevolutionTimeIsAnEighthTooLong` | speeduino/decoders.cpp:2388-2456 | on the real wheel every run with a usable first stamp syncs by the 39th edge, publishes exactly 9/8 of the true turn eight edges later, and the true turn ever after |
| `HondaJ32Revolution.EstimatedStamps` | speeduino/decoders.cpp:2443-2456 | the edge that brings sync puts the two tooth ones 15 and 39 wide intervals back |
| `HondaJ32Revolution.ToothOneStamps` | speeduino/decoders.cpp:2421-2428 | at each tooth 1 from then on, the two stamps are the true ones of this tooth 1 and the one before, but for the estimate at the first |
| `HondaJ32Revolution.RevolutionsAreCounted` | speeduino/decoders.cpp:2421-2428 | while in sync, the revolution count rises by the number of tooth ones passed, over any number of edges |
| `HondaJ32Wheel.SyncedEdgeTracksIff` | speeduino/decoders.cpp:2417-2440 | in sync, at any speed, an edge keeps the count on the wheel if and only if a gap is not too short |
| `NgcCam.Decoder.TriggerSecondary` | speeduino/decoders.cpp:4876-4926 | the cam interrupt takes the state exactly to the state that one edge determines, with the group search as a loop over the angle table |
| `NgcCamTracking.PairsAreUnique` | speeduino/decoders.cpp:5017-5039 | in both cam tables every consecutive pair of group sizes occurs once |
| `NgcCamTracking.FindGroupFinds` | speeduino/decoders.cpp:4900-4910 | the search finds the true group from its size and that of the group before |
| `NgcCamTracking.GroupCompletedIsRightOrFits` | speeduino/decoders.cpp:4893-4915 | after a true group is completed the number is right, or the group it believes in has the same size |
| `NgcCamTracking.GroupCompletedIsRightIff` | speeduino/decoders.cpp:4893-4915 | the number is right after a true group if and only if none was believed in, or the one before was, or the size of the next one believed in does not match |
| `NgcCamTracking.OneGroupMayNotSuffice` | speeduino/decoders.cpp:4893-4915 | a concrete wrong number that one complete group does not correct |
| `NgcCamTracking.GroupIsCounted` | speeduino/decoders.cpp:4876-4926 | a clean group of any number of teeth completes the group before it and is counted in full |
| `NgcCamTracking.NoiseIsDroppedIff` | speeduino/decoders.cpp:4876-4926 | after a tooth inside a group, an edge d later leaves the decoder untouched if and only if 4 * d is at most the interval before |
| `NgcCamTracking.FilterOpensAtGroup` | speeduino/decoders.cpp:4876-4926 | after the first tooth of a group only an edge in the same microsecond is dropped |
| `NgcCamTracking.GroupSizes` | speeduino/decoders.cpp:5017-5039 | the sizes of the groups of both cams, and that the tables hold them in order round the cam, from one before the first to one after the last |
| `NgcCamTracking.FindGroupFailsIff` | speeduino/decoders.cpp:4900-4910 | the search fails if and only if no two consecutive groups have the sizes sought |
| `NgcCamTracking.WrongSizesLoseNumber` | speeduino/decoders.cpp:4893-4915 | a size that does not fit and a pair of sizes that occurs nowhere: the number is given up |
| `NgcCamTracking.ExactForEver` | speeduino/decoders.cpp:4893-4915 | an exact group number stays exact through every group and every wrap |
| `NgcCamTracking.ExactAfterTwoGroups` | speeduino/decoders.cpp:4893-4915 | from any group number, with the sizes of two groups on record, exact after at most two further complete groups and for ever after |
| `NgcCamTracking.SelfStabilises` | speeduino/decoders.cpp:4876-4926 | from any state with a cam stamp, exact from the fourth clean group on |
| `NgcCamTracking.SelfStabilisesFromSetup` | speeduino/decoders.cpp:4876-5012 | the same from set-up, where there is no cam stamp yet, after any edges of which the first passes the filter and none is stamped zero |
| `Subaru67.Decoder.TriggerPrimary` | speeduino/decoders.cpp:3292-3390 | the crank interrupt takes the state exactly to the state that one tooth determines |
| `Subaru67.Decoder.TriggerSecondary` | speeduino/decoders.cpp:3411-3447 | the cam interrupt takes the state exactly to the state that one tooth determines |
| `Subaru67.Decoder.Stall` | speeduino/speeduino.ino:197-223 | what a stall leaves: a reset, which keeps the count and opens the crank filter, no revolutions counted, and the set-up again unless a log is being taken |
| `Subaru67Cycle.FullSyncHasAToothNumber` | speeduino/decoders.cpp:3292-3390 | under every order of crank and cam interrupts, noise and stalls included, full sync comes with a count in 1..12 |
| `Subaru67Cycle.BlockAligns` | speeduino/decoders.cpp:3411-3447 | any state is nearly aligned with the cam groups one block later and aligned one block after that |
| `Subaru67Cycle.BigGroupLocks` | speeduino/decoders.cpp:3305-3370 | a group of two or three cam teeth, aligned at its first, makes the count exact whatever it was |
| `Subaru67Cycle.ExactStays` | speeduino/decoders.cpp:3292-3390 | from an exact count, every crank tooth of the next block is exact and in full sync |
| `Subaru67Cycle.ExactForEver` | speeduino/decoders.cpp:3292-3390 | the count stays exact for ever on the clean 3-1-2-1 pattern, with full sync |
| `Subaru67Cycle.SelfStabilises` | speeduino/decoders.cpp:3292-3390 | from any state at all, exact after four clean groups and in full sync from the fifth on |
| `Subaru67Cycle.ToothOnesAreTrue` | speeduino/decoders.cpp:3377-3383 | over any clean run from an exact count, the two tooth-one stamps are those of the last crank teeth of the last two blocks of the fourth group, in order, and the revolution count rises by one for each such block |
| `Subaru67Cycle.OneInFour` | speeduino/decoders.cpp:3377-3383 | of n consecutive blocks, as many end with tooth 1 as there are fourth groups among them |
| `Subaru67Cycle.HalfACycleIsPublished` | speeduino/decoders.cpp:366-377 | with two true tooth-one stamps, what is published is half the true time of the cycle, exactly when the engine is past cranking, the older stamp is not zero and the counter did not roll over in between |
| `Subaru67Cycle.SmallGroupGuesses` | speeduino/decoders.cpp:3319-3330 | an aligned group of one cam tooth confirms a count of 5 or 11, and sets any other to 5 without sync |
| `Subaru67Cycle.CrankSyncIff` | speeduino/decoders.cpp:3292-3390 | an accepted crank tooth leaves full sync if and only if the cam teeth just before it are right for its number, or there were none, sync was full and the cycle was not too long; each failure is counted once |
| `Subaru67Cycle.CamCountsIff` | speeduino/decoders.cpp:3411-3447 | a cam tooth at the right distance counts if and only if it passes the filter, and changes nothing else |
| `Subaru67Cycle.CamNoiseIsDroppedIff` | speeduino/decoders.cpp:3411-3447 | after a cam tooth that is not the first of a group, an edge d later leaves the decoder untouched if and only if 4 * d is at most the interval before; after the first, only in the same microsecond |
| `Subaru67Cycle.CamTooLate` | speeduino/decoders.cpp:3411-3447 | a cam tooth more than three crank teeth after the last one: sync lost and counted, cam teeth counted anew |
| `Subaru67Cycle.CamTooEarly` | speeduino/decoders.cpp:3411-3447 | a cam tooth one or two crank teeth after the last one: the cam teeth are counted anew, and nothing else changes |
| `Subaru67Cycle.StallKeeps` | speeduino/speeduino.ino:197-223 | field by field, what a stall clears and what it keeps, with and without a log being taken |
| `EngineProtection.CutController.ApplyRollingCutPercentage` | speeduino/engineProtection.cpp:378-394 | the loop over the channels equals the rolling cut on all channels at once, for every sequence of draws |
| `EngineProtection.CutController.ApplyRollingCut` | speeduino/engineProtection.cpp:409-428 | a rolling step: redraw when due, then serve pending ignition |
| `EngineProtection.CutController.CalculateFuelIgnitionChannelCut` | speeduino/engineProtection.cpp:438-471 | one evaluation of the cut takes the masks and the draw revolution exactly to the next ones |
| `EngineProtection.RollStepOff` | speeduino/engineProtection.cpp:332-349 | drawing a channel off, as one step of the loop |
| `EngineProtection.RollStepOn` | speeduino/engineProtection.cpp:351-369 | drawing a channel on, as one step of the loop: ignition waits where fuel was off |
| `EngineProtectionRuns.StepKeepsInvariant` | speeduino/engineProtection.cpp:438-471 | no cut, full cut and rolling cut all keep the invariant over masks and fuel history |
| `EngineProtectionRuns.EarlyReturnIff` | speeduino/engineProtection.cpp:398-407 | ignition returns without two revolutions of fuel exactly when the cut is dropped altogether while such a channel was off; a rolling step never does it |
| `EngineProtectionRuns.IgnitionWaitsForFuel` | speeduino/engineProtection.cpp:351-428 | in every run with any draws, and however often the revolution counter goes back, ignition only returns with two true revolutions of fuel or because the cut is dropped |
| `EngineProtectionRuns.MasksFitThroughout` | speeduino/engineProtection.cpp:398-471 | over every run, however often the revolution counter goes back, ignition implies fuel (with no more ignition outputs than injector channels), fuel without ignition is pending, and no bit is set above the configured outputs |
| `EngineProtectionRuns.InvariantFromStart` | speeduino/engineProtection.cpp:438-450 | the invariant holds after the first evaluation of an engine that has just started |
| `EngineProtectionRuns.IgnitionImpliesFuelIff` | speeduino/engineProtection.cpp:430-436 | ignition implies fuel after a step without a cut if and only if every ignition output has an injector channel |
| `EngineProtectionRuns.OutputWithoutInjectorStaysOff` | speeduino/engineProtection.cpp:378-428 | an ignition output without an injector channel, once cut, stays off over every run of rolling steps |
| `EngineProtectionRuns.DrawnOutputReturnsIff` | speeduino/engineProtection.cpp:351-428 | an output that is off when a draw leaves it on is back two revolutions later if and only if it has an injector channel |
| `EngineProtectionRuns.FrozenThroughout` | speeduino/engineProtection.cpp:409-428 | after a restart, until the revolution counter has caught up with the revolution of the last draw, a rolling cut with any draws leaves the masks as they were |
| `EngineProtectionRuns.PendingIsServed` | speeduino/engineProtection.cpp:398-407 | two revolutions after a draw, and before the next, every fuelled channel has its ignition back |
| `EngineProtectionRuns.MaxRpmIsLowestLimit` | speeduino/engineProtection.cpp:174-228 | the RPM at which the engine is cut is the lowest of the limits in force, each in its own units |
| `EngineProtectionRuns.LimitIsHard` | speeduino/engineProtection.cpp:438-462 | at or above any limit in force, everything the tune protects by cutting is off, the rest is on as configured, and nothing is pending |
| `EngineProtectionRuns.StartingEngineIsCut` | speeduino/engineProtection.cpp:438-450 | without sync, or before the revolutions asked for, everything is off and nothing is pending |
| `EngineProtectionRuns.NothingIsCutBelow` | speeduino/engineProtection.cpp:288-294 | with no protection, or below every limit by more than the window of a rolling cut: both masks are the configured channels, nothing is pending, and the revolution of the last draw is unchanged |
| `EngineProtectionRuns.WindowDraws` | speeduino/engineProtection.cpp:332-428 | inside the window of a limit, when a draw is due: each channel, for every kind of protection, loses what is cut if and only if its own draw is below the percentage; any other has fuel and, unless it has to wait, ignition; the status is rolling |
| `EngineProtectionRuns.WindowBetweenDraws` | speeduino/engineProtection.cpp:398-428 | inside the window, between draws: the masks stay, but for ignition that has waited long enough, and so does the status unless there is such ignition |
| `EngineProtectionRuns.WindowCutsAll` | speeduino/engineProtection.cpp:332-394 | inside the window, with a draw due and every draw below the percentage, all that the tune protects by cutting is off |
| `VvtPwm.Pwm.VvtInterrupt` | speeduino/auxiliaries.cpp:406-519 | the compare interrupt takes flags, latches, next event and compare register exactly to the next ones |
| `VvtPwmTiming.FirstInterrupt` | speeduino/auxiliaries.cpp:406-440 | the first interrupt of idle outputs starts a period that is on time |
| `VvtPwmTiming.StepOnTime` | speeduino/auxiliaries.cpp:406-519 | every interrupt, after any rewriting of the duties below 100% and any wait to be served, is on time: the state fits the true instant of the period, put off by the sum of the waits |
| `VvtPwmTiming.DistanceIsExact` | speeduino/auxiliaries.cpp:406-519 | every programmed distance is the true one to the next edge and lies in 1..65535 |
| `VvtPwmTiming.EveryPeriodIsExact` | speeduino/auxiliaries.cpp:406-519 | over any number of interrupts with any rewriting of duties and any waits, each output is on for the ticks latched at the start of the period and the waits in between; what is late is late by the sum of the waits and nothing else |
| `VvtPwmTiming.PeriodsAreMaxAndWaits` | speeduino/auxiliaries.cpp:406-519 | between the starts of any two periods lie max ticks for each and the waits in between |
| `VvtPwmTiming.Waveform` | speeduino/auxiliaries.cpp:406-519 | at every instant an output is on exactly while the period has got less far than its latched duty, so in one block; the period stands still while an interrupt waits |
| `VvtPwmTiming.FullDutyStallsIff` | speeduino/auxiliaries.cpp:447-519 | whichever output or outputs end last, the distance programmed to the end of the period is zero exactly when the latched duty is the whole period |
| `VvtPwmTiming.PulseEndsUnlessFull` | speeduino/auxiliaries.cpp:447-519 | the event that ends a pulse leaves its output on and marked if the duty has become the whole period, and switches it off otherwise; the other output is untouched |
| `VvtPwmTiming.RestAfterBoth` | speeduino/auxiliaries.cpp:487-519 | where both pulses end together, the rest of the period is counted from an output that is not at 100%, and nothing is programmed if both are |
| `VvtPwmTiming.FullDutyStaysOn` | speeduino/auxiliaries.cpp:406-519 | an output that is on and whose duty is 100% at every interrupt stays on, over any number of interrupts and whatever the other output does |
| `VvtPwmTiming.ZeroDutyStaysOff` | speeduino/auxiliaries.cpp:406-519 | an output that is off and whose duty is zero at every interrupt stays off |
| `VvtPwmTiming.DutyBelowFullIff` | speeduino/maths.h:330-340 | a duty in half percent gives fewer ticks than the period exactly when what it lacks is worth more than half a tick |
| `SerialFrame.SwappedIsBigEndian` | speeduino/comms.cpp:144-150 | the swapped number, sent from low to high address, puts the most significant byte first |
| `SerialFrame.ReversedIsBigEndian` | speeduino/comms.cpp:168-175 | filling memory from its end reads a number most significant byte first, for any size |
| `SerialFrame.BigEndianIsInverted` | speeduino/comms.cpp:182-196 | reading back a number that was written most significant byte first gives the number |
| `SerialFrame.BigValueIsInverted` | speeduino/comms.cpp:201-217 | writing a number that was read gives the same bytes |
| `SerialFrame.AbsorbInParts` | speeduino/comms.cpp:1157-1158 | a running checksum over parts is the checksum over the whole |
| `SerialParser.WireIsDispatched` | speeduino/comms.cpp:495-567 | what the sending side frames is dispatched once, unchanged, and nothing else happens |
| `SerialParser.RoundTripIff` | speeduino/comms.cpp:506-531 | a message survives the round trip if and only if the high byte of its length is no command and no reset byte |
| `SerialParser.BufferLengthsStartFrames` | speeduino/comms.cpp:506-531 | no length below 0x3F00, and so none that a buffer allows, is taken for a command or a reset |
| `SerialParser.FirstByteIff` | speeduino/comms.cpp:506-531 | the first byte of a message is dropped exactly if it is 0xF0, a legacy command exactly if it is F or, before the first message, lies in A..z or is a question mark, and otherwise begins a length |
| `SerialParser.AllAreDispatched` | speeduino/comms.cpp:495-567 | messages sent one after the other are dispatched one after the other, each once |
| `SerialParser.WrongCrcIsRefused` | speeduino/comms.cpp:548-563 | a checksum that does not match is refused and dispatches nothing |
| `SerialParser.DispatchedOnlyIfSent` | speeduino/comms.cpp:495-567 | from any bytes whatever, a command is dispatched only when the bytes just heard end with exactly its framed message |
| `SerialComms.Comms.WriteNonBlocking` | speeduino/comms.cpp:224-242 | what is written is the prefix that the count returned says, wherever the port stops |
| `SerialComms.Comms.WriteNumberNonBlocking` | speeduino/comms.cpp:247-252 | a number resumed at any of its four bytes goes out most significant byte first |
| `SerialComms.Comms.SendBufferAndCrcNonBlocking` | speeduino/comms.cpp:265-278 | buffer and checksum from the old position to the new one, no byte lost or repeated |
| `SerialComms.Comms.SendSerialPayloadNonBlocking` | speeduino/comms.cpp:289-297 | a new message is begun behind all earlier ones; inactive exactly when what was sent is all that was framed |
| `SerialComms.Comms.SerialTransmit` | speeduino/comms.cpp:579-602 | resuming keeps what was sent a prefix of the framed messages; not transmitting exactly when everything is out |
| `SerialComms.Comms.SendReturnCodeMsg` | speeduino/comms.cpp:308-313 | a return code goes out as a framed message of one byte |
| `SerialComms.Comms.ReadIntegral` | speeduino/comms.cpp:168-196 | a number is read from the line, most significant byte first; it fails only if the line falls silent or the time for the message runs out |
| `SerialComms.Comms.JudgeMessage` | speeduino/comms.cpp:548-563 | a message is dispatched, answered and legacy commands locked out, or it is refused with one return code and the line flushed |
| `SerialComms.Comms.ReceiveCrc` | speeduino/comms.cpp:541-563 | the end of a message takes the receiver where the protocol says, and what is said is what its event gives rise to |
| `SerialComms.TimesOutIff` | speeduino/comms.cpp:124-127 | a message has timed out exactly from 400 milliseconds after its start on, across any rollover of the clock |
| `SerialComms.Comms.TimeOut` | speeduino/comms.cpp:569-576 | giving up in the middle of sending cuts that message short; the return code follows it |
| `SerialComms.Comms.SerialReceive` | speeduino/comms.cpp:495-576 | one call, whatever has arrived: without a timeout the receiver has done with every byte what the protocol says, with at most one event, and the messages grow by exactly what the event gives rise to; a message being sent survives if and only if the time since the latest message began is below the limit |
| `SerialComms.IntactLineIsHeard` | speeduino/comms.cpp:495-567 | on a line without damage no call drops a byte |
| `SerialComms.Comms.OnePass` | speeduino/speeduino.ino:156-167 | on a line without damage, a pass either receives what it reads, or finds that the time has run out since a message began, in this pass or in an earlier one and in progress ever since |
| `SerialComms.Comms.MainLoop` | speeduino/speeduino.ino:156-167 | over any number of passes, on a line without damage: until a pass is late every byte read is received, and the messages are what the events of the passes give rise to, in order; a pass is late only when the limit has passed since the pass in which the message in progress began |
| `SerialComms.Comms.SentIsPrefix` | speeduino/comms.cpp:224-297 | what has been sent is a prefix of the framed messages, and all of them when nothing is in progress |
| `SerialComms.MessagesAreIntact` | speeduino/comms.cpp:495-567 | framed messages of any content make a line on which nothing is refused |
| `SerialComms.HeardOfCommands` | speeduino/comms.cpp:495-567 | after any number of bytes, the commands dispatched are the first of those sent; after the last byte, all of them |
| `SerialComms.ServeCommands` | speeduino/comms.cpp:495-602 | both pumps together, in any pieces: until a pass is late each command is dispatched once and in order and the messages are exactly the answers of the passes that dispatched, in order; a pass is late only when a single command has taken longer than the limit, with no other command dispatched since it began; and what was sent is always a prefix of the frames |
| `ToothLog.ToothLogger.Pad` | speeduino/comms.cpp:1125-1133 | a log that is not full is filled up with zeros and otherwise unchanged |
| `ToothLog.ToothLogger.SendToothLog` | speeduino/comms.cpp:1122-1169 | one call sends the header if nothing was sent, then the records there is room for, then the checksum after the last |
| `ToothLogRuns.LogOnTheWire` | speeduino/comms.cpp:1122-1169 | whatever the interruptions: the header once for each call that found nothing sent, every record once in order, the checksum of the return code and all records |
| `ToothLogRuns.UninterruptedIsFramed` | speeduino/comms.cpp:1135-1168 | an uninterrupted log is one framed message |
| `ToothLogRuns.SameBytesIff` | speeduino/comms.cpp:1122-1169 | interrupted or not, the same bytes go out if and only if the first call sends at least one record |
| `ToothLogRuns.PaddedAt` | speeduino/comms.cpp:1125-1133 | record by record: the log taken so far and zeros after it, or all of a full log |
| `FixedPoint.PercentageBound` | speeduino/maths.h:244-302 | up to 2046%, for values that do not overflow, the result is within value / 2^(b+1) + 1/2 of the exact percentage, b being the precision chosen |
| `FixedPoint.PercentageBoundIff` | speeduino/maths.h:271-302 | that bound holds for every value that fits if and only if the percentage is at most 2046 |
| `FixedPoint.PercentageBoundAtIff` | speeduino/maths.h:142-154 | for each value but zero that fits, the bound holds if and only if the percentage is at most 2046 |
| `FixedPoint.HundredPercentIsExactIff` | speeduino/maths.h:231-302 | 100% gives the value itself if and only if the value is below 2^23 |
| `FixedPoint.ShortcutIsFullCalculationIff` | speeduino/corrections.cpp:802-807 | skipping a correction of 100% agrees with the full calculation if and only if the sum is below 2^23 |
| `FixedPoint.PrecisionIsFinest` | speeduino/maths.h:271-302 | up to 2046%, the scale chosen is the largest of 32, 64, 128, 256 and 512 for which the scaled percentage fits into 16 bits |
| `FixedPoint.ShiftIsNear` | speeduino/maths.h:231-236 | a shift with rounding is within one half of the quotient |
| `CrankMaths.RangeLimits` | speeduino/crankMaths.h:14-43 | the range of revolution times is exactly that of the RPM limits |
| `CrankMaths.AngleConverter.Time` | speeduino/crankMaths.cpp:31-53 | the time for an angle, within angle/512 + 1/2 microseconds of the true one |
| `CrankMaths.AngleConverter.Angle` | speeduino/crankMaths.cpp:31-53 | the angle for a time, within time/65536 + 1/2 degrees of the true one |
| `CrankMaths.AngleToTimeBound` | speeduino/crankMaths.cpp:31-45 | no 32-bit overflow up to 720 degrees, and the error bound |
| `CrankMaths.TimeToAngleBound` | speeduino/crankMaths.cpp:31-53 | no 32-bit overflow up to two revolutions, and the error bound |
| `CrankMaths.DegreesAtTheLimits` | speeduino/crankMaths.cpp:23-35 | at the highest speed the code computes 3539, where its comment says 3542; at the lowest it computes 8 |
| `CrankRoundTrip.RoundTripBelow30531` | speeduino/crankMaths.cpp:31-53 | an angle converted to a time and back is unchanged, at every speed, whenever the time is at most 30530 microseconds |
| `CrankRoundTrip.RoundTripsUpToIff` | speeduino/crankMaths.cpp:31-53 | all angles whose times are at most a limit come back, at every speed, if and only if the limit is below 30531 microseconds |
| `CrankMaths.LongTimesDoNotRoundTrip` | speeduino/crankMaths.cpp:31-53 | a concrete angle that comes back changed, from a time of 30531 microseconds |
| `CrankMaths.InjectorLimits` | speeduino/crankMaths.h:55-60 | taking off whole cycles leaves the remainder |
| `CrankMaths.SignedInjectorLimits` | speeduino/crankMaths.h:62-67 | the same for negative angles, to which whole cycles are added first |
| `StagedInjection.AutoConservesFlow` | speeduino/fuel_calcs.cpp:208-224 | automatic mode above the limit: requested minus delivered flow lies in [0, primary + secondary), and a saturated secondary pulse accounts for the rest |
| `StagedInjection.AutoConservesAllFlow` | speeduino/fuel_calcs.cpp:208-224 | the same without saturation: nothing but rounding is lost |
| `StagedInjection.BelowLimitConservesFlow` | speeduino/fuel_calcs.cpp:208-224 | automatic mode up to the limit: the primaries carry everything, short by less than one unit of pulse |
| `StagedInjection.TableConservesFlow` | speeduino/fuel_calcs.cpp:188-206 | table mode with a split of at most 100: short by at most total/512 + 1.5 (primary + secondary), over by at most total/512 + (primary + secondary)/2 |
| `StagedInjection.TableConservesFlowIff` | speeduino/fuel_calcs.cpp:188-206 | that holds for all inputs that fit if and only if the split is at most 100 |
| `StagedInjection.TableConservesFlowAtIff` | speeduino/fuel_calcs.cpp:188-206 | and so it does at each input that fits with a pulse of at least six microseconds |
| `StagedInjection.LargeSplitOverfuels` | speeduino/fuel_calcs.cpp:198-203 | above 100 the primary percentage wraps, and every pulse of at least six microseconds delivers more than three times what is asked for |
| `StagedInjection.PulseCoversOpening` | speeduino/fuel_calcs.cpp:137-160 | the pulse that is split always covers the opening time, so taking it off never wraps |
| `StagedInjection.SplittingConservesFlow` | speeduino/fuel_calcs.cpp:227-242 | splitting conserves the flow to within rounding, in table mode and in automatic mode on both sides of the limit |
| `StagedInjection.ComputedFlowIsConserved` | speeduino/fuel_calcs.cpp:137-261 | from the fuel to the two pulses, in both modes, the flow is conserved to within rounding; in automatic mode the shortfall is below one unit of pulse |
| `StagedInjection.UnsplitPulseIsLimitedIff` | speeduino/fuel_calcs.cpp:160-170 | a pulse that is not split keeps to the limit if and only if it would anyway, or staging is switched off and the engine is not cranking: with too few channels it is neither split nor limited |
| `StagedInjection.UnsplitPulse` | speeduino/fuel_calcs.cpp:137-170 | without staging, the primary pulse is fuel, opening time and enrichment, cut at 0xFFFF and, once the engine runs, at the limit; the secondary is zero, and both are zero without corrections |
| `KnockRecovery.KnockControl.Pulse` | speeduino/sensors.cpp:986-993 | a knock is counted while no retard is active and always noted |
| `KnockRecovery.KnockControl.CalculateRecovery` | speeduino/corrections.cpp:1113-1144 | one round of recovery |
| `KnockRecovery.KnockControl.ApplyAdditionalRetard` | speeduino/corrections.cpp:1147-1159 | a further knock restarts the recovery with the retard for the new count |
| `KnockRecovery.KnockControl.CorrectTiming` | speeduino/corrections.cpp:1163-1237 | one poll takes the knock state exactly to the next one; the advance wraps at a signed byte |
| `KnockRecoveryRuns.PollIsRightIff` | speeduino/corrections.cpp:1113-1144 | a poll gives back exactly what is due if and only if nothing is truncated to a byte, there is nothing to give back, or zero is reached anyway |
| `KnockRecoveryRuns.RetardDependsOnTimeOnly` | speeduino/corrections.cpp:1113-1192 | after every schedule of polls that fit, the retard is max(0, initial - steps * step), the steps depending on elapsed time only |
| `KnockRecoveryRuns.AnyScheduleGivesIdeal` | speeduino/corrections.cpp:1113-1192 | the same for every schedule whatever, as long as all the steps together fit into a byte and the timer does not wrap |
| `KnockRecoveryRuns.SchedulesAgree` | speeduino/corrections.cpp:1113-1192 | any two schedules that end at the same time leave the same retard |
| `KnockRecoveryRuns.SparsePollingLags` | speeduino/corrections.cpp:1119-1126 | two concrete schedules that end at the same time with retards 0 and 196 |
| `KnockRecoveryRuns.ActivationStartsRecovery` | speeduino/corrections.cpp:1170-1188 | the poll that finds the threshold reached starts a recovery; any other leaves the retard at zero |
| `KnockRecoveryRuns.ActivationRetards` | speeduino/corrections.cpp:1181-1188 | the poll that activates with n knocks beyond the threshold retards by the first step and n further steps, up to the limit, from now on |
| `KnockRecoveryRuns.RetardWithoutWrap` | speeduino/corrections.cpp:1147-1159 | that is the lesser of the plain sum and the limit whenever the sum fits into a byte |
| `KnockRecoveryRuns.FurtherKnockRetards` | speeduino/corrections.cpp:1147-1178 | a further knock after the step time, with a hold time, retards by one step more and starts the recovery again |
| `KnockRecoveryRuns.EarlyKnockIsIgnored` | speeduino/corrections.cpp:1147-1178 | a further knock before the step time does what a poll without it does, and changes neither count nor start unless the recovery is complete |
| `KnockRecoveryRuns.KnockIsNoticed` | speeduino/sensors.cpp:986-993 | a knock while a retard is active takes effect at the next poll after the step time |
| `KnockRecoveryRuns.RetardIsHeld` | speeduino/corrections.cpp:1113-1144 | during the hold time a poll changes nothing |
| `KnockRecoveryRuns.RetardIsGivenBack` | speeduino/corrections.cpp:1113-1144 | in the k-th step time after the hold time a poll leaves the initial retard less k recovery steps, however many polls there were, or nothing at all once that is not positive |
| `KnockRecoveryRuns.FurtherKnockCountsIff` | speeduino/corrections.cpp:1147-1178 | a further knock takes effect if and only if there is a hold time, or the retard is the same anyway |
| `KnockRecoveryRuns.SettledForEver` | speeduino/corrections.cpp:1113-1192 | once nothing is left to give back, no schedule of polls brings the retard back |
| `KnockRecoveryRuns.ZeroUntilThreshold` | speeduino/corrections.cpp:1163-1192 | after a complete recovery the retard stays zero through any knocks and polls until the count reaches the threshold |
| `KnockRecoveryRuns.ReactivatedIff` | speeduino/corrections.cpp:1163-1192 | after a complete recovery, knocks and a poll bring the retard back if and only if they reach the threshold |

## Left out

- MissingToothStart.SelfStabilises: holds for constant speed, sync that needs no cam tooth, a wheel of at least three real teeth, RPM readings below 2000 until the lock, no stamp that reads zero, and after set-up a first stamp that passes the filter; after the lock MissingToothStamps.TracksAfterLockIff says exactly which zero stamps matter.
- MissingToothTracking.TracksAcceleratingWheel: asks for intervals whose triple and whose product with the missing teeth stay inside 32 bits, and for no stamp that reads zero; TracksThroughoutIff has no such limits.
- HondaJ32Wheel.NeverFalselySynced: this and HondaJ32Restart hold for constant speed and spacings in which plain and wide teeth do not look like gaps; SyncedEdgeTracksIff is for any speed once in sync.
- HondaJ32Revolution.RevolutionTimesPublished: runs from set-up only; what is published in the first turn after a stall depends on what was kept.
- EngineProtectionRuns.IgnitionWaitsForFuel: holds for four-stroke, non-sequential engines that cut both, with a revolution counter that goes back at any time but never gains on the engine and does not reach its top.
- VvtPwmTiming.StepOnTime: holds for duties below the whole period and a handler that takes no ticks itself; the start-up of a 100% duty and the inverted polarity of the Teensy 4.1 are not modelled.
- CrankMaths.TimeToAngleBound: holds for times of at most two revolutions, which is what 720 degrees take.
- StagedInjection.AutoConservesFlow: this and the other staging results hold for inputs whose products fit into 32 bits and a limit that is not below the opening time.
- KnockRecoveryRuns.RetardDependsOnTimeOnly: holds for schedules whose polls fit into the firmware's bytes, with a threshold above zero and no wrap of the timer; PollIsRightIff says exactly when a single poll is right.
- SerialComms.Comms.SerialReceive: inside a call that ends after the time limit, a read may give up at any byte; when a time-out comes, it says what is cut short but not how many bytes of the line are flushed.
- SerialComms.Comms.JudgeMessage: reduces the command handler to its reply; the commands themselves, their answers from page memory, and legacy commands beyond their first byte are not modelled.
- ToothLog.ToothLogger.SendToothLog: takes the log as frozen while it is sent; teeth that interrupts add meanwhile are not modelled.
- Buffer bounds of the serial line: the receive buffer is modelled as long as any 16-bit length; what the firmware does past the end of its own buffer is not modelled.
- Channel masks are sets of the channels 0 to 7 rather than bytes; setting a bit above 7 does nothing, as in the byte.
- The CRC-32 algorithm: any byte-wise checksum stands for it.
- Table lookups, sensor readings, nitrous, and the corrections that make up the fuel: arbitrary inputs.
- Counters that the firmware keeps in 8 bits or in variables not shown and that no result depends on (cam tooth counts) are unbounded numbers.
- Per-tooth ignition, end teeth, the secondary side of the missing-tooth decoder, and the crank side of NGC: they depend on schedulers that are not part of this model or add only easy members.
- The remaining decoders, analogue knock control, composite logs, SD and CAN traffic, boards, timers, EEPROM: I/O plumbing or the same shape again.
- Non-atomic multi-byte writes on 8-bit boards: every interrupt and every main-loop step is one indivisible step.
