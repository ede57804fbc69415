# Display driver: resource accounting and protocols

This project models the parts of the Exynos/Google display driver that sit behind the register writes:
who holds what, which steps may interleave, and what a calculation is supposed to find. It proves properties
of these models for every input, every run and every interleaving.

`dafny verify dfyconfig.toml` checks all modules together.

| module | component |
|---|---|
| `Bandwidth` | bandwidth peaks computed at layer top edges, per port and over all DECONs |
| `BandwidthVote` | votes raised before a commit and lowered after it |
| `WindowAllocator` | hardware windows shared by all CRTCs, split at atomic check; zpos to window mapping |
| `WindowRouting` | planes attached to and detached from windows during a commit |
| `Hibernation` | the block counter, the delayed work and its cancellers, interleaved step by step |
| `DsiCommand` | DSI command batching with header and payload FIFO accounting |
| `DsiPayload` | bytes to 32-bit FIFO words and back |
| `DsiPll` | the fractional PLL solver |
| `LinkTraining` | DisplayPort clock recovery, equalization and the fallback over lanes and rates |
| `HotPlug` | DisplayPort plug and unplug against the trusted UI, sharing one lock |
| `DeconPower` | DECON power and interrupt states behind the CRTC guard |
| `PendingEvents`, `Histogram` | histogram requests, cached bins and run states across hibernation |
| `RefreshRate` | the frame rate used for bandwidth, with its delayed lowering |

## How to read it

Where the driver updates an object in place there is a class with the driver's fields and one method for each
driver function; a ghost function `Model` (or `State`) gives its value, and each method is proved to take that value
to the one a specification function says. The properties are lemmas about the specification functions: invariants
over runs, refinement of a plain definition, round trips. Concurrent protocols (`Hibernation`, `HotPlug`)
are state machines: every atomic operation of the driver is one action, every point where a thread can be
interrupted is a program counter, and a run is any sequence of possible actions.

## What turned out different from the intent

For each point the lemma named first says exactly when the intended behaviour holds; a concrete case follows.

- A layer whose height on the screen is zero is counted at its own top edge although no scanline shows it. The
  average-bandwidth formula cannot take such a layer, the formula for rotated layers can
  (`Bandwidth.TopEdgesExactlyWhen`, `FlatRotatedLayerCounts`).
- When the total bandwidth falls to zero the overall peak is cleared and the per-port peaks are not; they are still
  right exactly if they already were what the remaining layers reach (`Bandwidth.DeconBts.RefreshPeaks`,
  `StalePortPeak`).
- A change that raises one part of (total, peak, real time) and lowers another drops the old vote before the new
  frame is shown (`BandwidthVote.BetweenPhases`, `MixedChangeDropsOldPeak`). The split of an unchanged total into
  read and write is not refreshed (`SplitIsCurrentExactlyWhen`).
- A system suspend cancels the hibernation work. One that is then refused by its camera and dimming check leaves an
  unblocked display without scheduled work until somebody blocks or unblocks again (`Hibernation.NoLostWakeup`,
  `RefusedSuspendLosesTheWakeup`).
- After a single DSI write its size stays in the payload account, so a message that fits the empty FIFO can be
  refused (`DsiCommand.RefusedThoughEmpty`, `RefusedThoughEmptyWitness`).
- The PLL fraction can round up to a whole unit that the integer part does not get (`DsiPll.SignFixKeepsValue`,
  `LostUnitWitness`), and the final integer part can exceed its maximum by one (`DsiPll.FinalMRange`,
  `ExcessMWitness`). With a zero clock and a positive VCO minimum the shift loop does not end
  (`SearchEndsExactlyWhen`).
- An unplug that finds the DP in use only through a short-lived user returns a reference and a lock that it does not
  own (`HotPlug.UnplugIsSafeExactlyWhen`, `InOrderExactlyWhenClean`, `StragglerRuns`).
- A failed restore at the end of the trusted UI leaves bypass in the committed state, and every later commit carries
  it along; a failed wake-up before the trusted UI lets bypass begin without its reference
  (`DeconPower.InOrderExactlyWhenClean`, `FailedRestoreLeaks`, `FailedWakeLosesPower`).
- With the quality engine disabled, hibernation entry leaves readable channels readable (`Histogram.AsleepExactlyWhen`).

## Assumptions

- Integers are unbounded. The FIFO counters are proved to stay within the widths of their fields; the PLL inputs are
  taken to be in the range where 64-bit shifts do not overflow.
- DRM core: a changed enable, effective activity or plane mask sets one of the flags the window check looks at; a
  changed plane mask sets `zpos_changed`; normalized positions of visible planes are distinct; a duplicated state
  starts from the committed one. Locking all modeset locks succeeds at the first attempt. The first commit after the
  windows have been turned off is a modeset and visits every plane of the CRTC it shows. Rounded-corner planes have
  no position among the reserved windows.
- kthread worker: a delayed work has one timer and one queue slot; a modification while a cancel waits does nothing;
  a cancel removes both and waits for a running handler; one worker thread runs the handler. Testing that
  hibernation is enabled and the panel is in command mode counts as one read. The flush of the worker in a suspend may
  end at any time, which only adds interleavings.
- Synchronous blocks keep out the worker's entry, not that of a suspend: user space is frozen by then.
- Waits for FIFO, frame and completion events succeed; runtime PM and bandwidth calls succeed; allocations succeed.
- One trusted UI client: entering and leaving do not overlap each other.
- Where a function would return an unset value (a forced batch start, `exynos_drm_dsim.c:2534-2537`), zero is returned.
- DisplayPort register fields and constants are those of the VESA DisplayPort Standard, version 1.4, section 3.5.1.2.

## Model

| member | source | states |
|---|---|---|
| `Bandwidth.OverlapIsTopEdgeDemand` | exynos_drm_bts.c:480-503 | what the cover test adds up for a layer is the demand on the layer's first scanline |
| `Bandwidth.LastStarted` | exynos_drm_bts.c:512-552 | moving a scanline up to the last top edge above it loses no demand |
| `Bandwidth.TopEdgeMaxCoversEveryLine` | exynos_drm_bts.c:512-552 | no scanline demands more than the maximum over top edges |
| `Bandwidth.TallEdgesFindThePeak` | exynos_drm_bts.c:480-552 | whatever the heights, the maximum over the top edges of the layers that are not flat is the maximum over all scanlines |
| `Bandwidth.TopEdgesExactlyWhen` | exynos_drm_bts.c:512-552 | the driver's maximum over all top edges is that peak exactly if no flat layer counts for more at its own edge |
| `Bandwidth.TopEdgesFindThePeak` | exynos_drm_bts.c:512-552 | so for layers of height at least one it bounds the demand of every scanline and one reaches it |
| `Bandwidth.FlatRotatedLayerCounts` | exynos_drm_bts.c:693-697 | a rotated layer of height zero counts its blanking-time bandwidth although no scanline shows it |
| `Bandwidth.PortsPartitionDemand` | exynos_drm_bts.c:554-622 | with all ports valid the demands of the ports add up to the demand of the scanline |
| `Bandwidth.PortPeaksBracketOverallPeak` | exynos_drm_bts.c:554-622 | each port's peak is at most the overall peak, which is at most the sum of the port peaks |
| `Bandwidth.SumsBoundSimultaneousDemand` | exynos_drm_bts.c:419-461 | the sums over DECONs bound the simultaneous demand for any choice of one scanline per DECON, overall and per port |
| `Bandwidth.RtSumIsReached` | exynos_drm_bts.c:419-461 | some choice of scanlines reaches the overall sum |
| `Bandwidth.ChSumIsReached` | exynos_drm_bts.c:419-461 | for each port some choice reaches that port's sum |
| `Bandwidth.DeconBts.UpdateOverlapBw` | exynos_drm_bts.c:512-552 | the loops over windows and the rounded-corner layer store the top-edge maximum, hence the peak |
| `Bandwidth.DeconBts.PortOverlap` | exynos_drm_bts.c:578-588 | inner loop: the port's windows at one window's top edge |
| `Bandwidth.DeconBts.PortMaxima` | exynos_drm_bts.c:566-616 | the loops over windows and the rounded-corner layer find every port's top-edge maximum |
| `Bandwidth.DeconBts.UpdateDispChBw` | exynos_drm_bts.c:554-622 | every port's entry becomes that port's peak |
| `Bandwidth.DeconBts.RefreshPeaks` | exynos_drm_bts.c:878-885 | with bandwidth all peaks are accurate; without, the overall one is cleared, the port ones are kept, and a port's is its peak exactly if the old entry is what the layers reach now |
| `Bandwidth.StalePortPeak` | exynos_drm_bts.c:878-885 | after a layer gave way to a color map the port entry is stale |
| `Bandwidth.DeconBts.ClearShared` | exynos_drm_bts.c:1044-1047 | release clears the values other DECONs add up |
| `Bandwidth.SumAllDeconBw` | exynos_drm_bts.c:419-461 | sum of the overall peaks, and the largest port sum; nothing for an index out of range |
| `BandwidthVote.CappedGivesClock` | exynos_drm_bts.c:991-993 | the cap changes nothing but the clock, and that only while nothing is read, a writeback runs and a cap is set: then to the smaller of the two |
| `BandwidthVote.CommitSettles` | exynos_drm_bts.c:969-1025 | after both phases the vote is the new demand in peak, real time and total, and the clock is the one it asks for, or the smaller of that and the cap for a writeback alone |
| `BandwidthVote.SwitchOffSettles` | exynos_drm_bts.c:1027-1051 | after release nothing is voted, and no real-time bandwidth is left for other DECONs to see |
| `BandwidthVote.DisabledNeverVotes` | exynos_drm_bts.c:969-982 | with voting disabled no run changes a vote |
| `BandwidthVote.EveryRunSettles` | exynos_drm_fb.c:439-509 | over every run of commits and switch-offs the settled vote equals the last demand, with the clock that demand is given |
| `BandwidthVote.BetweenPhases` | exynos_drm_bts.c:984-1023 | between the phases the clock is the maximum of the old one and the one the new demand is given; the bandwidth covers both exactly if they are comparable, and is then their componentwise maximum |
| `BandwidthVote.MixedChangeDropsOldPeak` | exynos_drm_bts.c:1013-1016 | after one commit from boot a mixed change gives up the old peak in the first phase |
| `BandwidthVote.SplitIsCurrentExactlyWhen` | exynos_drm_bts.c:1003-1023 | when the read and write parts of the vote are those of the new demand |
| `BandwidthVote.BtsVoter.UpdateResources` | exynos_drm_bts.c:969-1025 | one phase: only raises before the shadow update, only lowers after it |
| `BandwidthVote.BtsVoter.ReleaseResources` | exynos_drm_bts.c:1027-1051 | clears votes and remembered demand |
| `BandwidthVote.BtsVoter.CommitTail` | exynos_drm_fb.c:439-509 | the order of the two phases in a commit keeps the remembered demand equal to the vote |
| `WindowAllocator.FindSetBitsMask` | exynos_drm_drv.c:156-172 | the lowest bits of a mask: so many members, none of the rest below them; nothing if there are too few |
| `WindowAllocator.GetWinId` | exynos_drm_decon.c:804-817 | the counting loop finds the window of a position |
| `WindowAllocator.WinIdIsSelect` | exynos_drm_decon.c:804-817 | a position has a window exactly if it is below the reserved count, and its rank in the mask is the position |
| `WindowAllocator.WinIdInjective` | exynos_drm_decon.c:804-817 | different positions have different windows |
| `WindowAllocator.VisibleMask` | exynos_drm_drv.c:277-282 | the second loop marks the windows whose rank is a visible position |
| `WindowAllocator.VisibleIsImage` | exynos_drm_drv.c:257-285 | the two loops agree: the visible mask is the image of the visible positions |
| `WindowAllocator.WinCntMeans` | exynos_drm_drv.c:174-186 | an active CRTC counts a window for every plane that needs one, or one for the color map; an inactive one none |
| `WindowAllocator.EveryPlaneHasWindow` | exynos_drm_drv.c:174-254 | with the counted windows reserved every position below the number of those planes has a window |
| `WindowAllocator.Resize` | exynos_drm_drv.c:216-254 | one CRTC's mask gains the lowest available windows or gives up its own lowest ones, losing and duplicating none |
| `WindowAllocator.PartitionMeans` | exynos_drm_drv.c:188-304 | in a partition every window is available or reserved by exactly one CRTC |
| `WindowAllocator.CheckWindows` | exynos_drm_drv.c:188-304 | succeeds exactly if the growth fits the available windows; then masks and available windows partition the full mask, each CRTC holds its count and kept what it could, and no freed window is granted |
| `WindowAllocator.WindowPool.constructor` | exynos_drm_drv.c:1157 | at start all windows are available |
| `WindowAllocator.WindowPool.AtomicCheck` | exynos_drm_drv.c:188-304 | every atomic check keeps the partition and the counts; a failed one changes nothing |
| `WindowRouting.CheckedViewIsCoherent` | exynos_drm_drv.c:257-285 | what the check computes is what the plane callbacks rely on |
| `WindowRouting.DisableSparesVisible` | exynos_drm_decon.c:830-843 | turning a window off never affects a window that a visible plane of the new state uses |
| `WindowRouting.DisableTurnsOff` | exynos_drm_decon.c:830-843 | a window outside the visible mask is off once it has been turned off, and no other window changes |
| `WindowRouting.CheckedViewIsExact` | exynos_drm_drv.c:257-285 | the visible mask the check computes marks the windows of the visible planes and no others |
| `WindowRouting.UpdateEffect` | exynos_drm_decon.c:852-954 | an update shows its plane in its window and leaves the other visible planes alone |
| `WindowRouting.CommitRoutes` | exynos_drm_plane.c:467-494 | whatever the order of planes, after a commit every visible plane drives its window |
| `WindowRouting.CommitTurnsOthersOff` | exynos_drm_plane.c:467-494 | if exactly the windows of the visible planes were on before a commit, exactly those of the new state are on after it, whatever the order |
| `WindowRouting.CommitConnects` | exynos_drm_decon.c:934-942 | after a commit a visited plane is connected to its DPP exactly if it shows a buffer |
| `WindowRouting.EventRoutes` | exynos_drm_decon.c:1464-1492 | a commit or a reinitialisation leads from a routed state to one routed for the new view |
| `WindowRouting.EveryRunRoutes` | exynos_drm_decon.c:852-969 | the same over every run that mixes commits with reinitialisations, as hibernation does |
| `WindowRouting.EveryRunTurnsOthersOff` | exynos_drm_decon.c:852-969 | over every such run exactly the windows of the visible planes are on |
| `WindowRouting.PlaneRouter.Reinit` | exynos_drm_decon.c:1464-1492 | reinitialisation detaches everything and leaves no window on |
| `WindowRouting.PlaneRouter.DisableWin` | exynos_drm_decon.c:830-843 | turns a window off unless visible |
| `WindowRouting.PlaneRouter.UpdatePlane` | exynos_drm_decon.c:852-954 | attaches a plane, moving it off its old window; without a window it does nothing |
| `WindowRouting.PlaneRouter.DisablePlane` | exynos_drm_decon.c:956-969 | detaches a plane; its window is off unless visible |
| `WindowRouting.PlaneRouter.CommitPlanes` | exynos_drm_plane.c:467-494 | visits the planes in the given order; every visible plane ends in its window and no other window stays on |
| `Hibernation.CountsAfterMove` | exynos_drm_hibernation.c:71-94 | the counted blocks follow each thread's position in its call |
| `Hibernation.UserStepKeepsInv` | exynos_drm_hibernation.c:219-306 | every step of a blocking or unblocking thread keeps counter, schedule, wakeup and exclusion |
| `Hibernation.HandlerStepKeepsInv` | exynos_drm_hibernation.c:324-372 | every step of the work handler keeps them |
| `Hibernation.SuspendStepKeepsInv` | exynos_drm_hibernation.c:374-395 | every step of a system suspend, from cancelling the work to its own entry, keeps them |
| `Hibernation.EveryRunKeepsInv` | exynos_drm_hibernation.c:71-94 | every interleaving of all these threads from boot keeps the invariant |
| `Hibernation.NoLostWakeup` | exynos_drm_hibernation.c:293-395 | over every run, suspends included: unblocked and nobody in a call, the work is scheduled or undecided exactly unless the last suspend returned after its check and the cancelled work has not been scheduled since |
| `Hibernation.NoLostWakeupWithoutSuspend` | exynos_drm_hibernation.c:293-372 | without a suspend it always is |
| `Hibernation.NobodyIsStuck` | exynos_drm_hibernation.c:71-395 | no deadlock: over every run the worker waits only for a suspend that can go on, and every other thread only for the worker |
| `Hibernation.WorkerDecides` | exynos_drm_hibernation.c:324-372 | left alone, the worker enters holding one block if nothing blocks and the check is met, starts the timer again if the check is not met, and changes nothing if something blocks |
| `Hibernation.WorkerEntersExactlyWhen` | exynos_drm_hibernation.c:332-348 | it enters in exactly that case |
| `Hibernation.RestartedRuns` | exynos_drm_hibernation.c:368-371 | in a reachable state the timer it starts does run, but for a suspend waiting for it |
| `Hibernation.WorkerReturns` | exynos_drm_hibernation.c:346-356 | after the entry it gives its block back and rests |
| `Hibernation.SuspendComesTo` | exynos_drm_hibernation.c:374-395 | left alone after its cancel, a suspend enters in the same case and otherwise returns without starting a timer |
| `Hibernation.SuspendConditions` | exynos_drm_hibernation.c:332-345 | under the lock it tests the three conditions again |
| `Hibernation.SuspendReturns` | exynos_drm_hibernation.c:346-356 | after its entry it gives its block back |
| `Hibernation.SuspendCancelsFirst` | exynos_drm_hibernation.c:382-385 | it first leaves the work neither timed nor queued |
| `Hibernation.BlockComesTo` | exynos_drm_hibernation.c:71-274 | a block counts one and pushes the work out, or cancels it if it is synchronous and hibernation is usable |
| `Hibernation.UnblockComesTo` | exynos_drm_hibernation.c:293-306 | an unblock uncounts one and starts the timer exactly if nothing blocks then |
| `Hibernation.StoreEnableComesTo` | exynos_drm_debug.c:1587-1596 | the debug switch makes hibernation usable and takes one block |
| `Hibernation.OneCommitThenSleep` | exynos_drm_hibernation.c:324-372 | a run from boot: one commit, the timer runs out, and the worker enters |
| `Hibernation.CounterIsExact` | exynos_drm_hibernation.c:71-94 | the counter is the number of live blocks and is never decremented at zero |
| `Hibernation.SyncBlockExcludesEntry` | exynos_drm_hibernation.c:219-289 | while a completed synchronous block is held the worker is not entering hibernation |
| `Hibernation.OneEntryAtATime` | exynos_drm_hibernation.c:324-356 | the worker and a suspend are never both between their tests and the end of entry |
| `Hibernation.RefusedSuspendLosesTheWakeup` | exynos_drm_hibernation.c:374-395 | the excepted case occurs: one commit from boot, then a suspend refused by its check, and nothing is scheduled |
| `DsiCommand.AdmittedStillFitsAligned` | exynos_drm_dsim.c:2540-2548 | checking the unrounded size still keeps the rounded one within the FIFO |
| `DsiCommand.WrittenFits` | exynos_drm_dsim.c:2495-2599 | at its fullest, before the flush, the FIFO holds no more than 32 headers and 2048 bytes |
| `DsiCommand.EveryRunKeepsInv` | exynos_drm_dsim.c:2367-2417 | between transfers: bytes in the FIFO at most the account, account at most the FIFO (at most the threshold while packets pend) and a multiple of 4, fewer than 32 headers, packet go with one reference exactly while packets pend |
| `DsiCommand.AcceptedGoOutInOrder` | exynos_drm_dsim.c:2495-2599 | every accepted packet is sent once, in order, or still pending |
| `DsiCommand.LastMessageDrains` | exynos_drm_dsim.c:2719-2729 | after a message that completes a batch everything accepted has been sent and packet go is off |
| `DsiCommand.OnlyPayloadRefuses` | exynos_drm_dsim.c:2540-2548 | the header limit never refuses a message; an empty forced flush is never refused, nor behind pending packets a message that fits above the threshold |
| `DsiCommand.GoesOutExactlyWhen` | exynos_drm_dsim.c:2493-2581 | an accepted packet goes out at once, with all that pend, exactly if it is not to wait for a batch, a flush is asked for, it is the 32nd header or it leads above 1536 bytes; otherwise it pends behind packet go and nothing goes out |
| `DsiCommand.BatchingExactlyWhen` | exynos_drm_dsim.c:2534-2558 | what switches forced batching on and off |
| `DsiCommand.ResultMeans` | exynos_drm_dsim.c:2505-2599 | an error is returned exactly for a refused message, which changes nothing; nor does one that cannot be encoded |
| `DsiCommand.SkippedWaitIsSafe` | exynos_drm_dsim.c:2719-2729 | when the wait for the payload FIFO is skipped there is no payload in it |
| `DsiCommand.AccountIsExact` | exynos_drm_dsim.c:2367-2417 | over every run the account is the bytes in the FIFO plus the size of the last single write since packet go was last switched off |
| `DsiCommand.RefusedThoughEmpty` | exynos_drm_dsim.c:2408-2417 | after any run that leaves the FIFO empty, exactly the messages that do not fit beside that last single write are refused |
| `DsiCommand.StaleAccount` | exynos_drm_dsim.c:2408-2417 | a single write leaves its size in the account |
| `DsiCommand.RefusedThoughEmptyWitness` | exynos_drm_dsim.c:2540-2548 | a concrete refusal |
| `DsiCommand.BatchGoesOutAtOnce` | exynos_drm_dsim.c:2534-2581 | a forced batch within the limits sends nothing before the flush and everything at it |
| `DsiCommand.Dsim.PacketGoEnable` | exynos_drm_dsim.c:436-451 | switches packet go with its reference and clears the account on disable |
| `DsiCommand.Dsim.QueuePacket` | exynos_drm_dsim.c:2367-2383 | queues behind packet go |
| `DsiCommand.Dsim.WriteSingle` | exynos_drm_dsim.c:2407-2417 | writes without packet go |
| `DsiCommand.Dsim.WriteDataLocked` | exynos_drm_dsim.c:2495-2599 | the branches of one write and its return value |
| `DsiCommand.Dsim.FlushLocked` | exynos_drm_dsim.c:2719-2729 | waits, then switches packet go off |
| `DsiCommand.Dsim.HostTransfer` | exynos_drm_dsim.c:2755-2806 | one transfer; refused without effect unless the clock runs |
| `DsiCommand.Dsim.EnterUlps` | exynos_drm_dsim.c:455-484 | the low power state, entered without references, finds no pending packet |
| `DsiPayload.WordsCharged` | exynos_drm_dsim.c:2376 | four times the words written is the size charged |
| `DsiPayload.UnpackPacked` | exynos_drm_dsim.c:2323-2349 | packing then unpacking is the identity for every length |
| `DsiPayload.PackUnpacked` | exynos_drm_dsim.c:2683-2694 | unpacking whole words then packing is the identity |
| `DsiPayload.WritePayload` | exynos_drm_dsim.c:2323-2349 | the loop writes exactly the packed words |
| `DsiPayload.StoreWord` | exynos_drm_dsim.c:2692-2693 | the inner loop stores the bytes of one word in place |
| `DsiPayload.ReadWord` | exynos_drm_dsim.c:2683-2694 | one round of the read loop extends the unpacked prefix by one word and keeps the rest |
| `DsiPayload.LongRead` | exynos_drm_dsim.c:2683-2694 | the read loop stores the unpacked bytes, touches nothing after them and reads just the words needed |
| `DsiPll.PreDividerIsNearest` | exynos_drm_dsim.c:2822-2830 | p comes nearest to the optimum input clock and never divides it away |
| `DsiPll.DoublingsAreLeast` | exynos_drm_dsim.c:2838-2841 | the shift found is the least that reaches the VCO minimum |
| `DsiPll.MultiplierIsNearest` | exynos_drm_dsim.c:2853-2867 | m and k before the sign fix are the exact ratio rounded to the nearest unit, halves up |
| `DsiPll.SignFixKeepsValue` | exynos_drm_dsim.c:2866-2871 | the two's complement reading after the fix has the same value exactly if the fraction does not round up to a whole unit, and is one too small otherwise |
| `DsiPll.AcceptedSetting` | exynos_drm_dsim.c:2815-2879 | an accepted setting has everything in range, the least shift and the nearest multiplier |
| `DsiPll.ZeroMinimumIsRefused` | exynos_drm_dsim.c:2838-2851 | a zero VCO minimum, for which the shift counter wraps, is refused |
| `DsiPll.NoProperSMeansNone` | exynos_drm_dsim.c:2843-2846 | "no proper s" is reported exactly if no shift lands in the range |
| `DsiPll.FinalMRange` | exynos_drm_dsim.c:2859-2871 | the final m is at most one above its maximum, and is above it exactly if the integer part is the maximum and the fraction of the ratio lies in the half read as negative |
| `DsiPll.ExcessMWitness` | exynos_drm_dsim.c:2859-2871 | a concrete accepted setting with m above its maximum |
| `DsiPll.UpperHalf` | exynos_drm_dsim.c:2866-2871 | which ratios have their fraction read as negative |
| `DsiPll.SearchEndsExactlyWhen` | exynos_drm_dsim.c:2838-2841 | the shift loop ends exactly if the clock is positive or the minimum zero |
| `DsiPll.LostUnitWitness` | exynos_drm_dsim.c:2866-2871 | a concrete setting that loses a unit |
| `DsiPll.SearchShift` | exynos_drm_dsim.c:2838-2841 | the shift loop, with the counter wrapping when it does not run |
| `DsiPll.CalcPmsk` | exynos_drm_dsim.c:2815-2879 | the whole solver with its errors in order |
| `LinkTraining.EncodeKeepsLevels` | exynos_drm_dp.c:662-667 | levels can be read back from the lane register |
| `LinkTraining.EncodeKeepsBits` | exynos_drm_dp.c:662-667 | and so can the maximum bits |
| `LinkTraining.AskedIsDriven` | exynos_drm_dp.c:499-515 | what a round asks of an active lane, swing and pre-emphasis, is what the next round drives |
| `LinkTraining.RepeatsExactlyWhen` | exynos_drm_dp.c:516-521 | a round repeats exactly if some active lane is asked for what the round before asked for |
| `LinkTraining.MaximumExactlyWhen` | exynos_drm_dp.c:502-525 | a maximum is reached exactly if an active lane is asked for level 3 |
| `LinkTraining.RepeatsCount` | exynos_drm_dp.c:704-716 | the counter of repeats is the number of rounds off the maximum since the last that asked for something new |
| `LinkTraining.LocksExactlyWhen` | exynos_drm_dp.c:628-720 | clock recovery locks in a round exactly if it is the first lock, among the first ten rounds, after at most one maximum and never five repeats |
| `LinkTraining.EqPassesExactlyWhen` | exynos_drm_dp.c:746-807 | equalization passes exactly if the lock lasts, round by round, until the lanes are equalized, within six rounds |
| `LinkTraining.SecondMaximumIsFatal` | exynos_drm_dp.c:686-699 | a lock can only come before the second round that reaches a maximum |
| `LinkTraining.LevelsKeepBits` | exynos_drm_dp.c:482-526 | in every round levels are at most 3 with the bit set exactly at 3 |
| `LinkTraining.FallbackIsNext` | exynos_drm_dp.c:809-861 | a failed attempt goes to the next lower pair of lanes and rate, and stays only at the lowest |
| `LinkTraining.FailureGoesDown` | exynos_drm_dp.c:824-861 | when every pair above has failed and this one does, every pair above the next has; with no next one all have |
| `LinkTraining.AttemptsAreAllInOrder` | exynos_drm_dp.c:824-902 | the pairs attempted strictly decrease and include every standard pair within the limits at or below the first |
| `LinkTraining.FallbackStuckExactlyWhen` | exynos_drm_dp.c:809-822 | at a rate outside the table there is no lower one |
| `LinkTraining.NegotiatedIsStandard` | exynos_drm_dp.c:104-128 | the negotiated pair is standard and within the sink's and, but for the lifted lowest rate, the host's |
| `LinkTraining.NegotiatedIsGreatest` | exynos_drm_dp.c:104-128 | the pairs within the negotiated one are exactly those both ends support, counting a host's RBR as HBR for a sink with fewer than four lanes |
| `LinkTraining.RateCodes` | exynos_drm_dp.c:824-861 | the rate codes of the four standard rates and no others give standard rates |
| `LinkTraining.Trainer.ValidateLinkTraining` | exynos_drm_dp.c:482-526 | the loop over lanes adjusts levels and reports lock, repetition and maximum |
| `LinkTraining.Trainer.CrRound` | exynos_drm_dp.c:665-712 | one round: a lock, or the verdict that no round can lock any more, or the counters for the next |
| `LinkTraining.Trainer.DoCr` | exynos_drm_dp.c:628-720 | at most ten rounds; passes exactly if a lock comes before the phase gives up |
| `LinkTraining.Trainer.DoEq` | exynos_drm_dp.c:746-807 | at most six rounds; passes exactly if equalization comes before a lost lock |
| `LinkTraining.Trainer.FallBack` | exynos_drm_dp.c:809-822 | the step to the next pair, and when there is none |
| `LinkTraining.Trainer.FullTraining` | exynos_drm_dp.c:824-902 | ends at the greatest pair within the limits that passes; fails only on unplug or after all pairs; at most twelve attempts |
| `LinkTraining.TrainingIntervalUs` | exynos_drm_dp.c:460-469 | the waiting time is at least 400 us for every register value, so the test for zero never gives up |
| `LinkTraining.WaitsLongEnough` | exynos_drm_dp.c:460-469 | the wait is never shorter than the standard's, and longer exactly for the two largest valid fields |
| `LinkTraining.AdvertisedRate` | exynos_drm_dp.c:990-1003 | a sink of a known revision has the rate it advertises, a newer one at most HBR3 |
| `LinkTraining.Trainer.LinkUp` | exynos_drm_dp.c:914-1110 | the checks and their errors; with a sink the link comes up at the greatest pair both ends support that passes; without unplug there is no link exactly if none of those passes |
| `HotPlug.StepKeepsDpInv` | exynos_drm_dp.c:1925-2052 | every step keeps the DP's reference, stay-awake vote and lock in line |
| `HotPlug.StepKeepsTuiInv` | exynos_drm_drv.c:774-977 | every step keeps the trusted UI's flag, saved state, references and lock in line |
| `HotPlug.EveryRunSeparates` | exynos_drm_dp.c:1925-2052 | over every interleaving the trusted UI excludes a powered DP, and between works and calls each side owns the lock exactly while it holds its resources |
| `HotPlug.StepKeepsInvExactlyWhen` | exynos_drm_dp.c:1986-2015 | a step keeps everything in order exactly if it is not an unplug that finds the lock elsewhere and a reference of a short-lived user |
| `HotPlug.InOrderExactlyWhenClean` | exynos_drm_dp.c:1925-2052 | over all runs, exactly those without such an unplug stay in order throughout |
| `HotPlug.PlugComesTo` | exynos_drm_dp.c:1941-2049 | a whole plug takes lock, stay-awake vote and reference; one that fails gives all of them back; one that finds the lock taken does nothing |
| `HotPlug.VisitorsLeaveNothing` | exynos_drm_dp.c:2081-2181 | an interrupt work and a short-lived user leave nothing behind |
| `HotPlug.UnusedStaysUnused` | exynos_drm_dp.c:1989-1993 | without a plug nobody ever holds a reference |
| `HotPlug.EnterComesTo` | exynos_drm_drv.c:774-899 | entering the trusted UI takes the lock and a reference for each active CRTC and remembers their number; it does nothing while the lock is taken |
| `HotPlug.FailedEnterComesTo` | exynos_drm_drv.c:898-923 | wherever it fails it gives back lock and references |
| `HotPlug.ExitComesTo` | exynos_drm_drv.c:925-977 | leaving gives back lock and references whether or not the state can be restored |
| `HotPlug.UnplugEffect` | exynos_drm_dp.c:1986-2015 | what an undisturbed unplug of a DP in use does |
| `HotPlug.UnplugIsSafeExactlyWhen` | exynos_drm_dp.c:1989-2014 | an unplug keeps everything in order exactly if the DP was plugged or nobody else held a reference |
| `HotPlug.StrayReferenceOpensTuiLock` | exynos_drm_dp.c:1989-2014 | otherwise it can open the trusted UI's lock |
| `HotPlug.StragglerRuns` | exynos_drm_dp.c:2369-2372 | an orderly run that leads there |
| `DeconPower.OrderlyCommitKeepsInv` | exynos_drm_fb.c:616-695 | a commit through the guard keeps references and interrupts right |
| `DeconPower.EveryRunBalances` | exynos_drm_decon.c:1519-1763 | over every run of orderly commits: one reference while on or in handover, one more in bypass, interrupts enabled exactly while on |
| `DeconPower.ProbeIsInOrder` | exynos_drm_decon.c:2685-2689 | the state after probe |
| `DeconPower.ConfigTakenExactlyWhen` | exynos_drm_decon.c:1561-1583 | when a commit to an active state brings its tearing-effect configuration |
| `DeconPower.CommitTakesEffect` | exynos_drm_drv.c:440-456 | a user's commit decides whether the DECON is on, and does nothing under the trusted UI |
| `DeconPower.SleepThenWake` | exynos_drm_hibernation.c:96-215 | hibernation entry gives up power and interrupts, and exit brings everything back as it was |
| `DeconPower.TuiThenBack` | exynos_drm_drv.c:774-977 | the trusted UI finds the DECON out of use but powered, and leaving it brings the state back, awake |
| `DeconPower.TuiRefused` | exynos_drm_drv.c:898-923 | a trusted UI that cannot be entered leaves the DECON awake and otherwise as it was |
| `DeconPower.EnterBypassBalancedExactlyWhen` | exynos_drm_crtc.c:127-138 | when entering bypass takes its reference |
| `DeconPower.LeaveBypassBalancedExactlyWhen` | exynos_drm_decon.c:1628-1633 | when leaving bypass returns it |
| `DeconPower.CleanEventKeepsOrder` | exynos_drm_drv.c:774-977 | user commits, hibernation, and the trusted UI with a successful wake-up and restore only make orderly commits, because of the guards and refusals in front of them |
| `DeconPower.UncleanEventLosesOrder` | exynos_drm_drv.c:831-960 | a failed wake-up or a failed restore after bypass loses order at once |
| `DeconPower.InOrderExactlyWhenClean` | exynos_drm_drv.c:774-977 | over all runs of user commits, hibernation and the trusted UI, references, interrupts and bypass are in order throughout exactly if neither fails |
| `DeconPower.StuckBypass` | exynos_drm_drv.c:956-960 | what the commits after a failed restore do: off with two references, or on with bypass still set |
| `DeconPower.FailedRestoreLeaks` | exynos_drm_drv.c:956-960 | a run from probe that ends off with two references |
| `DeconPower.FailedWakeLosesPower` | exynos_drm_hibernation.c:94-215 | a run from probe that ends on without a reference |
| `DeconPower.Decon.EnableIrqs` | exynos_drm_decon.c:1224-1236 | enables interrupts once |
| `DeconPower.Decon.DisableIrqs` | exynos_drm_decon.c:1640-1651 | disables them once |
| `DeconPower.Decon.Enable` | exynos_drm_decon.c:1546-1638 | from hibernation, handover, off or initial state to on |
| `DeconPower.Decon.Disable` | exynos_drm_decon.c:1711-1763 | to hibernation or off |
| `DeconPower.Decon.AtomicEnable` | exynos_drm_crtc.c:108-125 | the guard in front of enable |
| `DeconPower.Decon.AtomicDisable` | exynos_drm_crtc.c:127-152 | the guard in front of disable |
| `DeconPower.Decon.CommitTail` | exynos_drm_fb.c:616-695 | disables, then enables, as the flags and states demand |
| `PendingEvents.Find` | exynos_drm_dqe.c:204-228 | the first pending event of a channel or handle |
| `PendingEvents.SettleKeeps` | exynos_drm_dqe.c:80-90 | answering or cancelling a pending event keeps the accounts |
| `PendingEvents.AcceptKeeps` | exynos_drm_dqe.c:315-327 | accepting a request that found no match keeps the list free of duplicates |
| `Histogram.RequestKeeps` | exynos_drm_dqe.c:282-354 | both kinds of request keep the accounts, whether answered at once or left pending |
| `Histogram.AllCancelledKeeps` | exynos_drm_dqe.c:533-543 | cancelling everything settles every pending request once |
| `Histogram.EveryRunAccounts` | exynos_drm_dqe.c:282-558 | over every run no channel or handle waits twice, and each accepted request is waiting, answered or cancelled, never changing once settled |
| `Histogram.FrameDoneAnswersFirst` | exynos_drm_dqe.c:606-646 | one channel in a frame done: it answers the first waiting request with the bins read, caches them, and settles no other |
| `Histogram.FrameDoneAnswers` | exynos_drm_dqe.c:649-676 | the whole frame done: a request by handle is answered by the first active channel with the handle that nobody asked for before, a request for a channel by that channel unless an older request by handle took it; all others wait, and each channel caches bins exactly if it served a request or a callback |
| `Histogram.OneServed` | exynos_drm_dqe.c:606-646 | no two requests are served by one channel |
| `Histogram.UpdatedChannel` | exynos_drm_dqe.c:935-998 | a changed configuration turns its channel on exactly if it asks for measuring, forgets the callback, and waits for a frame |
| `Histogram.ResetChannels` | exynos_drm_dqe.c:1187-1198 | a reset turns every channel off and forgets configuration and handle, but a hibernating one keeps run state, bins and handle |
| `Histogram.FlippedChannels` | exynos_drm_dqe.c:678-716 | a flip applies the user handles; channels that are on wait for a frame, others are disabled unless they hibernate |
| `Histogram.MeasuredRequestIsAnswered` | exynos_drm_dqe.c:282-998 | a channel configured to measure, a flip, a request and a frame done: the request gets what the hardware counted |
| `Histogram.RequestWhenIdle` | exynos_drm_dqe.c:334-346 | a request on an idle channel is answered at once from the hardware |
| `Histogram.PendingRequestTakesSlot` | exynos_drm_dqe.c:315-327 | while a request waits the same request is refused and changes nothing |
| `Histogram.CancelFreesSlot` | exynos_drm_dqe.c:356-385 | after a cancel nothing waits in the slot and only the cancelled request has changed |
| `Histogram.CancelsFreeTheirSlots` | exynos_drm_dqe.c:356-558 | the cancel calls free their slots, touch nothing where nothing waits, and with handle 0 cancel exactly the waiting requests |
| `Histogram.EntryAnswers` | exynos_drm_dqe.c:1128-1167 | a whole hibernation entry of an enabled engine on an idle DECON answers exactly the requests served by channels that wait for a frame, with the bins read there; otherwise no request is touched |
| `Histogram.HibernatedChannels` | exynos_drm_dqe.c:1142-1164 | what entry does to a channel in each run state |
| `Histogram.AsleepExactlyWhen` | exynos_drm_dqe.c:1128-1167 | hibernation entry leaves no channel idle or waiting for a frame exactly if the engine is enabled or there was none; readable bins are cached |
| `Histogram.CacheSurvives` | exynos_drm_dqe.c:678-716 | caches survive requests, cancels, resets and the flip of a commit that skips the update |
| `Histogram.RequestWhileAsleep` | exynos_drm_dqe.c:326-347 | while asleep a channel request is answered from the cache or waits |
| `Histogram.ContextRequestWhileAsleep` | exynos_drm_dqe.c:470-512 | the same for a request by handle |
| `Histogram.Dqe.FindEventNode` | exynos_drm_dqe.c:204-228 | the list search |
| `Histogram.Dqe.RequestChannel` | exynos_drm_dqe.c:282-354 | new state and error codes of a channel request |
| `Histogram.Dqe.RequestContext` | exynos_drm_dqe.c:423-512 | new state and error codes of a request by handle |
| `Histogram.Dqe.CancelChannel` | exynos_drm_dqe.c:356-385 | cancels a channel's request |
| `Histogram.Dqe.CancelContext` | exynos_drm_dqe.c:514-558 | cancels a handle's request, or all |
| `Histogram.Dqe.HandleChannelEvent` | exynos_drm_dqe.c:606-646 | collects bins and answers the first matching request |
| `Histogram.Dqe.HandleHistogramEvent` | exynos_drm_dqe.c:649-676 | frame done over all channels |
| `Histogram.Dqe.HibernationEnter` | exynos_drm_dqe.c:1128-1167 | hibernation entry over all channels |
| `Histogram.Dqe.UpdateChannel` | exynos_drm_dqe.c:935-998 | applying a channel configuration |
| `Histogram.Dqe.FlipDone` | exynos_drm_dqe.c:678-716 | flip done over all channels |
| `Histogram.Dqe.Reset` | exynos_drm_dqe.c:1187-1198 | reset over all channels |
| `RefreshRate.RequestIsLeast` | exynos_drm_decon.c:1284-1294 | a commit asks for the least rate that is enough for the mode, the connector and, where it counts, the operation rate |
| `RefreshRate.NeverBelowRefresh` | exynos_drm_decon.c:1278-1340 | the rate is never below the current mode's refresh rate |
| `RefreshRate.PlainUpdates` | exynos_drm_decon.c:1407-1410 | rate and blanking time after any number of plain pre-updates |
| `RefreshRate.LoweredOnTheThird` | exynos_drm_decon.c:1325-1336 | after a seamless switch down two plain pre-updates keep the rate and exactly the third lowers it |
| `RefreshRate.RaisedAtOnce` | exynos_drm_decon.c:1310-1324 | a switch up takes effect at once and ends a pending delay |
| `RefreshRate.SwitchSettles` | exynos_drm_decon.c:1310-1340 | whichever way a seamless switch goes, three plain pre-updates later rate and blanking time are the new ones |
| `RefreshRate.ModesetSettles` | exynos_drm_decon.c:1400-1406 | a modeset takes effect at once whichever way the rate goes |
| `RefreshRate.OpRateSettles` | exynos_drm_decon.c:1416-1420 | a new operation rate waits for the next pre-update and then settles like a switch |
| `RefreshRate.BtsRate.ModeUpdateBts` | exynos_drm_decon.c:1278-1308 | the immediate update |
| `RefreshRate.BtsRate.SeamlessModeBtsUpdate` | exynos_drm_decon.c:1310-1340 | delays a lowering, applies anything else |
| `RefreshRate.BtsRate.PreUpdate` | exynos_drm_decon.c:1369-1414 | the choice between switch, modeset and countdown |
| `RefreshRate.BtsRate.OpRateUpdate` | exynos_drm_decon.c:1416-1420 | a new operation rate is applied at the next pre-update |

## Left out

- Register access, MMIO, interrupt requests, device tree, sysfs, tracing, the event log and recovery: hardware reads are parameters.
- Clock, rotation-latency and compression formulas of the bandwidth calculator: the bandwidth of each layer is an input.
- Scenario and urgent-latency votes beside the bandwidth and clock votes.
- The continuous-splash handover: the discovery of its windows, and the bandwidth handover at the first mode update.
- Video-mode DSI writes, which skip the FIFO checks; dual-DSI mirroring; FIFO timeouts; discarding of pending packets when the host is disabled.
- DSI read requests in the FIFO account; only the copy loop of a long read is modelled.
- DsiPayload.LongRead: takes the size in the response to fit the buffer, as the maximum return packet size sent before the request asks of the peripheral.
- DsiPayload.WritePayload: or, shift and mask on bytes are arithmetic on numbers; `ShiftIsScale`, `OrIsSum` and `MaskAndShift` show the agreement on 32-bit vectors.
- DsiPll.CalcPmsk: does not model 64-bit overflow of the shifts.
- EDID, audio, content protection, fast training, the emulation mode and the statistics of DisplayPort.
- HotPlug.EveryRunSeparates: speaks of runs in which an unplug never meets a reference that only a short-lived user holds; these are exactly the runs that stay in order (HotPlug.InOrderExactlyWhenClean).
- DeconPower.EveryRunBalances: speaks of orderly commits; which runs of users, hibernation and the trusted UI make only such is DeconPower.InOrderExactlyWhenClean.
- The short-lived DECON reference that a commit holds while it disables a CRTC.
- System resume; the rest of system suspend after the hibernation entry.
- What the self-refresh commit inside a hibernation entry does to the DECON: in `Hibernation` the DECON may leave its on state at any time; the commit itself is `DeconPower.SleepThenWake`.
- The histogram channel of the local high-brightness mode, except for its callback, and failed allocations of requests.
