# A virtual IEC 61850 device, modelled and verified

The repository is a virtual IED: logical nodes are state machines, wired by subscription chains and
driven by samples, GOOSE messages and timer threads. This project models the code that decides what
the device does, and proves what that code promises. One module stands for one source component.

* **Signal routing and the `.ext` language.** `ExtSource` and `ExtPrinter` are the generator,
  `Lines`, `Scan` and `ExtModel` the line reader; `ExtReading` says what reading a printed model gives,
  `RoundTrip` exactly when that is the model, `ReaderSafety` what the reader does with any other text.
  `Routing` turns the entries read into one chain of records per control block and merges a received
  dataset against a chain; `RoutingTheorems` and `Delivery` say who receives what; `EndToEnd` joins
  printer, reader, subscription and delivery. `CallbackIndex` is the index from data attributes to callbacks.
* **Bay control and interlocking.** `SwitchControl`, `Interlock`, `Switchgear` and `Motion` are the parts;
  `Bay` wires them as `cfg/FEED1.ext` does, with any number of disconnectors, and runs every external event
  to the end of its callback chain; `BayMotion` is the exact boundary of what the interlock promises,
  `BayOperation` follows commands and trips to their effect. `BusTrip` is the trip permission
  of `cfg/BUS1.ext`, with any number of feeders.
* **Protection arithmetic**, over the reals: `TimeOvercurrent`, `Distance`, `Dft` and `DftGaps`.
* **Timer threads**: `Recloser` and `Recorder`, any number of stale threads, any interleaving.
* **Text and lists in place**: `Collation` and `SortList`, `Json`, `JsonGrammar` and `JsonReader`; `Counters` are
  the replay and injection checks on received messages.

Classes carry the names and fields of the C structures. Their methods are proved against a function or
predicate on values (`Value()`, `Next`, `Step`, `Update`, `Holds`, ...), and the theorems are lemmas about
those; what these functions compute is in turn said by laws that do not mention them
(`TimeOvercurrent.OnCurve`, `Dft.TransformIsCorrelation`, `Distance.CircleExactly`, `Inputs.CalledExactly`).
`I/O` and foreign code enter as parameters: a received value, a clock, the value of a data attribute.
Published attributes are results or fields.

## Findings

Where the code does less than one would expect, the model keeps the code and the exact boundary is proved.

* A head of a callback chain that a component looked up once and keeps is as good as a fresh lookup exactly if
  there was a chain, or nothing was registered since (`CallbackIndex.CachedHeadAgrees`).
* A chain is served completely by one walk over a received dataset exactly if its places never decrease and
  all exist (`RoutingTheorems.ServedExactlyWhile`); the place of an entry is its position in its run exactly if
  the entry before the run is of another dataset (`RoutingTheorems.IndexFrom`).
* A feeder whose disconnector was never reported open is never tripped by the bus protection, although its
  interlocking node permits it: permission holds exactly for feeders that are not open and once were
  (`BusTrip.PermissionIsExact`, `BusTrip.ClosedFromTheStartIsNotTripped`).
* A disconnector command is checked when it is issued, not when the switch moves: it can be caught moving
  under a closed breaker (`BayMotion.CanMoveUnderClosedBreaker`). The threads under way can lead there exactly
  if a disconnector has a move pending and the breaker is not OFF or has one pending itself
  (`BayMotion.EndangeredExactly`), and exactly two kinds of commands bring that about
  (`BayMotion.EndangersExactly`). A disconnector initialised before the breaker can be driven unseen
  (`BayMotion.CanBeDrivenBeforeBreaker`); which commands pass is exact (`Bay.CommandPassesExactly`).
* A direction setting REVERSE of the distance protection never operates except on a dead short, and FORWARD
  changes nothing (`Distance.DirectionIsRedundant`).
* The recloser can end in state 2 with nothing pending, where it ignores every trip until the breaker reports ON
  (`Recloser.StuckIsReachable`, `Recloser.StuckStays`): exactly if the last reclose or re-arm timer fires in
  vain (`Recloser.SticksExactly`), so never if every reclose timer finds the breaker OFF
  (`Recloser.InTimeNeverSticks`).
* A trip that reaches the recorder between its two clearings of `recording` is lost, and no other
  (`Recorder.TriggerCanBeLost`, `Recorder.TriggersAccounted`, `Recorder.NothingLost`).
* A description with a space in it is not rejected by the reader: the fields shift
  (`RoundTrip.SpaceShiftsFields`). A printed line comes back exactly if its names are words that fit, the last
  one without a closing parenthesis (`RoundTrip.RefExactly`, `RoundTrip.MemberExactly`), and a model exactly if
  all the names kept of it do (`RoundTrip.PrintThenParse`).
* The generator writes dots as dollar signs in the names of data set members, but not in references: the two
  names of one signal are the same exactly if neither data object nor data attribute has a dot in its name
  (`ExtSource.NamesAgreeExactly`); otherwise the subscription does not match them.
* A string that goes on from another with a byte above 127 is sorted before it, because such a byte is negative
  and the end of a string counts as 0 (`Collation.LongerExactly`).
* The text for the user interface always fits its buffer, but a float that is not finite, or a name that
  may not stand between quotes, makes it no JSON (`Json.WrittenFits`, `JsonReader.TextIsWellFormed`).

## Model

| member | source | states |
|---|---|---|
| Motion.InvNext | plugin_src/cbr_simulation/cbr_simulation.c:94-133 | every step of every thread keeps: semaphore 1 exactly if nobody is inside, INTERMEDIATE exactly while one is moving, only whole strokes published |
| Motion.Safety | plugin_src/cbr_simulation/cbr_simulation.c:94-133 | for any number of open and close threads on one switch, in any reachable state: at most one inside, INTERMEDIATE exactly while one moves, published values alternate between different end positions through INTERMEDIATE |
| Motion.LastTakerWins | plugin_src/cbr_simulation/cbr_simulation.c:94-133 | when all threads have finished, the position is the direction of the last thread that took the semaphore |
| Motion.NoDeadlock | plugin_src/cbr_simulation/cbr_simulation.c:25-133 | while a thread has not finished, some thread can go on |
| Motion.ThreadsEnd | plugin_src/cbr_simulation/cbr_simulation.c:25-133 | without new commands, the threads present take at most four steps each |
| Motion.CommandTakesEffect | plugin_src/cbr_simulation/cbr_simulation.c:94-133 | a command given to a switch that no other thread wants elsewhere, neither now nor later, ends in the commanded position |
| Motion.MovesExactly | plugin_src/cbr_simulation/cbr_simulation.c:25-133 | without new commands, the threads under way can bring the switch to INTERMEDIATE exactly if it is there or one of them has not tested the position and wants another |
| Motion.NothingPendingStays | plugin_src/cbr_simulation/cbr_simulation.c:25-133 | if nothing is pending, the threads under way never change the position |
| Motion.SpawnPending | plugin_src/cbr_simulation/cbr_simulation.c:25-34 | a command makes something pending exactly if it asks for another position |
| SwitchControl.CSWI.CurrentValueCallback | LNs/CSWI.c:25-42 | takes over the position and publishes exactly when it changed |
| SwitchControl.CSWI.EnaOpnCallback | LNs/CSWI.c:44-56 | takes over the open enable and nothing else |
| SwitchControl.CSWI.EnaClsCallback | LNs/CSWI.c:58-70 | takes over the close enable and nothing else |
| SwitchControl.CSWI.LocCallback | LNs/CSWI.c:73-83 | takes over the local/remote state and nothing else |
| SwitchControl.CSWI.CheckHandler | LNs/CSWI.c:85-120 | accepts exactly if not local and the wanted direction is enabled; local operation is reported exactly if the node is local, before the interlock |
| SwitchControl.CSWI.PulseOp | LNs/CSWI.c:122-156 | raises or lowers the one output of the direction |
| SwitchControl.CSWI.ControlHandler | LNs/CSWI.c:158-204 | one call of the handler: the whole new state and the answer; position reached is given as cause exactly at the wanted position, an invalid one exactly at a bad position or the thousandth call, none while it waits |
| SwitchControl.OperateOnce | LNs/CSWI.c:158-204 | from idle and for any position reports between calls: a final answer within 1000 calls, the commanded output raised exactly once and the other never, everything lowered and the timeout 0 at the end; success exactly if the position is reached |
| SwitchControl.OperateStopsEarly | LNs/CSWI.c:158-204 | the handler stops at the first report that decides the matter |
| Interlock.CILO.AndInputsAllTrue | LNs/CILO.c:73-83 | blocks exactly if there are inputs and all are true |
| Interlock.CILO.NandResult | LNs/CILO.c:85-95 | blocks exactly if some input is false |
| Interlock.CILO.AnyOrInputTrue | LNs/CILO.c:97-107 | blocks exactly if some input is true |
| Interlock.CILO.NorResult | LNs/CILO.c:109-119 | blocks exactly if there are inputs and all are false |
| Interlock.CILO.SetEna | LNs/CILO.c:49-71 | both enables take the wanted value and are published only where they differed |
| Interlock.CILO.ProcessAllConditions | LNs/CILO.c:121-129 | enabled exactly if no group blocks; only changes are published |
| Interlock.CILO.NotCallback | LNs/CILO.c:133-145 | the direct input enables exactly unless the other switch is reported true or in another position than OFF |
| Interlock.CILO.GateCallback | LNs/CILO.c:147-201 | a group input is stored in its group at its index as closed or not, nothing else changes, and the enables follow; an input without index changes nothing |
| Interlock.EnabledWhen | LNs/CILO.c:73-129 | what the four groups say together, group by group |
| Interlock.SingleNor | LNs/CILO.c:109-119 | one NOR input blocks exactly while the other switch is open |
| Switchgear.XSWI.SetCallback | LNs/XSWI.c:62-71 | a drive callback is registered once; a second one is refused |
| Switchgear.XSWI.EnaOpnCallback | LNs/XSWI.c:7-22 | BlkOpn is the negated enable, and is published |
| Switchgear.XSWI.EnaClsCallback | LNs/XSWI.c:24-40 | BlkCls is the negated enable, and is published |
| Switchgear.XSWI.LocCallback | LNs/XSWI.c:73-86 | takes over the local/remote state and publishes it |
| Switchgear.XSWI.Opn | LNs/XSWI.c:158-168 | an open command reaches the drive exactly if there is one and BlkOpn is false |
| Switchgear.XSWI.Cls | LNs/XSWI.c:170-180 | a close command reaches the drive exactly if there is one and BlkCls is false |
| Switchgear.XSWI.OperateCallback | LNs/XCBR.c:23-58 | only a raised signal is a command, and it is subject to blocking |
| Switchgear.XSWI.TripCallback | LNs/XCBR.c:8-20 | a trip opens whatever is blocked |
| Switchgear.LLN0.SetLoc | LNs/LLN0.c:12-23 | the state is published in any case and kept |
| Bay.PublishBreakerKeeps | LNs/CILO.c:133-145 | a new breaker position reaches every controller and every disconnector before the step ends |
| Bay.InvNext | cfg/FEED1.ext:54-140 | every event of the bay, run through its callback chain, keeps blocking, enables, positions and local/remote states in agreement |
| Bay.InitialPositions | plugin_src/cbr_simulation/cbr_simulation.c:25-34 | an initialised switch is at rest in its default position and its controller knows; no other is moved |
| Bay.LocNext | LNs/LLN0.c:12-23 | an operation of the key leaves the key, the breaker, all controllers and all disconnectors with the state given; no other event changes it |
| Bay.WholeBay | cfg/FEED1.ext:54-140 | in every reachable state of a bay with any number of disconnectors and commands under way: BlkOpn = BlkCls = not EnaOpn = the breaker is not OFF, controllers agree with interlock, position and LLN0.Loc |
| Bay.EveryNodeFollowsKey | LNs/LLN0.c:12-23 | in every reachable state every node of the bay has the state the key was last set to, or is remote if it never was |
| Bay.CommandPassesExactly | LNs/XSWI.c:158-180 | a disconnector command reaches its drive exactly if the switch is initialised and the breaker is OFF or not yet published |
| Bay.DrivenOnlyWhileOpen | cfg/FEED1.ext:105-140 | if the breaker is initialised first, no drive command is ever issued to a disconnector unless the breaker is OFF |
| BayMotion.EndangeredExactly | plugin_src/cbr_simulation/cbr_simulation.c:25-133 | in every state of the bay: the threads under way can bring a disconnector to INTERMEDIATE under a breaker that is not OFF exactly if a disconnector has a move pending and the breaker is not OFF or has one pending |
| BayMotion.EndangersExactly | LNs/XSWI.c:158-180 | exactly which commands bring that danger: closing the breaker while a disconnector has a move pending, and moving a disconnector while the breaker has one pending; every other event keeps it away |
| BayMotion.MovesOnlyUnderOpenBreaker | plugin_src/cbr_simulation/cbr_simulation.c:25-133 | over whole runs: danger arises somewhere exactly if a command brings it, and without one a disconnector is at INTERMEDIATE only under an OFF breaker |
| BayMotion.CanMoveUnderClosedBreaker | plugin_src/cbr_simulation/cbr_simulation.c:25-133 | a run in which a disconnector moves after the breaker closed |
| BayMotion.CanBeDrivenBeforeBreaker | LNs/CILO.c:204-215 | a run in which a disconnector is driven before the breaker, then found ON, was heard of |
| BayOperation.CheckDecides | LNs/CSWI.c:85-120 | in every state of the bay, what the check handler accepts reaches the drive and what it refuses for interlocking does not |
| BayOperation.OutputIsRaisedOnce | LNs/CSWI.c:122-204 | the first call of a handler in the bay raises the output of the wanted direction once and never the other, later calls none |
| BayOperation.KeyDecides | LNs/CSWI.c:85-120 | over all runs: set to local, the key makes every controller refuse remote commands; otherwise a disconnector command is accepted exactly if the breaker is OFF or not yet published |
| BayOperation.DisconnectorFollows | plugin_src/cbr_simulation/cbr_simulation.c:25-34 | each event does to the motion of a disconnector exactly one step of one of its threads, one new thread for a command that reaches its drive, or nothing |
| BayOperation.DisconnectorRun | plugin_src/cbr_simulation/cbr_simulation.c:25-133 | whatever else happens in the bay, a disconnector goes through a run of its own motion |
| BayOperation.PermittedOperationSucceeds | LNs/CSWI.c:122-204 | from every reachable state of the bay, an accepted command on a disconnector that no thread wants elsewhere: whatever happens then, polling included, but for commands the other way, it ends in the commanded position once its threads have ended, and the next call of the handler answers with success |
| BayOperation.TripOpensBreaker | LNs/XCBR.c:8-20 | from every reachable state in which no thread closes the breaker, a trip opens it and leaves both interlock outputs enabled, whatever is blocked and whatever happens then but for a command to close it |
| BusTrip.PTRC.InputTrCallback | LNs/PTRC.c:21-66 | trips exactly if not tripped, enabled and an Op is true; while tripped, any callback clears; what is published is the new state, and only when it changed |
| BusTrip.PTRC.InputEnaOpnCallback | LNs/PTRC.c:112-119 | takes over the permission and nothing else |
| BusTrip.PermissionIsExact | cfg/BUS1.ext:139-190 | over all runs and feeders: PTRC.EnaOpn implies CILO.EnaOpn and a last position that is not OFF; it holds exactly if CILO.EnaOpn does and an OFF position was received before |
| BusTrip.TripsOnlyConnectedFeeders | LNs/PTRC.c:21-66 | every rising Tr is of a feeder whose disconnector is closed or moving |
| BusTrip.FaultTripsExactly | cfg/BUS1.ext:163-190 | which feeders a fault leaves tripped, and that exactly those rise with it |
| BusTrip.ClosedFromTheStartIsNotTripped | LNs/PTRC.c:159-164 | a feeder closed since the start is not tripped by a fault |
| TimeOvercurrent.PTOC.OperateTime | LNs/PTOC.c:54-71 | the operate time t: strictly between the limits, (t - OpDlTmms) times (powf(M) - 1) is 140 times TmMult, M being the larger of 1.01 and I/StrVal; MaxOpTmms exactly if the delayed curve is not before it or the limits are crossed, MinOpTmms exactly if the curve is not behind it; a zero threshold counts as zero curve time |
| TimeOvercurrent.OperateTimeOnCurve | LNs/PTOC.c:54-71 | the same for the specification, for every sample over pickup |
| TimeOvercurrent.PTOC.UpdateAlgorithm | LNs/PTOC.c:46-89 | one step of the integrator on one phase, the other phases untouched |
| TimeOvercurrent.OverPickupStep | LNs/PTOC.c:48-78 | on any trace, a sample over the threshold adds the share of a time on the curve that has passed, cancels a reset under way, and trips exactly once the progress is 1 |
| TimeOvercurrent.QuietStretch | LNs/PTOC.c:79-88 | from then on, while no sample is over the threshold: the progress stands until RsDlTmms have passed, and with the sample that reaches them the phase is reset |
| TimeOvercurrent.PTOC.CallbackSMV | LNs/PTOC.c:92-142 | one sample of four phases: each integrates for itself, a trip of one wins over resets of others, only changes of the trip are published |
| TimeOvercurrent.WriteStrVal | LNs/PTOC.c:149-180 | a new threshold is accepted from 0 to 100 kA and goes to every instance |
| TimeOvercurrent.CurveIsAntitone | LNs/PTOC.c:54-64 | a larger current never has a longer curve time |
| TimeOvercurrent.DominanceStep | LNs/PTOC.c:46-89 | one step keeps: no less progress, and a reset timer no further on, for the larger current |
| TimeOvercurrent.Dominance | LNs/PTOC.c:46-89 | for two traces with equal steps and thresholds, one pointwise at least the other: its progress is never smaller, and it trips whenever the other does |
| TimeOvercurrent.ProgressBounds | LNs/PTOC.c:46-89 | progress lies between the over-pickup time in units of the longest and of the shortest operate time |
| TimeOvercurrent.OperateTimeBounds | LNs/PTOC.c:46-89 | even if the threshold is rewritten and whatever the curve returns: no trip before the shorter limit was spent over pickup since the last reset, always one at an over-pickup step once MaxOpTmms was |
| Distance.DivMul | LNs/PDIS.c:56-63 | c_div is the inverse of the product |
| Distance.MulDiv | LNs/PDIS.c:56-63 | c_div undoes the product |
| Distance.NormalisedIsCongruent | LNs/PDIS.c:70-79 | the normalised angle differs by whole turns |
| Distance.DirectionalCheck | LNs/PDIS.c:70-79 | both loops end, and forward means within 90 degrees of the line modulo 360 |
| Distance.CircleWithoutDivision | LNs/PDIS.c:132-169 | the test on V/I is the test on V and I without division or root |
| Distance.CircleIsForward | LNs/PDIS.c:132-169 | every impedance accepted has a non-negative projection on the line, positive unless it is 0 |
| Distance.CircleReach | LNs/PDIS.c:132-169 | no impedance beyond the reach X1 is accepted, and the reach itself is, on the line |
| Distance.CircleExactly | LNs/PDIS.c:118-125 | an impedance is accepted exactly if |Z|^2 is at most X1 times its projection on the line: the circle over the line from 0 to X1 |
| Distance.MeasuresImpedance | LNs/PDIS.c:81-169 | on V = Z I the relay judges exactly Z: it operates if and only if |Z|^2 is at most X1 times the projection of Z on the line and the direction agrees |
| Distance.PhaseStepExactly | LNs/PDIS.c:132-169 | exactly which currents and loop impedances the phase step operates on |
| Distance.GroundStepExactly | LNs/PDIS.c:81-130 | exactly which currents and loop impedances the ground step operates on; the loop current is the phase current and three times K0 times the residual one |
| Distance.PhaseFaultOnLine | LNs/PDIS.c:132-169 | a fault on the line: with a current from the start value on and a direction other than REVERSE the phase step operates from 0 up to the reach X1 and not beyond; below the start value never |
| Distance.GroundFaultOnLine | LNs/PDIS.c:81-130 | the same for the ground step, with its own start value and the compensated current |
| Distance.DirectionIsRedundant | LNs/PDIS.c:132-169 | REVERSE never operates unless V = 0, FORWARD operates like no direction |
| Dft.DFT.CalcDft | functions/dft.c:52-152 | one sample: each present input is accumulated, the fourth carries the sum, a full window is published and cleared; inside a window each of four values is added times the cosine of its place to the real part, and times the sine taken from the imaginary part |
| Dft.DFT.Accumulate | functions/dft.c:66-110 | one input of one sample |
| Dft.FourChannels | functions/dft.c:66-110 | one sample of four inputs, channel by channel |
| Dft.TransformIsCorrelation | functions/dft.c:66-80 | the transform of a window is its product sum with the cosines, and less its product sum with the sines |
| Dft.PresentExactly | functions/dft.c:66-72 | the inputs used are exactly those that have a value, in their order |
| Dft.TransformIsLinear | functions/dft.c:66-110 | the transform of a pointwise sum is the sum of the transforms |
| Dft.NeutralTransform | functions/dft.c:66-110 | what the neutral accumulates is the transform of the sample-wise sum of all four inputs |
| Dft.StreamInvariant | functions/dft.c:66-152 | between publications the accumulators hold the transform of the current window |
| Dft.StreamingRefinesBatch | functions/dft.c:66-152 | for every stream and table: a phasor is published exactly with every 80th sample; its real part is the product sum of the last 80 samples with the cosines, its imaginary part less the one with the sines; the neutral's is that of the sums of all four inputs |
| DftGaps.AnyChannels | functions/dft.c:66-110 | one sample with any number of values present: which channels are accumulated, published and cleared, and what the neutral collects |
| DftGaps.PublishedWithGaps | functions/dft.c:66-152 | for every stream, with values missing or not: phasors are published exactly at window ends and for exactly the channels the last sample has a value for; each is the sum of what the channel got since it was last published |
| DftGaps.FirstWindows | functions/dft.c:66-152 | if the first k samples have no values and all later ones have: nothing is published before, and then the transform of the last 80 samples, those before counting as zeros |
| Recloser.RREC.InputCallback | LNs/RREC.c:111-126 | a trip starts a cycle only from state 0 |
| Recloser.RREC.XcbrCallback | LNs/RREC.c:65-97 | the breaker opening in state 1 starts a reclose or locks out; closing starts the re-arm timer |
| Recloser.RREC.RecloserTimer | LNs/RREC.c:43-63 | recloses exactly in state 2 with the breaker OFF |
| Recloser.RREC.ReenableTimer | LNs/RREC.c:27-41 | re-arms exactly if the breaker is ON and something happened |
| Recloser.RREC.TimeoutTimer | LNs/RREC.c:99-109 | state 1 ends |
| Recloser.SafeNext | LNs/RREC.c:27-126 | every callback and every timer, stale or not, keeps the safety predicate |
| Recloser.SafeRun | LNs/RREC.c:27-126 | for any interleaving and any pending timers: state 2 implies tripCount < 4, the recloses since the last re-arm are min(tripCount, 4), state 1 has a timeout pending |
| Recloser.OneCycle | LNs/RREC.c:43-126 | a trip in state 0, the breaker opening, the reclose timer: one more reclose, and state 0 again; after four recloses the recloser locks out instead |
| Recloser.TripTimesOut | LNs/RREC.c:99-126 | a trip not followed by the breaker opening is forgotten by its timeout |
| Recloser.ClosedRearms | LNs/RREC.c:27-97 | the breaker reporting ON and staying so arms the recloser anew |
| Recloser.LockoutHolds | LNs/RREC.c:65-97 | after four recloses nothing recloses until a re-arm |
| Recloser.StartsExactly | LNs/RREC.c:65-126 | which event starts which timer thread, and that no other starts one |
| Recloser.CountsExactly | LNs/RREC.c:27-126 | exactly which events change state or counts, for any pending timers |
| Recloser.StuckIsReachable | LNs/RREC.c:43-97 | a run from power-up into state 2 with nothing pending |
| Recloser.StuckExactly | LNs/RREC.c:27-63 | from a state not stuck, one event leads there exactly if it is the last reclose or re-arm timer pending and fires in vain in state 2 |
| Recloser.SticksExactly | LNs/RREC.c:27-126 | over whole runs: a state is stuck somewhere exactly if the last such timer fires in vain somewhere |
| Recloser.InTimeNeverSticks | LNs/RREC.c:43-97 | if every reclose timer that fires in state 2 finds the breaker OFF, no state of the run is stuck |
| Recloser.StuckStays | LNs/RREC.c:43-126 | from there nothing recloses and trips are ignored until the breaker reports ON |
| Recloser.UnstuckExactly | LNs/RREC.c:65-97 | the only way out is the breaker reporting ON |
| Recorder.RDRE.Store | LNs/RDRE.c:181-210 | one sample of all channels goes into its place of the ring |
| Recorder.RDRE.WriteRows | LNs/RDRE.c:100-123 | row order: number, time stamp, and the sample of the place after the newest on |
| Recorder.RDRE.WriteComtrade | LNs/RDRE.c:75-124 | once 8000 samples are taken, the rows are exactly the last 8000 samples, oldest first; the start and trip stamps; a file that cannot be opened ends it; recording is cleared in any case |
| Recorder.RDRE.Turn | LNs/RDRE.c:167-228 | one turn: the ring keeps the history, a record is written exactly in state 2 and from the history so far, recording is cleared twice |
| Recorder.RDRE.CallbackTrip | LNs/RDRE.c:49-60 | a trip is accepted, timed and given a delay thread exactly if nothing is under way |
| Recorder.RDRE.RecorderDelay | LNs/RDRE.c:38-47 | a delay that ends moves state 1 to state 2 and nothing else |
| Recorder.RDRE.ClearRecording | LNs/RDRE.c:211-215 | the second clearing, with what it overwrites |
| Recorder.StartTime | LNs/RDRE.c:82-98 | the start stamp is 500 ms before the trip, with milliseconds from 0 to 999 |
| Recorder.TriggersAccounted | LNs/RDRE.c:38-60 | recording = 1 always has a delay thread; triggers accepted = records written + lost + pending; the number lost is exactly the number of times a trip falls between the two clearings |
| Recorder.OneRecord | LNs/RDRE.c:38-60 | an accepted trip is followed by one record, not before its delay has ended |
| Recorder.NothingLost | LNs/RDRE.c:38-60 | over a run that ends outside that moment, nothing is lost if and only if no trip fell into it |
| Recorder.TriggerCanBeLost | LNs/RDRE.c:49-60 | a run in which a trip is accepted and overwritten |
| Counters.Counter.CheckGoose | input/inputs.c:302-346 | which alarms a GOOSE message raises, in the widths of the code, and what is remembered of it |
| Counters.Counter.CheckSample | input/inputs.c:404-440 | which alarms a sample count raises |
| Counters.SameStateOrder | input/inputs.c:302-346 | in a conforming stream, a later message of a state has a larger number and comes at least 10 ms later |
| Counters.ReceiveSubsequence | input/inputs.c:302-346 | any subsequence of a conforming GOOSE stream raises no alarm |
| Counters.ReplayIsReported | input/inputs.c:325-332 | a repeated message of the current state is reported exactly if its number is not 0 |
| Counters.InjectionIsReported | input/inputs.c:334-341 | a message of the current state is reported as injected exactly if it comes less than 10 ms after the last one; not if the clock was set back |
| Counters.OtherStateIsSilent | input/inputs.c:325-341 | a message of another state raises no alarm |
| Counters.AsSigned | input/inputs.c:302-306 | the kept copy of a sequence number is the signed number of the same 32 bits |
| Counters.SilentCounts | input/inputs.c:411-436 | a sample count is reported as replayed exactly if it is below the last one and not 0, as injected exactly if it is more than 51 above it, and silent otherwise |
| Collation.OrderIndexIsPosition | utils/string_utilities.c:491-529 | the order of the named characters is their position in the table's text |
| Collation.WeightIsBijection | utils/string_utilities.c:486-521 | the weights are a bijection on 1..127, unnamed characters first in code order, named ones last in the order of section 7.5.2 of ISO 9506-2 |
| Collation.WeightBelowOne | utils/string_utilities.c:517-521 | the end of a string and negative bytes come before every other character, in their own order |
| Collation.PrecedesIsTransitive | utils/string_utilities.c:529-545 | the order of strings is transitive |
| Collation.PrecedesIsTotal | utils/string_utilities.c:529-545 | two different strings are ordered in exactly one way, by the weights at their first difference |
| Collation.LongerExactly | utils/string_utilities.c:529-545 | a string that goes on behind another comes after it exactly if it goes on with a positive character |
| Collation.CharWeights.GetCharWeight | utils/string_utilities.c:486-521 | the lazily built table answers the weight, on the first call and on every other |
| Collation.CharWeights.Initialize | utils/string_utilities.c:493-515 | both loops fill the table with the weights |
| Collation.CharWeights.CompareStrings | utils/string_utilities.c:529-545 | the sign is that of the order; equal strings give an arbitrary result |
| SortList.FindPlace | utils/string_utilities.c:573-603 | the place found has nothing greater before it and nothing smaller at it |
| SortList.Insert | utils/string_utilities.c:571-603 | one node is linked in; the list stays acyclic and sorted and has exactly one node more |
| SortList.SortList | utils/string_utilities.c:547-612 | the same nodes, acyclic, in the order of the strings; no data moves |
| CallbackIndex.HandleExtensionCallbacks | input/inputs.c:519-531 | every callback of a chain, in order |
| Inputs.CalledExactly | input/inputs.c:519-531 | called back along a chain are exactly the references with a callback, once for each of their records, in the order of the records |
| CallbackIndex.Find | input/inputs.c:544-562 | the head of the chain of a data attribute, if there is one; entries of other lists never match |
| CallbackIndex.Register | plugin_src/python/python.c:184-240 | one more record, at the end of the chain of its data attribute or at the head of a new chain; no other chain changes |
| CallbackIndex.SubscribeDevice | input/inputs.c:219-288 | every reference into one logical device is registered, in order |
| CallbackIndex.SubscribeToLocalDAInputs | input/inputs.c:214-291 | exactly the references that name an own data attribute are registered, device after device |
| CallbackIndex.UsesExactly | input/inputs.c:214-291 | a reference is registered for an own data attribute exactly if it names that attribute and what it has before its first slash is the name of an own logical device |
| CallbackIndex.HandleCallbacks | input/inputs.c:567-574 | a published attribute calls back exactly what was registered for it, in that order |
| CallbackIndex.HandleCached | input/inputs.c:519-531 | a walk from a head kept since earlier calls back what a fresh lookup would |
| CallbackIndex.HeadsDiffer | input/inputs.c:260-281 | no data attribute has two heads |
| CallbackIndex.ForIsChain | input/inputs.c:261-275 | the chain of a data attribute holds exactly its records in order of registration |
| CallbackIndex.CachedHeadAgrees | plugin_src/python/python.c:213-239 | a kept head equals a fresh lookup after any registrations exactly if it was not null or nothing was registered for its attribute |
| CallbackIndex.BehindOthers | open_server.c:392-398 | lists of received datasets in front keep the index an index |
| Routing.AddRecord | input/inputs.c:93-123 | one more record, linked behind the previous one or at the head of a new chain with a new subscriber |
| Routing.NextIndex | input/inputs.c:70-80 | the place of an entry in its dataset |
| Routing.CopyElement | input/inputs.c:364-372 | a received element replaces nothing or a value of its own type, and nothing else |
| Routing.SubscribeEntry | input/inputs.c:82-129 | every reference that wants an entry gets a record, node after node |
| Routing.SubscribeToGOOSEInputs | input/inputs.c:55-133 | one record per pair of entry and reference of equal name and GOOSE service, in order, linked into one chain per stretch of a control block, one subscriber per chain |
| Routing.ServeRecord | input/inputs.c:357-380 | one element is copied to one reference: it replaces nothing or a value of its own type and otherwise leaves the reference as it was; no other reference changes; the callback of the reference is called if it has one |
| Routing.ServePlace | input/inputs.c:352-382 | the inner loop serves every record of one place and ends |
| Routing.ReceiveDataset | input/inputs.c:347-383 | both loops end; exactly the longest prefix of the chain that one walk over the dataset can serve is served, in chain order, each reference holds what it was given last |
| RoutingTheorems.IndexFrom | input/inputs.c:70-80 | along entries of one dataset the place counts up; it starts at 0 exactly if the entry before is of another dataset |
| RoutingTheorems.MatchesExactly | input/inputs.c:82-129 | a record is made for exactly the pairs of entry and reference of equal name and GOOSE service |
| RoutingTheorems.MatchesOnce | input/inputs.c:82-129 | no pair gets two records |
| RoutingTheorems.RunIsOneChain | input/inputs.c:102-121 | the entries of a control block that stand together give exactly one chain |
| RoutingTheorems.RunIsLinked | input/inputs.c:102-121 | in memory that chain is found from its first record |
| RoutingTheorems.LongEnough | input/inputs.c:352-382 | a dataset covering the run serves the whole chain |
| RoutingTheorems.EveryReferenceIsServed | input/inputs.c:55-133 | for one served chain: every matching reference, served once, holds the member at the position of its name in the run, unless it held a value of another type, and the chain is called back in order |
| RoutingTheorems.ServedExactlyWhile | input/inputs.c:352-382 | a whole chain is served exactly if all its places exist and never decrease |
| Delivery.OneSubscriber | input/inputs.c:102-121 | a control block that somebody wants has exactly one subscriber, and its parameter is the head of the chain of the block; one that nobody wants has none |
| Delivery.ChooseSubscriber | input/inputs.c:108-116 | the message is handed to that subscriber |
| Delivery.RunIsCalled | input/inputs.c:352-382 | exactly which references a message of a control block calls back, and in which order |
| Delivery.ReceiveMessage | input/inputs.c:55-133 | end to end, for whatever the references held: a message of a control block gives each reference that has the name of a member that member, if it held nothing or a value of the same type, and changes no other; called back are exactly the references that have the name of a member and a callback, each once, in the order of the members |
| Lines.ReadLine | model/config_file_parser_extensions.c:25-73 | leading line ends are eaten, the line is left in the buffer up to its end, the end of the file or the size of the buffer |
| Lines.ReadBack | model/config_file_parser_extensions.c:25-73 | a printed line is read as it was, with either line end |
| Scan.CreateBufferFromHexString | utils/string_utilities.c:423-448 | the bytes of the pairs of digits, or -1 exactly if the length is odd or a digit is none |
| Scan.HexRoundTrip | model_input_generator/src/com/libiec61850/tools/DynamicModelGenerator_input.java:265-268 | an address printed with two digits a byte is read as the same bytes |
| Scan.ScanDecimal | model_input_generator/src/com/libiec61850/tools/DynamicModelGenerator_input.java:263 | a number printed by Java is scanned as the same number |
| Scan.ScanJoined | model/config_file_parser_extensions.c:204-205 | words printed with one space between them are scanned as the same words |
| Scan.TerminateString | model/config_file_parser_extensions.c:75-90 | the string in the buffer ends at its first such character |
| Scan.StartsWith | utils/string_utilities.c:450-467 | exactly the prefixes |
| ExtModel.ConfigFileParser.HandleModel | model/config_file_parser_extensions.c:328-356 | the opening line of a model, with or without a name |
| ExtModel.ConfigFileParser.HandleDevice | model/config_file_parser_extensions.c:176-196 | an LD line, its name cut at the parenthesis |
| ExtModel.ConfigFileParser.HandleNode | model/config_file_parser_extensions.c:221-241 | an LN line |
| ExtModel.ConfigFileParser.HandleSubscriber | model/config_file_parser_extensions.c:197-215 | an SD line: six items, 16 bits of the number, six bytes of the address; every way to fail |
| ExtModel.ConfigFileParser.HandleInputs | model/config_file_parser_extensions.c:247-252 | an IN line opens a list at the end |
| ExtModel.ConfigFileParser.HandleClass | model/config_file_parser_extensions.c:253-258 | a CL line; without a class the name read last is used |
| ExtModel.ConfigFileParser.HandleRef | model/config_file_parser_extensions.c:291-300 | an ER line appends to the last list |
| ExtModel.ConfigFileParser.HandleLine | model/config_file_parser_extensions.c:145-357 | the branch taken, by level and first characters |
| ExtModel.ConfigFileParser.CreateModel | model/config_file_parser_extensions.c:111-367 | the loop over the file: the model, nothing, a rejection, or a step C leaves undefined |
| ExtPrinter.ExportInputs | model_input_generator/src/com/libiec61850/tools/DynamicModelGenerator_input.java:168-177 | the lines of one list of references |
| ExtPrinter.ExportLogicalNode | model_input_generator/src/com/libiec61850/tools/DynamicModelGenerator_input.java:108-112 | the class line and the lists of a node |
| ExtPrinter.ExportLogicalNodes | model_input_generator/src/com/libiec61850/tools/DynamicModelGenerator_input.java:94-102 | the nodes of a device |
| ExtPrinter.PrintMembers | model_input_generator/src/com/libiec61850/tools/DynamicModelGenerator_input.java:300-314 | one SD line per member of a data set |
| ExtPrinter.PrintModel | model_input_generator/src/com/libiec61850/tools/DynamicModelGenerator_input.java:81-92 | the text of the whole file, line by line |
| ExtSource.ExtRefToString | model_input_generator/src/com/libiec61850/scl/model/ExtRef.java:164-195 | device, node, object and attribute, whatever parts are missing |
| ExtSource.SrcToString | model_input_generator/src/com/libiec61850/scl/model/ExtRef.java:197-225 | device, node and control block of the source |
| ExtSource.FullNames | model_input_generator/src/com/libiec61850/scl/model/ExtRef.java:164-225 | the printed names of a reference all parts of which are given |
| ExtSource.NodePartIs | model_input_generator/src/com/libiec61850/scl/model/ExtRef.java:164-225 | the node in a name, whatever parts are given: a prefix is dropped with the class, and the dot without both |
| ExtSource.ExportRef | model_input_generator/src/com/libiec61850/tools/DynamicModelGenerator_input.java:168-175 | one reference of the station is named and printed as one line |
| ExtSource.DeviceComesBack | model_input_generator/src/com/libiec61850/scl/model/ExtRef.java:164-195 | the subscription finds in a printed name the device it was made from |
| ExtSource.MmsVariableName | model_input_generator/src/com/libiec61850/tools/DynamicModelGenerator_input.java:300-310 | the name a member is printed with, whatever parts are missing |
| ExtSource.MemberNameIs | model_input_generator/src/com/libiec61850/tools/DynamicModelGenerator_input.java:300-310 | a member without device or class has the text of a null reference in its name |
| ExtSource.NamesAgreeExactly | model_input_generator/src/com/libiec61850/tools/DynamicModelGenerator_input.java:104-106 | the printed names of one signal, as a reference and as a member, are the same exactly if neither data object nor data attribute has a dot in its name |
| ExtSource.FindHeader | model_input_generator/src/com/libiec61850/tools/DynamicModelGenerator_input.java:252-298 | the nested search for the control block that sends a data set |
| ExtSource.NoSender | model_input_generator/src/com/libiec61850/tools/DynamicModelGenerator_input.java:252-255 | a data set nobody sends gets the number and address 0 and NULL for reference and identifier |
| ExtSource.OneSender | model_input_generator/src/com/libiec61850/tools/DynamicModelGenerator_input.java:256-276 | a data set sent by one GOOSE control block gets exactly the address and identifier of that block, and as reference the device, a slash, the node, the kind and the name of the block |
| ExtSource.PrintSubscribeDataSets | model_input_generator/src/com/libiec61850/tools/DynamicModelGenerator_input.java:228-317 | the nested loops over devices, nodes and data sets: each data set with the header found for it and the names of its members |
| ExtSource.SetIsPrinted | model_input_generator/src/com/libiec61850/tools/DynamicModelGenerator_input.java:228-317 | every data set of every device is printed with its own name and the names of its members; one sent by one GOOSE control block with exactly the header of that block |
| ExtSource.Generate | model_input_generator/src/com/libiec61850/tools/DynamicModelGenerator_input.java:81-92 | the whole text from the station: that of the flat list of all data sets |
| ReaderSafety.InvStep | model/config_file_parser_extensions.c:145-357 | after any lines whatever, the level says what exists to append to: a model inside one, a list of references at level 4 |
| ReaderSafety.NameIsLast | model/config_file_parser_extensions.c:253-300 | the name a class line without a class would take over is the one opened or appended last |
| ReaderSafety.ClassTakesLastName | model/config_file_parser_extensions.c:253-258 | a class line without a class repeats that name |
| ReaderSafety.UndefinedExactly | model/config_file_parser_extensions.c:145-357 | exactly which lines make the reader do what C leaves undefined, in every state it can be in |
| ReaderSafety.RejectedExactly | model/config_file_parser_extensions.c:145-357 | exactly which lines make the reader give up the model: those another level would need, and those that lack their name, an item or a proper address |
| ReaderSafety.DefinedExactly | model/config_file_parser_extensions.c:135-358 | reading a text is defined exactly if no line of it is such a line when it is read |
| ReaderSafety.FileDefinedExactly | model/config_file_parser_extensions.c:111-367 | the same for a whole file |
| ReaderSafety.NothingExactly | model/config_file_parser_extensions.c:119-120 | no model comes out of a file exactly if it holds nothing but line ends |
| ExtReading.ParseText | model/config_file_parser_extensions.c:135-358 | reading a text of lines free of line ends and zeros is taking their steps one after the other, a line that is too long included |
| ExtReading.StepRef | model/config_file_parser_extensions.c:291-300 | what any printed reference line appends, or that it stops the reading |
| ExtReading.StepMember | model/config_file_parser_extensions.c:197-215 | what any printed member line appends, or that it stops the reading |
| ExtReading.ReadPrinted | model/config_file_parser_extensions.c:111-367 | for every model with names free of line ends and zeros: reading the printed text gives a model exactly if all names fit their buffers, and then the one with every name as it was read |
| RoundTrip.RefExactly | model/config_file_parser_extensions.c:291-300 | a printed reference comes back exactly if its first four names are words that fit and its last one is an ending without parenthesis |
| RoundTrip.MemberExactly | model/config_file_parser_extensions.c:197-215 | a printed member comes back exactly if its names do and its number has 16 bits |
| RoundTrip.ModelPrintable | model_input_generator/src/com/libiec61850/tools/DynamicModelGenerator_input.java:81-177 | every line of a good model is shorter than the buffer and free of line ends and zeros |
| RoundTrip.PrintThenParse | model_input_generator/src/com/libiec61850/tools/DynamicModelGenerator_input.java:81-177 | printing a model and reading the text character by character gives the class, input and subscriber lists back, complete and in order, if and only if every name kept in them is good |
| RoundTrip.WriteAndRead | model/config_file_parser_extensions.c:111-367 | the same for the printer's and the reader's code, composed |
| RoundTrip.SpaceShiftsFields | model/config_file_parser_extensions.c:293-300 | a description of two words is accepted with all fields shifted by one |
| EndToEnd.RunExists | model_input_generator/src/com/libiec61850/tools/DynamicModelGenerator_input.java:300-314 | the printed entries of a data set stand together |
| EndToEnd.PrintedRun | input/inputs.c:70-121 | they are one run for the subscription if no other data set shares their block or their name and address |
| EndToEnd.CreateEntries | model/dynamic_model_extensions.c:173-197 | one object per parsed reference, in order, with its names and no value |
| EndToEnd.SentIsServed | input/inputs.c:55-133 | the code from the printed text to the values, composed: print, read, make the references, subscribe, choose the subscriber, merge; every reference of the model that names a member of the data set sent holds the element in the place of that member, every other nothing; exactly the references that name a member and have a callback are called back |
| Json.CreateNode | plugin_src/ui_connector/ui_connector.c:710-730 | a new node comes first, the rest of the list is unchanged |
| Json.Measure | plugin_src/ui_connector/ui_connector.c:603-641 | the first pass: the size of all selected entries, one measured as its name, 4, the room of its type and 2 for a separator |
| Json.WrittenFits | plugin_src/ui_connector/ui_connector.c:603-706 | at every moment of the second pass, what is written and what closes it fit the size of the first pass, whatever the names and the printed floats are |
| Json.ToJsonString | plugin_src/ui_connector/ui_connector.c:595-707 | both passes with every append inside the buffer; the exact text |
| Json.ValueMeans | plugin_src/ui_connector/ui_connector.c:656-690 | the text of a value: true or false for a boolean, digits that are scanned as the number for an integer, the printed form for a float |
| JsonReader.JsonTextIs | plugin_src/ui_connector/ui_connector.c:692-705 | separators between the selected entries only; one left over becomes blanks |
| JsonReader.TextIsWellFormed | plugin_src/ui_connector/ui_connector.c:595-707 | for every list and flags: a reader of the grammar of RFC 8259 finds exactly the selected entries in list order, if and only if each has a name that may stand between quotes and a value that is a boolean or a number |
| JsonReader.ProperExactly | plugin_src/ui_connector/ui_connector.c:656-690 | booleans and integers always are such values, a float is unless it is printed as something else than a number |
| JsonReader.NotANumber | plugin_src/ui_connector/ui_connector.c:683-686 | what a float that is not finite is printed as is no such value |
| JsonReader.NamesMeanThemselves | plugin_src/ui_connector/ui_connector.c:650-654 | and then a name stands for itself exactly if it has no backslash |
| JsonReader.ChosenAre | plugin_src/ui_connector/ui_connector.c:609-615 | which entries are selected: the general ones, and measurements and diagram values where these are asked for |

## Left out

- Rounding of floating-point numbers: the protection arithmetic is over the reals. `powf`, `sqrt`, sine and
  cosine are parameters of which only monotonicity, the squared root and the unit length are used.
- Concurrency inside one callback chain: each external event and each timer body is one step. Motion threads
  are interleaved at every publication and every semaphore operation.
- Allocation failure, indices of interlocking inputs outside 0..15, and reallocation of libraries' own objects.
- Foreign code: MMS, GOOSE and sampled-value encoding, sockets, file access, the logger. A callback is recorded,
  not run, where a chain is walked; that it does not change the chain is taken for granted.
- The subscription of sampled values (input/inputs.c:135-212), whose places depend on the data set name alone.
- PIOC, PDIF, MMXU, TCTR, TVTR, RBDR, RMS values and the pacing of sampled values: easier relatives.
- The settings read by plugins and the INI readers; the IPv6 conversion.
- SwitchControl.CSWI.ControlHandler: the originator, the control number and the test flag are not modelled.
- TimeOvercurrent.WriteStrVal: the address of the client and the log line; a threshold of 0 counts as zero curve time.
- Recorder.RDRE.WriteComtrade: the text around the rows and the stamps.
- Dft.DFT.CalcDft: the amplitude, angle and average computed from a phasor; the variant that transforms every sample.
- CallbackIndex.SubscribeDevice: the value cell a reference shares with its attribute is not modelled.
- CallbackIndex.SubscribeToLocalDAInputs: references shorter than the 130 characters of its buffers; the value cell as before.
- Bay.WholeBay: a command may be issued without the controller's check; the check would only remove runs.
- BusTrip.FaultTripsExactly: each conditioning node has the single Op input of the wiring.
- Counters.Counter.CheckGoose: behind the sequence number 2^31 - 1 the next expected one overflows, which C leaves undefined.
- Collation.CharWeights.CompareStrings: for characters 1..127; the result for equal strings is arbitrary.
- Routing.SubscribeToGOOSEInputs: given a receiver; without one the code subscribes nothing.
- Delivery.ChooseSubscriber: the receiver is library code; of it only the comparison of control block reference and APPID is modelled.
- EndToEnd.CreateEntries: which references a node wants to be told of is a parameter.
- ExtModel.ConfigFileParser.HandleModel: devices and nodes are identified by name; the comparison with the loaded model, and the new one made on a mismatch, are not modelled.
- ExtModel.ConfigFileParser.HandleDevice: the lookup or creation of the device in the data model is not modelled.
- ExtModel.ConfigFileParser.HandleNode: the lookup or creation of the node in the data model is not modelled.
- ExtModel.ConfigFileParser.CreateModel: the data model is no part of the outcome. A number of 2^32 or more, a name of 130 characters or more and a line of 1024 are steps C leaves undefined.
- RoundTrip.PrintThenParse: names free of line ends and zeros, as the attributes of a station description are; one with a line end would split its line.
- ExtPrinter.PrintModel: for a given list of data sets; ExtSource.Generate makes that list.
- ExtSource.FindHeader: a control block without an entry in the connected access point ends the generator with an exception; here every control block has one, possibly without an address.
- Json.ToJsonString: a printed float has at most 30 characters, as `%g` gives them; names and texts have no zeros.
