# Verified models of the SAB80535 emulator runtime

This project models the parts of the emulator whose promises span many calls, and proves those promises for
every input, every interleaving and every reachable state:

- the shadow call/interrupt stack of the CPU facade and the second stack the trace layer rebuilds from its facts;
- trace captures and the provisional staging of their records;
- the asynchronous file sink, as a producer/writer protocol whose steps are the mutex regions;
- the session's timed input queue, its execution loops and its single-controller lease;
- the interrupt controller, the machine cycle and the nine-bit UART of the CPU core;
- loss-recording rings with cursor pages, the interrupt-suppression router, the decode cache, and the JSON
  validator, tokenizer and string codec.

Most components come in two modules. `X.dfy` is the specification: values, step functions, invariants and the
theorems over whole runs. `XDevice.dfy` is the code as it runs: classes with arrays, heads, counts and loops,
each method proved to do to its fields exactly what the functions of `X.dfy` do to the value they stand for.
Callbacks, clients, I/O outcomes and opcodes are nondeterministic inputs of the steps. 64-bit identities are
explicit: a counter that wraps reads as exhausted, a saturating counter sticks (`Counters.dfy`).

`dafny verify dfyconfig.toml` verifies everything.

| file | models |
|---|---|
| `CallContext.dfy`, `CallContextDevice.dfy`, `FactFlow.dfy` | emu_cpu_facade.c facts and frames, and what they promise their readers; the scope stack of emu_trace_internal.c |
| `Captures.dfy`, `Staging.dfy`, `StagingDevice.dfy`, `CaptureScopes.dfy` | captures, staging and their relation to the scope stack, emu_trace_internal.c |
| `FileSink.dfy`, `FileSinkDevice.dfy` | runtime/file_sink.c |
| `InputQueue.dfy`, `InputQueueDevice.dfy` | emu_session.c input queue; the input checks of emu_cpu_facade.c |
| `Lease.dfy`, `LeaseDevice.dfy` | emu_session.c clients and lease |
| `Interrupts.dfy`, `Core.dfy`, `Uart.dfy` | core.c interrupt controller, tick, run_control, UART; the cycle counts of opcodes.c; the cycle loop of emu_session.c |
| `TraceRing.dfy`, `TraceRingDevice.dfy` | rings and pages of emu_trace_internal.c and emu_outcome_internal.c |
| `Router.dfy`, `RouterDevice.dfy` | emu_debug_trace.c; reconfiguration and depth tracking of emu_debug_runtime.c |
| `SummaryFlow.dfy` | the router's summaries in the staging layer: emu_debug_trace.c and emu_trace_internal.c together |
| `DecodeCache.dfy` | emu_decode_internal.c |
| `Json.dfy`, `JsonShape.dfy`, `JsonTerminals.dfy`, `JsonGrammar.dfy`, `JsonString.dfy`, `JsonDevice.dfy` | emu_json_internal.c, and the grammar of RFC 8259 |

## Where a promise has an exception

Each of these is a property that does not hold without a condition. The code is modelled as it is; the lemma named
gives the failing input or the exact condition.

- The retired total equals the number of retire facts exactly when no cycle of the run ended an instruction, without a
  fault, with all fact numbers used up; otherwise it is one larger (`CallContext.RetiredTotalIsRetireFacts`). A run that
  gets there exists (`CallContext.LastRetireIsLost`).
- A page asked for no records reports the loss of an expired cursor without moving it, so the cursor equation holds
  exactly when records are asked for or the cursor is not expired (`TraceRing.EquationExactly`).
- A text with a zero byte can pass the JSON validator although it is no JSON text, because `strchr` finds the terminator
  of its set. The validator accepts exactly the texts that are JSON once each zero byte is replaced: by the letter of an
  escape after an odd number of backslashes, by a tab elsewhere (`JsonGrammar.ValidatorExact`).
- The tokenizer agrees with the validator on an accepted text exactly when each of its zero bytes has a backslash right
  before it (`Json.ValidatedTextParses`); `Json.ZeroByteBreaks` is a text where it does not.
- A capture started on the active context while that context is being returned from would outlive its frame
  (`CaptureScopes.ActiveStartSettled`, `CaptureScopes.ReturningStartOutlives`). The session starts captures between
  instructions only, where no return is under way.
- A stopping ring that is full when pending summaries are flushed into it drops them; it counts them unless its record
  numbers have run out (`TraceRing.StoppingRingFlush`).
- A ring's loss count is exact unless it saturates; what it then cannot say is accounted for separately
  (`TraceRing.RingAccounts`), and is nothing for the outcome ring (`TraceRing.OutcomesCountExactly`).
- After a write by the host arbitration waits for an instruction. An idle processor executes none, so no interrupt ends
  its idle mode (`Interrupts.IdleStaysInhibited`); when a handler is entered is `Interrupts.ArbitrationExact`.
- A fault of the session alone empties the rebuilt stack and leaves the facade's (`CallContext.StacksAgree`).
- A sink closed at its capacity limit can still turn to failed if a failure was already requested, and a loss snapshot
  dropped with its barrier is never made into a record; both are part of the balance `FileSink.AccountBalances`
  proves, which counts a loss record when it is numbered into the queue or taken as a barrier's.

## Modelling notes

- A return is matched by the facade against the pushed stack pointer less two and by the trace layer against the stored
  pointer before the push. They agree because the core reports the two as differing by two (opcodes.c:312-346).
- The trace layer would nominate a capture for a call that finds its own stack full and the context known, and for a call
  while a return is under way. The facade reports neither; `FactFlow.FactsFit` proves it of every run, and
  `CaptureScopes` runs the trace layer on those facts.
- The session refuses a capture request while it is executing (emu_session.c:1982-1990), and execution ends between
  instructions unless it faults (`Core.Machine.Pump`); a fault empties the rebuilt stack. `CaptureScopes` therefore starts
  captures only when no instruction is open.
- The router asks whether a trace is eligible before it sends the trace's summary and the event. The summary may be what
  ends the capture; the event is delivered all the same. `Staging` has asking as a step of its own, and a permission is
  used up by one event.
- A summary flushed while a reset is being settled may name a trace whose capture was just rearmed; `Staging` allows it
  there and nowhere else. That no other summary names a trace with an idle capture is proved of the router and the
  staging layer running together (`SummaryFlow.SummariesExpected`).
- Virtual time of a callback is any cycle not behind the session's, which covers bus accesses in mid-cycle and
  peripheral events at its end.
- Enumerator order, the 64-frame, 256-record and 1024-input limits and the twelve interrupt sources are those of the
  sources; SMOD, reload value and interrupt priorities are inputs.

## Model

| member | source | states |
|---|---|---|
| CallContext.StacksAgree | emu_trace_internal.c:784-849 | In every run, whenever neither the CPU nor the session is faulted, the stack rebuilt from the facts alone equals the facade's stack frame by frame, each frame's parent is the frame below it, and between instructions every frame is committed; a fault of the session alone empties the rebuilt stack |
| CallContext.TrackerReadsLog | emu_trace_internal.c:800-939 | The trace layer's stack after a run is a function of the emitted facts alone |
| CallContext.DiscardedNeverReturns | emu_cpu_facade.c:183-278 | After a fact that discards frames by overflow or mismatch, every fact with known context names only contexts and parents issued later |
| CallContext.BeginsAndEndsPair | emu_cpu_facade.c:219-234 | Each begin is followed, before the next, by exactly one retire or abort of the same instruction, and identities strictly increase, through faults in delay cycles and resets in mid-instruction |
| CallContext.StepLoses | emu_cpu_facade.c:343-367 | A step loses a retire fact exactly when it ends a cycle with an instruction due, no fault, the total below its maximum and every fact number used |
| CallContext.RetiredTotalIsRetireFacts | emu_cpu_facade.c:343-367 | In every run the retired total is the number of retire facts if and only if no step was taken in such a state, and never differs by more than one |
| CallContext.ExhaustingReaches | emu_cpu_facade.c:132-139 | Such a state is reached from the start |
| CallContext.LastRetireIsLost | emu_cpu_facade.c:343-367 | After that run one instruction counts as retired and none has been reported |
| FactFlow.FactsFit | emu_cpu_facade.c:183-278 | In every run each fact fits the facts before it: it names the instruction in progress, an instruction calls or returns at most once, retire and abort name the instruction begun, and a context reported as known finds room on the rebuilt stack with no return under way |
| CallContext.EnterFollowed | emu_cpu_facade.c:183-210 | A push by the facade and the same fact seen by the tracker keep the two stacks equal, also when the facade drops its stack at depth 64 |
| CallContext.LeaveFollowed | emu_cpu_facade.c:250-278 | A return is matched by both sides or loses the context on both |
| CallContext.FinishFollowed | emu_cpu_facade.c:343-367 | A retirement pops the same frame on both sides; an abort or fault empties the tracker |
| CallContext.ResetFollowed | emu_cpu_facade.c:368-387 | A reset in mid-instruction aborts it and leaves both stacks empty |
| CallContextDevice.Observation.EmitFact | emu_cpu_facade.c:132-139 | Numbers a fact or, out of numbers, drops it and fails the CPU |
| CallContextDevice.Observation.BeginInstruction | emu_cpu_facade.c:219-225 | Opens an instruction under a new identity and reports it |
| CallContextDevice.Observation.ContextPush | emu_cpu_facade.c:183-210 | Pushes a frame in place, or empties the array at depth 64, and reports which |
| CallContextDevice.Observation.ContextReturn | emu_cpu_facade.c:250-278 | Reports a matched return with its context, or forgets all frames |
| CallContextDevice.Observation.TerminateInstruction | emu_cpu_facade.c:343-360 | Retires or aborts the pending instruction and pops the frame it returned from only after its retire fact |
| CallContextDevice.Observation.FinishCycle | emu_cpu_facade.c:343-367 | Ends a cycle: termination, then one report of a fault |
| CallContextDevice.Observation.ResetObservation | emu_cpu_facade.c:368-387 | Aborts what is pending, clears the frames and the fault, and opens the new generation |
| CallContextDevice.Observation.PublishFault | emu_cpu_facade.c:1034-1052 | Reports a fault of the session while the CPU has none, once, and leaves the frames |
| CallContextDevice.ScopeStack.Before | emu_trace_internal.c:800-849 | The in-place stack part of scope_before |
| CallContextDevice.ScopeStack.CommitScopes | emu_trace_internal.c:928-929 | The loop that commits the frames of the retiring instruction |
| CallContextDevice.ScopeStack.After | emu_trace_internal.c:927-938 | The in-place stack part of after_observation |
| CallContextDevice.ScopeStack.Observe | emu_trace_internal.c:784-939 | One fact before and after on the stack in place is one step of the tracker, for which StacksAgree is proved |
| Captures.DeadlineExcludes | emu_trace_internal.c:754-782 | The observation that uses up a bound capture's cycles finds it ended with exactly its limit of cycles |
| Captures.CyclesAreElapsed | emu_trace_internal.c:754-782 | However often the clock is looked at, a bound capture's cycles are the cycles gone by, and it ends as soon as they reach the limit |
| Captures.BeforeEvolves | emu_trace_internal.c:784-849 | Seeing a fact only moves a capture forward, makes at most an idle one a candidate, and keeps its limits |
| Captures.CountEvolves | emu_trace_internal.c:672-686 | Counting a routed event keeps records within the limit and never revives a capture |
| Captures.AfterEvolves | emu_trace_internal.c:856-906 | The end of an observation only moves a capture forward; a reset ends every scoped one |
| Captures.OverflowEvolves | emu_trace_internal.c:636-649 | A stage overflow decides every candidate it meets against it |
| Staging.StagingTransparent | emu_trace_internal.c:586-707 | In every run, a destination that is not staging holds exactly what an unlimited buffer holds that keeps back every record routed to it, in order, and decides at boundaries and capture starts only: every record once, less the routes of failed captures and the records left with none, also across the 256-record overflow and across captures that end between the router's question and the delivery |
| Staging.NothingStagedBetweenInstructions | emu_trace_internal.c:915-926 | Whenever no instruction is open, no stage is active and no capture is a candidate |
| Staging.CaptureLifecycle | emu_trace_internal.c:123-133 | Over every run a live capture is the newest of its trace, so the only one; a terminal one is never live again; records and cycles stay within its limits |
| Staging.DeadlineNeverRouted | emu_trace_internal.c:650-657 | Whatever is asked and delivered while the observation is routed that reaches a capture's cycle deadline, its trace is never let through, so no event of it is routed to the trace |
| Staging.RouteKeeps | emu_trace_internal.c:658-707 | Staging, overflowing or storing a record keeps the account of every destination, also when a capture it names has ended since the router asked |
| Staging.RouteKeepsAsked | emu_debug_trace.c:266-291 | A trace let through stays countable until its event is delivered, whatever summaries are delivered before |
| Staging.EndLoopEnds | emu_trace_internal.c:850-906 | The loop ends or binds each capture present at its start, appends only fresh armed successors, and keeps at most one live capture per trace |
| Staging.FinishKeeps | emu_trace_internal.c:915-926 | Committing at a boundary settles every destination and clears every candidacy |
| Staging.StartKeeps | emu_trace_internal.c:1302-1364 | Starting a capture keeps at most one live per trace |
| Staging.ObserveKeeps | emu_trace_internal.c:815-832 | A new candidate's destination is staged before anything is routed for it |
| StagingDevice.CaptureTable.Strip | emu_trace_internal.c:596-611 | Compacts a route list to the traces of no failed candidate, in order |
| StagingDevice.CaptureTable.FailCandidates | emu_trace_internal.c:636-647 | The loop of stage_overflow |
| StagingDevice.CaptureTable.EndScopes | emu_trace_internal.c:850-906 | The first loop of after_observation, appending successors while it runs |
| StagingDevice.CaptureTable.ClearCandidates | emu_trace_internal.c:918-925 | Ends all candidacies in place |
| StagingDevice.CaptureTable.TickAll | emu_trace_internal.c:754-782 | Advances every capture's clock in place |
| StagingDevice.Stage.CommitAll | emu_trace_internal.c:612-622 | Hands the staged records on in order, stripped, and empties the stage |
| StagingDevice.Stage.Route | emu_trace_internal.c:698-706 | Stages a record, or at 256 fails the candidates, commits and stores it, or stores it at once |
| CaptureScopes.BoundCaptureOnStack | emu_trace_internal.c:784-939 | For every run of the facade and everything the trace layer does with its facts, between observations the rebuilt stack is the fold of the facts seen, every further fact is one the staging layer expects, and a capture bound to an invocation has that invocation's frame on the stack, so it ends no later than its frame |
| CaptureScopes.ActiveStartSettled | emu_trace_internal.c:1302-1364 | A capture started on the active context is on the stack for good exactly if that context is not being returned from |
| CaptureScopes.ReturningStartOutlives | emu_trace_internal.c:885-933 | Started while it is being returned from, it stays bound after its frame is popped |
| CaptureScopes.MinorMeanwhile | emu_trace_internal.c:586-707 | Asking, routing, overflow, the clock, full storage and stops may end a capture but change neither its bindings nor what it waits for |
| CaptureScopes.RetireAnchors | emu_trace_internal.c:866-883 | At a retirement, captures of the popped frame have ended and newly bound ones are on the stack |
| CaptureScopes.ObserveInforms | emu_trace_internal.c:784-849 | After a fact each scoped capture is on the stack or marked with the reason its context was lost |
| FileSink.WrittenNumbersIncrease | runtime/file_sink.c:582-591 | Record numbers strictly increase over everything a sink ever writes, across flushes, failures, capacity closes and reopens |
| FileSink.AccountBalances | runtime/file_sink.c:305-419 | In every reachable state, records offered while accounting plus loss records made equal written plus queued plus in flight plus lost, and the published counters are these numbers |
| FileSink.FileIsPrefix | runtime/file_sink.c:436-563 | Without a failure the file followed by what is outstanding is the numbered stream: nothing dropped, repeated or reordered |
| FileSink.FlushReachesFile | runtime/file_sink.c:773-804 | A completed flush means every record numbered before the request, and the loss snapshot taken then, is in the file before anything else |
| FileSink.LaterRecordsNeverDelay | runtime/file_sink.c:436-470 | While a request is pending, tasks taken plus tasks still due are the records queued at the request plus one, whatever is offered meanwhile |
| FileSink.ReadyPersists | runtime/file_sink.c:436-470 | Work for the writer stays until the writer takes it |
| FileSink.OfferKeepsInv | runtime/file_sink.c:719-772 | Offering a record keeps order, tickets and balance in every sink state |
| FileSink.RequestKeepsInv | runtime/file_sink.c:773-804 | A flush or close request keeps them |
| FileSink.FailKeepsInv | runtime/file_sink.c:312-334 | A failure counts what it discards exactly once |
| FileSink.SealKeepsInv | runtime/file_sink.c:335-368 | So does a capacity close |
| FileSink.OpenKeepsInv | runtime/file_sink.c:592-718 | Reopening goes on with the numbers where they were |
| FileSinkDevice.SinkCell.PutRecord | runtime/file_sink.c:582-591 | Appends to the circular queue under the next number and ticket |
| FileSinkDevice.SinkCell.RememberLoss | runtime/file_sink.c:565-577 | Widens the pending loss range and counts the record lost |
| FileSinkDevice.SinkCell.ProviderEnqueue | runtime/file_sink.c:719-772 | Admits, counts or remembers a record, and says when numbers are exhausted |
| FileSinkDevice.SinkCell.OperationLocked | runtime/file_sink.c:773-804 | Takes the barrier ticket and the loss snapshot of a request, or refuses it |
| FileSinkDevice.SinkCell.TakeTask | runtime/file_sink.c:436-470 | Chooses a record up to the barrier, the barrier itself, or a later record |
| FileSinkDevice.SinkCell.DiscardQueue | runtime/file_sink.c:305-311 | Empties the queue and counts what was in it |
| FileSinkDevice.SinkCell.FailSink | runtime/file_sink.c:312-334 | Ends the sink in failure |
| FileSinkDevice.SinkCell.CapacityBegin | runtime/file_sink.c:335-347 | First half of a capacity close |
| FileSinkDevice.SinkCell.CapacityEnd | runtime/file_sink.c:355-368 | Second half |
| FileSinkDevice.SinkCell.Publish | runtime/file_sink.c:540-561 | Publishes a finished task |
| FileSinkDevice.SinkCell.ProviderOpen | runtime/file_sink.c:592-718 | Opens or reopens a sink exactly when that is allowed |
| FileSinkDevice.ScanSinks | runtime/file_sink.c:436-470 | The round-robin scan finds the first ready sink after the last one served |
| FileSinkDevice.ReadySinkServedSoon | runtime/file_sink.c:436-470 | A ready sink is served after at most as many other picks as its distance from the start |
| InputQueue.NeverStale | emu_session.c:294-304 | In every run the queue is sorted by cycle and order with distinct orders, and neither the session's stale fault nor the CPU's stale or wrong-cycle rejection happens |
| InputQueue.DeliveredOnTimeInOrder | emu_session.c:403-448 | Every delivery happens in exactly the cycle asked for, in order of cycle and admission within a generation |
| InputQueue.EveryInputHasOneFate | emu_session.c:344-511 | Each admitted input is queued, delivered, cancelled or refused exactly once; past a drained boundary one neither cancelled nor refused was delivered |
| InputQueue.Boundary | emu_session.c:403-448 | The drain ends whatever the callbacks admit and, without a fault, delivers exactly the inputs due when it began, in order; with one, what it had delivered is an initial part of them, and includes an input that was applied but could not be reported |
| InputQueue.HeadAccepted | emu_cpu_facade.c:629-634 | A due input passes the CPU's order and cycle checks |
| InputQueue.CancelledInOrder | emu_session.c:457-465 | A reset cancels everything queued, each once, in order of admission |
| InputQueue.InsertKeeps | emu_session.c:294-304 | Insertion keeps the queue sorted and adds exactly the new input |
| InputQueueDevice.Queue.Add | emu_session.c:294-304 | The shifting insertion in place |
| InputQueueDevice.Queue.Remove | emu_session.c:463-464 | Closing the gap in place |
| InputQueueDevice.Queue.FindOldest | emu_session.c:459-461 | Finds the queued input admitted first |
| InputQueueDevice.Queue.CancelAll | emu_session.c:457-465 | The cancellation loop |
| Lease.OneController | emu_session.c:971-989 | In every run at most one client controls; it is open and attached while the lease is set, and is the one the lease names |
| Lease.StaleLeaseRefused | emu_session.c:1699-1702 | A lease number no longer in force is refused for good, to every client, also after its holder reacquires control |
| Lease.StaleGenerationRefused | emu_session.c:1696-1698 | An earlier generation is refused for good |
| Lease.GateExact | emu_session.c:1665-1702 | The gate opens exactly for the holder naming the generation and lease in force |
| Lease.GrantIsNew | emu_session.c:971-983 | A grant carries a number above every number ever in force |
| Lease.AnswerKeepsInv | emu_session.c:1143-1179 | Every client request keeps identities distinct and the holder attached |
| LeaseDevice.ClientTable.Lookup | emu_session.c:924-931 | The slot loop finds a client's slot or none |
| LeaseDevice.ClientTable.OpenSlot | emu_session.c:932-970 | Opens a client in the first free slot unless its identity was ever used |
| LeaseDevice.ClientTable.CloseSlot | emu_session.c:984-989 | Frees the slot and the lease it held |
| LeaseDevice.ClientTable.TakeLease | emu_session.c:971-983 | Grants the lease under the next number, or says why not |
| LeaseDevice.ClientTable.AttachSlot | emu_session.c:1143-1162 | Attaches, acquiring the lease for a controller |
| LeaseDevice.ClientTable.DetachSlot | emu_session.c:1170-1179 | Detaches and gives the lease up |
| LeaseDevice.ClientTable.GiveUpLease | emu_session.c:1696-1735 | Releases the lease behind the generation and lease gate |
| Interrupts.ControllerSound | core.c:1750-1879 | In every reachable state in-service priorities strictly increase, sources are distinct, the mask is exactly their set, depth is at most four, delays at most three, and the depth guard never turns a selected source away |
| Interrupts.ExtraCycles | opcodes.c:1789-1954 | Of the 256 opcodes each takes no, one or three extra cycles; calls and returns take one |
| Interrupts.ChosenIsBest | core.c:1771-1798 | The chosen source is the lowest-numbered of highest priority among the eligible, and none is chosen exactly when none is eligible |
| Interrupts.GuardNeverRejects | core.c:1801-1802 | A selected source always finds a free level |
| Interrupts.ReturnUndoesEnter | core.c:1835-1879 | RETI restores the stack and mask as they were before entry |
| Interrupts.InhibitsOneInstruction | core.c:2085-2106 | In every run after RETI or a write to an interrupt register no handler is entered until one more instruction has executed, the delay cycles in between being those of the opcode; after that one is entered as soon as a source is selected, unless the instruction asks for the same again |
| Interrupts.WaitsForInstruction | core.c:1762-1763 | Delay cycles, idle cycles and cycles in which requests change use up no inhibition and enter no handler |
| Interrupts.ArbitrationExact | core.c:1750-1802 | In every reachable state a handler is due exactly if nothing inhibits it, interrupts are enabled and a source is selected |
| Interrupts.HostInhibitsOne | core.c:750-756 | After a write by the host between instructions no handler is entered until one instruction has executed |
| Interrupts.IdleStaysInhibited | core.c:750-756 | Written to by the host while idle, the processor enters no handler however many cycles go by |
| Interrupts.CycleAdvancesOne | core.c:2026-2120 | A cycle not cut short advances time by one and counts an instruction exactly when it runs one |
| Core.Machine.Arbitrate | core.c:1771-1799 | The scan loop finds that source |
| Core.Machine.RunControl | core.c:2137-2195 | Terminates for every world, executes at most the limit, returns with no pending delay unless aborted, and gives a reason that holds |
| Core.Machine.Pump | emu_session.c:773-862 | The cycle loop needs at most three cycles beyond its budget, so the sixteen-cycle drain fault is unreachable, as is the fault for a cycle without progress; it counts one machine cycle a turn and stops only at safe boundaries unless a cycle or the boundary after it fails, at the first that does |
| Core.BoundarySpent | core.c:2041-2120 | At a boundary a cycle runs an instruction, enters a handler one level up, or stops the run |
| Core.DelaySpent | core.c:2041-2054 | A delay cycle uses up exactly one pending cycle and nothing else |
| Uart.FrameSpan | core.c:835-881 | A frame ends exactly 11*16*(256-h) cycles after it started with SMOD, 11*32*(256-h) without, having emitted its nine bits and stop bit at the bit boundaries, whatever is written to SBUF meanwhile; the next frame starts in that cycle, with the waiting byte, exactly if one is waiting |
| Uart.FrameNotShorter | core.c:835-881 | Before that the frame is active, its byte unchanged, with exactly the bits up to its current one emitted |
| Uart.FrameCarriesByte | core.c:809-819 | The emitted bits reassemble to the byte and ninth bit the frame started with |
| Uart.StartsAligned | core.c:821-833 | In every run each frame, after an idle transmitter or back to back, starts with timer and divider aligned and with the byte and ninth bit written to SBUF last |
| Uart.WaitingIsLastWrite | core.c:835-843 | In every run a byte that waits is the one written last |
| Uart.WrittenMeanwhile | core.c:835-881 | While a frame goes on, what waits is the last byte written since it started, or nothing if none was |
| Uart.FrameCarriesWrite | core.c:821-881 | In every run the nine bits of each frame reassemble to the last byte and ninth bit written before it started, and when it ends the next frame starts at once exactly if something was written meanwhile, with the last of it |
| Uart.OnePeriod | core.c:1615-1633 | Timer 1 in mode 2 overflows once every 256-h cycles |
| Uart.OneBit | core.c:803-807 | One bit time is sixteen or thirty-two overflows and one boundary |
| TraceRing.RingAccounts | emu_trace_internal.c:520-579 | Retained records carry consecutive numbers, no two loss records are adjacent, and weight stored equals weight retained plus loss counts plus what saturated counts cannot say |
| TraceRing.ReaderMissesNothing | emu_trace_internal.c:1230-1301 | A reader paging among any appends has each number up to its cursor exactly once, as the stored record or as lost, and what it was told is lost is retained no more |
| TraceRing.PageAdvances | emu_outcome_internal.c:125-197 | A page that returns records moves the cursor by records written plus records lost before, and returns exactly the records of those numbers |
| TraceRing.EquationExactly | emu_outcome_internal.c:141-195 | The cursor equation holds exactly when records were asked for or nothing was lost |
| TraceRing.LossCovers | emu_trace_internal.c:551-574 | A loss record stands for at least one real record, spans both source ranges and counts them |
| TraceRing.StoreExact | emu_trace_internal.c:520-579 | A record kept is the newest under the newest number; it is refused exactly when numbers or a stopping ring run out |
| TraceRing.StoreKeeps | emu_outcome_internal.c:49-90 | Storing keeps numbers, kinds and account |
| TraceRing.CheckForesees | emu_trace_internal.c:1103-1117 | The capacity check, made before the flush on the expected count, is about the ring after it: a capacity that passes holds every record the flush leaves, and while numbers last one that fails would not |
| TraceRing.ReconfigureKeeps | emu_trace_internal.c:1097-1158 | Reconfiguring changes nothing, or the new ring holds every record the flush of the pending summaries left in the old one; numbers, kinds and account stay sound |
| TraceRing.StoppingRingFlush | emu_trace_internal.c:520-540 | A stopping ring appends the summaries it has room and numbers for and drops the others, counting them unless numbers ran out |
| TraceRing.OutcomesCountExactly | emu_outcome_internal.c:49-90 | A ring of events counts its losses exactly |
| TraceRingDevice.RingCell.Insert | emu_trace_internal.c:480-486 | Circular insertion under the next number |
| TraceRingDevice.RingCell.GiveUpTwo | emu_trace_internal.c:541-575 | The two oldest records become one loss record in place |
| TraceRingDevice.RingCell.Keep | emu_trace_internal.c:520-579 | ring_store in place |
| TraceRingDevice.RingCell.Move | emu_trace_internal.c:1144-1158 | Copies a ring, straightened, into an array of another size |
| TraceRingDevice.RingCell.Reconfigure | emu_trace_internal.c:1097-1158 | The check, the flush loop and the copy, which never writes past the new array |
| TraceRingDevice.RingCell.Copy | emu_trace_internal.c:1279-1289 | Copies a page out of the circular array |
| Router.EveryOfferAnswered | emu_debug_trace.c:249-293 | For each trace, events offered while enabled and eligible equal delivered records naming it plus delivered summary counts plus the active count plus explicit discards |
| Router.OffersExact | emu_debug_trace.c:249-293 | One event is offered once to each listed trace that is enabled and eligible |
| Router.SummariesComeFirst | emu_debug_trace.c:230-293 | What a trace is delivered covers disjoint source ranges in order, so a summary precedes the next accepted event |
| Router.CountsNeverSaturate | emu_debug_trace.c:212-228 | A summary counts at most the sequences it spans, so its saturating counter is exact |
| Router.ConfigureDelivers | emu_debug_runtime.c:738-758 | In every run configuring is all or nothing: it is refused without effect exactly when the trial on a copy fails, or every active summary goes out, unaltered and to its trace's old destination, before the new configuration takes over; after a trial that passed nothing can fail |
| Router.RetiredIdentityStaysRetired | emu_debug_trace.c:327-339 | A trace identity once given up is never used again |
| RouterDevice.RebuildKeepsViews | emu_debug_trace.c:314-358 | Rebuilding the slots by position leaves the summaries by identity as they were exactly when the busy check passes |
| RouterDevice.RouterCell.CarrySlots | emu_debug_trace.c:347-355 | The rebuild loop |
| RouterDevice.RouterCell.Rebuild | emu_debug_trace.c:341-358 | By identity the rebuilt slots show the same summaries exactly when no active summary loses or changes its trace |
| RouterDevice.RouterCell.Blocked | emu_debug_trace.c:314-326 | The busy check loop |
| RouterDevice.RouterCell.Admit | emu_debug_trace.c:327-339 | The loop over new identities |
| RouterDevice.RouterCell.Replace | emu_debug_trace.c:300-362 | Replaces the tables in place or says why not, with the status of the specification |
| RouterDevice.RouterCell.Reconfigure | emu_debug_runtime.c:738-758 | Trial on a copy, flush, replacement |
| RouterDevice.RouterCell.SuppressionAdd | emu_debug_trace.c:212-228 | Counts an event in the slot of its trace's position |
| RouterDevice.RouterCell.SuppressionEmit | emu_debug_trace.c:230-247 | Sends the summary of a position and clears the slot |
| Router.FlushClears | emu_debug_trace.c:460-499 | A flush leaves none of the summaries it concerns |
| Router.FlushSends | emu_debug_trace.c:460-469 | A full flush sends each active summary once, as it stood, in trace order |
| RouterDevice.RouterCell.Route | emu_debug_trace.c:249-293 | route_ids with its per-destination lists |
| RouterDevice.RouterCell.FlushSelected | emu_debug_trace.c:491-499 | The selective flush loop |
| SummaryFlow.SummariesExpected | emu_trace_internal.c:1335-1339 | In every joint run of router and staging layer each summary handed over is one the staging layer expects, and so is each summary still counted: away from a boundary it names no trace with an idle capture |
| SummaryFlow.SecondLoopClears | emu_trace_internal.c:907-914 | The second loop of after_observation leaves no summary of a trace whose capture failed or ended with the observation |
| SummaryFlow.RearmedOver | emu_trace_internal.c:884-904 | A capture that gets a successor has itself ended with the observation |
| SummaryFlow.OffersAreLoop | emu_debug_trace.c:264-291 | To the router the joint loop over an event's traces is its own loop on those that are enabled and found eligible when their turn comes, although a summary sent for one may end captures of the next |
| DecodeCache.WindowTiles | emu_decode_internal.c:44-139 | A window is a gap-free tiling anchored at its base for any offset, undecoded bytes only at its front |
| DecodeCache.BehindTiles | emu_decode_internal.c:79-99 | Each record met walking back ends where the one before begins |
| DecodeCache.History.Completed | emu_decode_internal.c:13-20 | Remembers an instruction that ran on sequentially, and nothing else; known predecessors end where they should |
| DecodeCache.History.WalkBack | emu_decode_internal.c:68-103 | The backward loop keeps the records furthest back, in address order, and fails exactly below zero |
| DecodeCache.History.SkipAhead | emu_decode_internal.c:104-115 | The skipping loop |
| DecodeCache.History.ShowAhead | emu_decode_internal.c:117-132 | The output loop succeeds exactly when all instructions decode |
| DecodeCache.History.CommitAll | emu_decode_internal.c:133-136 | A finished window teaches the cache true predecessors and forgets none |
| DecodeCache.History.Decode | emu_decode_internal.c:44-139 | Answers exactly the answerable requests, with the window of the cache as it was; a refused call changes neither cache nor output |
| Json.ValidatedTextParses | emu_json_internal.c:319-392 | A text the validator accepts is tokenized, given room, into exactly the preorder tokens of the value accepted, with parents and child counts, if and only if each zero byte in it has a backslash right before it |
| Json.NextSkipsSubtree | emu_json_internal.c:396-404 | json_next skips exactly the subtree of every token |
| Json.ValueNested | emu_json_internal.c:162-250 | Extents of children lie in order inside their parent |
| Json.ZeroByteBreaks | emu_json_internal.c:112-117 | A text that fails that condition: an empty array and a zero byte |
| JsonGrammar.ValidatorExact | emu_json_internal.c:252-264 | A text has a reading in the grammar of RFC 8259 nested at most 64 deep if and only if the validator accepts it with that reading and it has no zero byte; and whatever its bytes, the validator accepts it if and only if it has that reading once its zero bytes are replaced |
| JsonShape.ValidatorReads | emu_json_internal.c:112-264 | The recursive descent accepts exactly the values whose parts stand where its scans expect them, each with one reading |
| JsonTerminals.ScalarExact | emu_json_internal.c:70-110 | What the code takes for a number or literal is exactly a number or literal of the RFC |
| JsonTerminals.QuoteSound | emu_json_internal.c:119-158 | In a text without zero bytes, what the string scan goes over spells a sequence of RFC characters |
| JsonTerminals.QuoteComplete | emu_json_internal.c:119-158 | The string scan goes over every sequence of RFC characters up to the closing quote |
| JsonString.DecodeUndoesWrite | emu_json_internal.c:488-564 | Decoding a written string gives it back, for every zero-free string that fits |
| JsonString.WrittenQuoted | emu_json_internal.c:651-685 | Writing appends the quoted string exactly when it fits, and fails otherwise |
| JsonString.WrittenIsValid | emu_json_internal.c:651-685 | A written string is valid JSON with the extent the reader expects |
| JsonDevice.Tokenizer.Turn | emu_json_internal.c:319-392 | One turn of the tokenizer on the token array |
| JsonDevice.Tokenizer.ParseText | emu_json_internal.c:319-392 | json_parse in place, with its three outcomes |
| JsonDevice.Tokenizer.FindQuote | emu_json_internal.c:266-317 | The string scan |
| JsonDevice.SkipSubtree | emu_json_internal.c:396-404 | The loop of json_next |

## Left out

- Curses front end, sockets, path mapping, signals, packaging, SHA-256, reset randomness and session identity.
- Opcode semantics and disassembly: an opcode is its cycle count, its effect on the controller's registers and whether it is RETI.
- emu_debug_runtime.c: the two-phase dispatch around the router, watch matching and stop candidates; its order of observe, ask, route and end is the order of steps in `Staging` and `Router`.
- Classic 8051 serial and interrupt paths, ADC, ports, Timer 0 and Timer 2, and UART reception, which would add easier members.
- Wire validators, JSON field printing, json_member, number conversion and the UTF-8 check of whole documents.
- The router's own rings beside the delivery callback, which keep the last records of each destination.
- Trace configuration beyond destinations, policies and resizing; gates and selectors are the input that says which traces are enabled.
- Allocation failure, structure-size prefixes, wall-clock timeouts, thread shutdown, and callbacks that re-enter the object calling them.
- The JSON validator is modelled as recursive functions on positions rather than as a cursor advanced in place.
- Core.Machine.RunControl: the abort callback is taken to stay asserted once asserted, as the facade's does.
- Staging.StagingTransparent: what a ring or sink does with a record handed to it is the subject of TraceRing and FileSink.
- SummaryFlow.SummariesExpected: traces and destinations stay as they are during the run; reconfiguration is the subject of Router and TraceRing.
- Uart.FrameSpan: reload value, SMOD and mode are held during the frame; Timer 0 is not in mode 3.
