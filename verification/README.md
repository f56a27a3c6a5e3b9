# rpt_advanced: a verified model of its protocols

This project models the parts of rpt_advanced whose correctness does not follow from reading any one function, and proves them for
all inputs and all runs.

* **Control executors** (`ExecutorSpec`, `StandaloneExecutor`, `AsteriskExecutor`, `ControlClient`,
  `StandaloneClient`, `AsteriskClient`). The standalone executor packs a
  pending count and a stop bit into one atomic word, hands tasks to a worker that parks, and elects one joiner; the Asterisk executor
  uses a mutex and a condition variable. Both are step systems in which any number of submitters, stoppers and the worker interleave
  at every atomic action. Both refine one bounded first-in first-out executor, never lose a wakeup and always drain. The client's submit
  calls and heap payloads are then interleaved with each executor's own steps.
* **Adaptive jitter** (`JitterModel` and the modules after it). `JitterContext` is the mutable context, proved operation by operation
  against the functions of `JitterModel`; the laws over whole runs are proved about those functions: no panic, packet conservation,
  media-time accounting, delay bounds, exact payloads, and when a retained tail can be noticed. Answers of the native SpeexDSP buffer
  are parameters constrained only by `LegalAnswer`.
* **Message composition** (`CompositionText`, `CompositionMeaning`, `CompositionCompiler`). The brace grammar with its inverse
  printer, the recursive meaning of macros, and the compiler's depth-first search, size cache and iterator stack, proved to compute
  that meaning exactly when there is one that fits.
* **DTMF commands** (`Commands`, `CommandCollector`, `RemoteCommands`, `RemoteRoundTrip`, `RemoteWire`, `RemoteEntry`). Validated
  prefix maps, the stateful collector over every key history, the remote-base language and its record, and the path from keypad to
  typed command.
* **Incremental PCM** (`PcmReference`, `PcmFuture`, `PcmStream`). The chunked reader as it buffers and carries, against a decode of
  the whole stream.

`Options`, `Sums` and `Quotients` hold shared helpers. Check everything with `dafny verify dfyconfig.toml`.

## Where the code and its promises differ

* A remote-base mapping is looked up by taking the first enabled one. A map with two enabled remote prefixes passes validation, and
  then only the first prefix's commands parse: `Commands.TwoRemotesValid` is one, `Commands.RemoteOrderFree` the exact condition.
* The retained tail of the jitter context is invisible exactly when it lasts a whole number of nanoseconds
  (`JitterTailRuns.InvisibleExactlyWhenWhole`). At 48000 Hz that means multiples of three units; other tails can cost a nanosecond per
  commit (`JitterTailRuns.WholeAt48000`). The arrival offset given to the native buffer truncates toward zero and can differ by one
  unit (`JitterTails.ReportedArrivalAgrees`).
* The PCM reader saves the bytes of a sample that was split between two reads but never puts them back or clears their count. A
  stream that meets one can hand over a wrong sample (`PcmFuture.StaleSampleHeard`) and never ends cleanly; one that does not is
  decoded exactly (`PcmFuture.CleanEndExactly`).
* The control header bounds the capacity by 65536. The standalone executor checks it, the Asterisk executor does not; its laws are
  proved for every positive capacity.
* The wire record cannot tell a priority of member zero from no priority. No text produces the former (`RemoteWire.WireCollisions`).

## Model

| member | source | states |
|---|---|---|
| ExecutorSpec.UsedAfter | rust/control-abi/include/rptadv_control_adapter.h:16-44 | credits in use grow by one on admission, shrink by one when a task has been released, and no other step moves them |
| ExecutorSpec.InvAfter | rust/control-abi/include/rptadv_control_adapter.h:16-44 | every step keeps the capacity bound, the queue order, and the match between accepted calls and queue entries |
| ExecutorSpec.AtMostOnce | rust/control-abi/include/rptadv_control_adapter.h:16-44 | at every moment each task has run at most once and been released no more often than run; a call not enqueued has neither |
| ExecutorSpec.EmptyMeansComplete | rust/control-abi/include/rptadv_control_adapter.h:16-44 | no credit in use, as after a drain, means the callbacks made are exactly run-then-release of every accepted task, in queue order |
| ExecutorSpec.DrainedForever | rust/control-abi/include/rptadv_control_adapter.h:16-44 | from a drained state no continuation enqueues or calls anything again |
| ExecutorSpec.SubmissionOrder | rust/control-abi/include/rptadv_control_adapter.h:16-44 | if one call is enqueued while another is not yet, the first is released before the second runs in every later history, hence each producer's order |
| ExecutorSpec.TraceOrder | rust/control-abi/include/rptadv_control_adapter.h:16-44 | a run of a later queue entry stands behind the release of every earlier one |
| StandaloneExecutor.Refines | rust/control-standalone-adapter/src/lib.rs:126-266 | each atomic step of submitters, stoppers and worker is the abstract executor's named steps or changes nothing abstract: accepted, stopped and full exactly as the abstract state says |
| StandaloneExecutor.RunRefines | rust/control-standalone-adapter/src/lib.rs:126-266 | every interleaving of any number of submitters and stoppers with the worker is a run of the abstract executor and keeps the invariant |
| StandaloneExecutor.InvAfter | rust/control-standalone-adapter/src/lib.rs:126-266 | every atomic step keeps the exact count, the owed-wake law and the single-join law |
| StandaloneExecutor.WordAfter | rust/control-standalone-adapter/src/lib.rs:126-176 | the increment never reaches the stop bit, the decrement never borrows, and the stop bit is set by stops alone and never cleared |
| StandaloneExecutor.WordExactAfter | rust/control-standalone-adapter/src/lib.rs:126-176 | the count in the atomic word equals reserved-not-pushed plus queued plus running after every step |
| StandaloneExecutor.RoomForCredit | rust/control-standalone-adapter/src/lib.rs:101-173 | a call holding a credit always finds room in the queue of an executor built by open |
| StandaloneExecutor.NoRollbackAfter | rust/control-standalone-adapter/src/lib.rs:160-173 | the queue-full rollback branch is unreachable from states satisfying the invariant |
| StandaloneExecutor.NoLostWakeup | rust/control-standalone-adapter/src/lib.rs:146-266 | a worker parked without a token has an unpark still owed to it whenever work is queued or a stop is complete |
| StandaloneExecutor.ProgressPossible | rust/control-standalone-adapter/src/lib.rs:146-266 | in every reachable state with something left to do a step that consumes work is enabled |
| StandaloneExecutor.MeasureAfter | rust/control-standalone-adapter/src/lib.rs:146-266 | every step but a spurious wake strictly lowers the work measure |
| StandaloneExecutor.RunsAreBounded | rust/control-standalone-adapter/src/lib.rs:146-266 | no run is longer than the work there is, plus three steps per spurious wake |
| StandaloneExecutor.QuietReachable | rust/control-standalone-adapter/src/lib.rs:146-266 | without new calls every state reaches one with nothing left to do, within the measure, so every drain finishes when tasks do |
| StandaloneExecutor.QuietMeansDrained | rust/control-standalone-adapter/src/lib.rs:178-266 | with nothing left to do every accepted task has completed and every external stop has returned |
| StandaloneExecutor.DrainBarrier | rust/control-standalone-adapter/src/lib.rs:178-228 | once any external stop_and_drain has returned, winner or loser of the join exchange: worker exited, handle taken exactly once, every accepted task run once then released once in order, and no continuation accepts or calls |
| AsteriskExecutor.Refines | rust/control-asterisk-adapter/src/lib.rs:75-165 | each step under the mutex or of the serialized worker is the abstract executor's named steps or a stutter |
| AsteriskExecutor.RunRefines | rust/control-asterisk-adapter/src/lib.rs:75-165 | every interleaving is a run of the same abstract executor and keeps the invariant |
| AsteriskExecutor.InvAfter | rust/control-asterisk-adapter/src/lib.rs:75-191 | every step keeps mutual exclusion, the exact pending count and the soundness of every waiting stop |
| AsteriskExecutor.StopsSoundAfterWorker | rust/control-asterisk-adapter/src/lib.rs:118-136 | the credit that empties the executor wakes every waiting stop, and no other step strands one |
| AsteriskExecutor.ProgressPossible | rust/control-asterisk-adapter/src/lib.rs:75-165 | in every reachable state with something left to do a step that consumes work is enabled |
| AsteriskExecutor.RunsAreBounded | rust/control-asterisk-adapter/src/lib.rs:75-165 | no run is longer than the work there is, plus four steps per spurious wake |
| AsteriskExecutor.QuietReachable | rust/control-asterisk-adapter/src/lib.rs:118-165 | without new calls every state reaches one with nothing left to do |
| AsteriskExecutor.DrainBarrier | rust/control-asterisk-adapter/src/lib.rs:118-165 | once any external stop_and_drain has returned, every accepted task ran once and was released once in order, and nothing is accepted or called afterwards |
| ControlClient.StartEstablishesInv | rust/peer-support/src/control.rs:164-193 | payloads held by callers that have not yet submitted are sound |
| ControlClient.NeverFaults | rust/peer-support/src/control.rs:144-193 | over the executor contract, in no interleaving is an empty payload box read or a box freed twice |
| ControlClient.PayloadsAccountedFor | rust/peer-support/src/control.rs:144-193 | with no credit in use, a returned payload is untouched and never reached the run function, an accepted one is the only value the run function was given for its call, exactly once, and the box is freed either way |
| StandaloneClient.StepFollows | rust/peer-support/src/control.rs:144-193 | each step of callers, standalone executor and its callbacks is the client's named steps over the executor contract |
| StandaloneClient.NeverFaults | rust/peer-support/src/control.rs:144-193 | in every interleaving of any number of submit calls with the standalone executor's own atomic steps, from opening, no box is read empty or freed twice |
| StandaloneClient.PayloadsSettled | rust/peer-support/src/control.rs:164-193 | in every such interleaving, once any stop_and_drain has returned, each returned submission's box is freed and its payload was given back untouched or consumed exactly once |
| StandaloneClient.MeasureAfter | rust/peer-support/src/control.rs:164-193 | every step of callers and standalone executor but a spurious wake strictly lowers the work left |
| StandaloneClient.RunsAreBounded | rust/peer-support/src/control.rs:164-193 | no interleaving is longer than the work there is, plus a constant for each spurious wake |
| StandaloneClient.ProgressPossible | rust/peer-support/src/control.rs:164-193 | while a submit has not returned or the executor has work, a step that lowers the measure is enabled |
| StandaloneClient.AllSettle | rust/peer-support/src/control.rs:164-193 | from every reachable state the whole ends within the measure, with every submit returned and every payload given back untouched or consumed exactly once, stopped or not |
| AsteriskClient.StepFollows | rust/peer-support/src/control.rs:144-193 | the same step correspondence over the Asterisk executor |
| AsteriskClient.NeverFaults | rust/peer-support/src/control.rs:144-193 | no faults in any interleaving with the Asterisk executor's own steps |
| AsteriskClient.PayloadsSettled | rust/peer-support/src/control.rs:164-193 | every returned submission is settled once any stop_and_drain of the Asterisk executor has returned |
| AsteriskClient.MeasureAfter | rust/peer-support/src/control.rs:164-193 | every step of callers and Asterisk executor but a spurious wake strictly lowers the work left |
| AsteriskClient.RunsAreBounded | rust/peer-support/src/control.rs:164-193 | no interleaving is longer than the work there is, plus a constant for each spurious wake |
| AsteriskClient.ProgressPossible | rust/peer-support/src/control.rs:164-193 | while a submit has not returned or the executor has work, a step that lowers the measure is enabled |
| AsteriskClient.AllSettle | rust/peer-support/src/control.rs:164-193 | from every reachable state the whole ends within the measure, with every submit returned and every payload given back untouched or consumed exactly once, stopped or not |
| JitterSlots.RetireCounts | rust/jitter-adapter/src/lib.rs:210-217 | native cleanup retires only packets at or before its cut, keeps the inserted one, and loses none from the count |
| JitterSlots.SpareExists | rust/jitter-adapter/src/lib.rs:270-308 | a queue below its limit always leaves a spare slot |
| JitterSlots.EarliestExists | rust/jitter-adapter/src/lib.rs:357-371 | a nonempty queue has an earliest packet, so its minimum can be unwrapped |
| JitterSlots.QuantumBounds | rust/jitter-adapter/src/lib.rs:383-393 | the native request is positive, within its limit and within the rest of every packet ahead |
| JitterRuns.StepShape | rust/jitter-adapter/src/lib.rs:219-500 | no operation panics, and every one keeps the slot limit, the span bounds and an unstarted timeline's queued packet |
| JitterRuns.ReleasedExtent | rust/jitter-adapter/src/lib.rs:421-434 | a released packet's output extent is positive, fits 31 bits and ends past the cursor |
| JitterRuns.AdmitConserves | rust/jitter-adapter/src/lib.rs:219-329 | whatever status admission answers, exactly one more packet is queued or counted as dropped |
| JitterRuns.RunKeepsInv | rust/jitter-adapter/src/lib.rs:153-500 | over every run: nonnegative put answers equal delivered plus queued plus all drops, and cursor progress equals consumed plus missing plus skipped spans while committed output equals consumed plus missing plus inserted |
| JitterRuns.FreshInv | rust/jitter-adapter/src/lib.rs:75-114 | a newly created context satisfies the conservation laws |
| JitterRuns.CursorForward | rust/jitter-adapter/src/lib.rs:331-500 | within an epoch the media position never moves backwards |
| JitterPayloads.PayloadsExact | rust/jitter-adapter/src/lib.rs:219-458 | over every run a packet is handed out no more often than it was accepted, with the same timestamp, span and bytes |
| JitterDelay.ReleasedWithinMaximum | rust/jitter-adapter/src/lib.rs:374-417 | a decision is released only when due, never with more than the maximum delay, and an insertion never pushes the delay above it |
| JitterDelay.CommittedAboveMinimum | rust/jitter-adapter/src/lib.rs:474-498 | after every commit the delay is at least the minimum, at any clock rate and with any retained tail |
| JitterDelay.ObservedDelayWithinBounds | rust/jitter-adapter/src/lib.rs:502-521 | over every run in which no time saturates, at any rate, the observed delay is at most the maximum and at least the minimum less one unit, and at least the minimum when that is a whole number of nanoseconds |
| JitterTails.TailsDoNotMatter | rust/jitter-adapter/src/lib.rs:191-208 | a run with retained tails of whole nanoseconds and the run that publishes at once agree in every status, decision, deadline and overload |
| JitterTailRuns.InvisibleExactlyWhenWhole | rust/jitter-adapter/src/lib.rs:460-499 | for every valid configuration, no run from creation can tell a retained tail from publishing at once if and only if the tail is a whole number of nanoseconds |
| JitterTailRuns.UnevenTailIsVisible | rust/jitter-adapter/src/lib.rs:331-500 | for every valid configuration and every tail that is not whole, a legal run from creation whose answers differ from those of the run without tails |
| JitterTailRuns.WholeAtDividingRates | rust/jitter-adapter/src/lib.rs:191-193 | at clock rates dividing one gigahertz every tail is whole |
| JitterTailRuns.WholeAt48000 | rust/jitter-adapter/src/lib.rs:191-193 | at 48000 Hz a tail is whole if and only if it is a multiple of three units |
| JitterTailRuns.OddTailIsVisible | rust/jitter-adapter/src/lib.rs:219-499 | a run from creation at 48000 Hz: a 20 ms packet committed with a one-unit tail is next due at 199999999 ns instead of 200000000 ns |
| JitterTailRuns.ArrivalOffsetCanDiffer | rust/jitter-adapter/src/lib.rs:219-329 | a run from creation at 8000 Hz after which a retained tail moves the arrival reported for a packet by one unit |
| JitterTails.ReportedArrivalAgrees | rust/jitter-adapter/src/lib.rs:219-329 | said of contexts: the arrival reported with a retained tail is the one reported without it if and only if it is not before the deadline, is before the timeline's own, or falls on a tick |
| JitterTails.ArrivalOffsetAgrees | rust/jitter-adapter/src/lib.rs:219-329 | the arrival offset given to the native buffer ignores the tail if and only if the arrival is not before the whole deadline, is before the timeline's own deadline, or falls on a tick |
| JitterClient.ComposedIsAccepted | rust/jitter-client/src/lib.rs:180-238 | every configuration the client composes is accepted, its delay bounds last whole nanoseconds, and its request is the least whole number of coding units covering 20 ms |
| JitterClient.ClientDelayBounded | rust/jitter-client/src/lib.rs:180-238 | a client-built context keeps between 160 and 500 ms of delay at every settled point of every unsaturated run |
| JitterClient.DecisionsPass | rust/jitter-client/src/lib.rs:276-320 | no decision released by a context is refused by the client's own check, and its numbers fit their C types |
| JitterContext.Jitter.constructor | rust/jitter-adapter/src/lib.rs:75-114 | a new context is the fresh state for its configuration |
| JitterContext.Jitter.Put | rust/jitter-adapter/src/lib.rs:219-329 | the slot array, timeline and counters after put are those of the model, which never panics |
| JitterContext.Jitter.Get | rust/jitter-adapter/src/lib.rs:331-458 | the state, status and decision of get are those of the model, and the caller's buffer holds the payload |
| JitterContext.Jitter.DecideAnswer | rust/jitter-adapter/src/lib.rs:394-458 | acting on the native answer in place equals the model's decision |
| JitterContext.Jitter.Advance | rust/jitter-adapter/src/lib.rs:460-500 | the commit in place equals the model's |
| JitterContext.Jitter.Reset | rust/jitter-adapter/src/lib.rs:153-173 | the reset in place equals the model's |
| JitterContext.Jitter.Overload | rust/jitter-adapter/src/lib.rs:175-189 | dropping everything queued counts each packet and span once, with saturation |
| JitterContext.Jitter.CollectRetiredSlots | rust/jitter-adapter/src/lib.rs:210-217 | reclaimed slots are counted as late, one each |
| JitterContext.Jitter.Observe | rust/jitter-adapter/src/lib.rs:502-521 | the observed queue count, span and delay are those of the slots and timeline, and the totals are the counters |
| CompositionText.ParseNeverCycles | rust/core/src/composition.rs:251-314 | parsing never reports a cycle |
| CompositionText.ParseContent | rust/core/src/composition.rs:251-314 | the one-pass parser with its literal buffer computes the grammar's parse, errors included |
| CompositionText.ParseInvertsPrint | rust/core/src/composition.rs:251-314 | printing a well-formed token list with doubled braces and parsing it gives the list back |
| CompositionText.PrintOfParse | rust/core/src/composition.rs:251-314 | every parse result is well-formed, and printing it gives content with the same parse |
| CompositionMeaning.MeaningUnique | rust/core/src/composition.rs:80-134 | a token list has at most one recursive flattening |
| CompositionMeaning.MeaningImpliesSound | rust/core/src/composition.rs:87-113 | a list with a flattening reaches only defined, source-valid macros, none of which reaches itself |
| CompositionMeaning.CostOfReachable | rust/core/src/composition.rs:194-228 | a list costs at least as much as each macro it reaches |
| CompositionMeaning.FlattenedOwners | rust/core/src/composition.rs:142-144 | every expanded segment's owner is the invoking settings or a defined macro |
| CompositionCompiler.Measure | rust/core/src/composition.rs:194-228 | checked addition over cached sizes yields the exact total, failing if and only if it passes the largest allocation |
| CompositionCompiler.MeasuredIsSize | rust/core/src/composition.rs:194-228 | cached sizes equal the flattened segment count and bytes |
| CompositionCompiler.RevisitIsCycle | rust/core/src/composition.rs:87-113 | meeting a macro that is being visited means it reaches itself |
| CompositionCompiler.SizeAll | rust/core/src/composition.rs:87-113 | the depth-first search ends; success sizes a macro if and only if the root reaches it, every failure is explained, and Cycle is reported only when a reachable macro reaches itself |
| CompositionCompiler.LoadDefinition | rust/core/src/composition.rs:147-192 | loading a definition parses and validates it with the program's errors |
| CompositionCompiler.Expand | rust/core/src/composition.rs:114-134 | expansion on a stack of iterators ends, even through empty macros, and yields the flattening |
| CompositionCompiler.Compile | rust/core/src/composition.rs:80-134 | success if and only if the settings have a flattening that fits, and then exactly that flattening; Cycle only for a reachable macro that reaches itself; a missing, syntax or size error is explained by what the root reaches |
| CompositionCompiler.ExplainedExcludes | rust/core/src/composition.rs:80-134 | an explained error and a compilable meaning cannot both hold |
| CompositionCompiler.CompiledIsSound | rust/core/src/composition.rs:80-134 | success implies the reached references are acyclic, defined and valid, and every owner can be looked up |
| Commands.ValidateOrderFree | rust/core/src/command.rs:134-173 | reordering a map changes neither its acceptance nor the error it is refused with |
| Commands.ParseMeaning | rust/core/src/command.rs:181-212 | under a valid map parsing finds the one command that the set of mappings denotes, and nothing else |
| Commands.ParseOrderFree | rust/core/src/command.rs:181-212 | parsing under a valid map is the same for every permutation of it |
| Commands.ExclusiveNeverShadowed | rust/core/src/command.rs:134-212 | under a valid map every decimal continuation of a message or status prefix is that command |
| Commands.FamiliesDisjoint | rust/core/src/command.rs:134-212 | under a valid map no digit string is both a link command and in the remote-base family |
| Commands.RemoteOrderFree | rust/core/src/command.rs:215-220 | remote parsing under a valid map ignores order if and only if at most one remote prefix is enabled |
| Commands.TwoRemotesValid | rust/core/src/command.rs:134-173 | such a map exists: prefixes 81 and 82, both remote, pass validation |
| Commands.TwoRemotesOrdered | rust/core/src/command.rs:215-220 | with two enabled remote prefixes, a permutation and a text that parses only before it |
| CommandCollector.Collector.constructor | rust/core/src/command.rs:223-230 | a new collector is idle and empty |
| CommandCollector.Collector.FeedKey | rust/core/src/command.rs:264-298 | feeding one key in place is the model's step, output included |
| CommandCollector.SessionHolds | rust/core/src/command.rs:264-298 | in an open session the collector holds exactly the keys since the resetting star and the time of the last one |
| CommandCollector.ActiveExactly | rust/core/src/command.rs:264-304 | over every history the collector is active if and only if a session is open, and one reset opened it |
| CommandCollector.EmittedExactly | rust/core/src/command.rs:264-298 | text is handed on if and only if the last key closes an open session by terminator, timeout or a finished command |
| CommandCollector.EmittedText | rust/core/src/command.rs:264-298 | over every history, emitted text is the keys since the last resetting star, nonempty, at most 127, with stars only after a full remote prefix, and unterminated only for an argument-free command none extends |
| CommandCollector.AutoFinishMeaning | rust/core/src/command.rs:284-291 | collection ends by itself exactly on an argument-free command that no argument-free mapping extends |
| CommandCollector.TypedIsEmitted | rust/core/src/command.rs:264-298 | after any history outside the remote family, typeable text is handed on as typed, at any times |
| CommandCollector.LanguageExactly | rust/core/src/command.rs:264-298 | the texts a collector can hand on are exactly the typeable ones |
| RemoteCommands.ConversionIsExact | rust/core/src/remote_base_command.rs:71-89 | conversion answers n if and only if the precisions are within six places, n fits 64 bits and equals the entered value: no rounding, no overflow |
| RemoteRoundTrip.ParseInvertsPrint | rust/core/src/remote_base_command.rs:199-386 | the canonical text of every command in range parses back to it |
| RemoteRoundTrip.RangeIsImage | rust/core/src/remote_base_command.rs:199-386 | a command is in range if and only if some text parses to it |
| RemoteRoundTrip.ParsesAs1 | rust/core/src/remote_base_command.rs:347-386 | no fixed code and no longer family shadows the one-digit families |
| RemoteRoundTrip.ParsesAs2 | rust/core/src/remote_base_command.rs:322-346 | nothing shadows the two-digit families |
| RemoteRoundTrip.ParsesAs3 | rust/core/src/remote_base_command.rs:290-321 | nothing shadows the three-digit families |
| RemoteWire.DecodeWire | rust/core/src/remote_base_command_wire.rs:32-189 | a record decodes to its command, up to the two spellings of no priority |
| RemoteWire.WireFits | rust/core/src/remote_base_command_wire.rs:8-28 | every field of every record fits its C type |
| RemoteWire.WireCollisions | rust/core/src/remote_base_command_wire.rs:32-189 | two commands share a record if and only if they are equal or are priority zero and no priority |
| RemoteWire.TextToWireIsInjective | rust/core/src/remote_base_command_wire.rs:32-189 | for commands that came from text, the record determines the command |
| RemoteEntry.RemoteCommandsCanBeTyped | rust/core/src/command.rs:215-298 | with one remote prefix enabled, typing a star, the prefix, a command's canonical text and the terminator yields text that parses to that command, for every command in range |
| PcmReference.GatherIgnoresChunks | rust/media-support/src/process.rs:397-464 | however the child's output is cut, the payload is its declared prefix, short exactly when the output is |
| PcmReference.AlignedAfter | rust/media-support/src/process.rs:431-458 | an aligned delivery leaves the rest of the stream exactly as aligned as before |
| PcmFuture.FutureIsReference | rust/media-support/src/process.rs:397-484 | as long as no sample is split between child reads, everything the reader will hand over, and its ending, is the reference decode of the declared payload, also when the payload stops inside a sample |
| PcmFuture.SplitNeverEnds | rust/media-support/src/process.rs:431-475 | once a read has split a sample, or one inside the payload will, the stream has no clean end |
| PcmFuture.RightUntilSplit | rust/media-support/src/process.rs:397-484 | whatever is split later, the samples that come whole in the reads before the first split are handed over as the reference has them |
| PcmFuture.CleanEndExactly | rust/media-support/src/process.rs:397-484 | a stream ends cleanly if and only if no sample is split between reads and the reference decode ends cleanly |
| PcmFuture.StaleSampleHeard | rust/media-support/src/process.rs:431-437 | two whole samples, the second split after the first: the reader's second sample is built from the stale first byte and the stream fails, where the reference has the right sample and a clean end |
| PcmStream.Child.Read | rust/media-support/src/process.rs:155-174 | one read delivers a prefix of the next chunk within the limit, or its failure, or the end |
| PcmStream.PcmStream.constructor | rust/media-support/src/process.rs:366-390 | a new stream has empty cursors, no carry and the whole pipe ahead |
| PcmStream.PcmStream.DecodeBuffered | rust/media-support/src/process.rs:412-427 | decoding hands over the next samples of the reader's future, stopping before the first non-finite one |
| PcmStream.PcmStream.SaveCarry | rust/media-support/src/process.rs:431-437 | saving a split sample changes the carry count and the cursors and leaves the buffer as it was |
| PcmStream.PcmStream.GetMore | rust/media-support/src/process.rs:431-463 | a refill puts the delivered bytes behind the carry and leaves the front of the buffer as it was, or ends as the model says |
| PcmStream.PcmStream.Fill | rust/media-support/src/process.rs:443-463 | reading behind the carry overwrites exactly the delivered bytes, or ends as the model says |
| PcmStream.PcmStream.EndOrError | rust/media-support/src/process.rs:466-475 | the end is clean if and only if no carry is left, the declared length was met and a sample was read |
| PcmStream.PcmStream.Read | rust/media-support/src/process.rs:397-484 | whatever was split, each read hands over the next samples of the reader's future or its verdict once none are left, defers an error behind earlier samples, and repeats a clean end |
| PcmStream.ReadRun | rust/media-support/src/process.rs:397-484 | any sequence of reads with any buffers hears the reader's future in order, all of it when it stops, with its verdict |
| PcmStream.PlayAll | rust/media-support/src/process.rs:397-484 | from opening, with any buffers: if no sample is split between child reads, the reference decode is heard with its verdict; otherwise the samples whole before the first split are still heard right, and no clean end is reported |
| PcmStream.SplitSampleHeard | rust/media-support/src/process.rs:431-437 | three or more reads of that split stream hear the first sample twice and then an error |

## Left out

- ExecutorSpec.InvAfter: steps are sequentially consistent; the effect of each memory ordering on weak hardware is not modelled.
- StandaloneExecutor.RunRefines: participants are values in a step system rather than heap objects sharing atomics, so aliasing of the executor handle is not captured.
- StandaloneExecutor.QuietReachable: task bodies are assumed to return; a task that never returns keeps the worker busy.
- StandaloneExecutor.DrainBarrier: dropping the executor from inside one of its own tasks, which detaches the worker, is not modelled.
- AsteriskExecutor.RunRefines: the taskprocessor is modelled as a first-in first-out queue with one consumer; its internals are foreign code.
- JitterRuns.RunKeepsInv: counters saturate, and conservation is claimed below saturation, as the counters then no longer hold the amounts.
- JitterDelay.ObservedDelayWithinBounds: excludes runs whose deadline or media position saturates at 64 bits, where delay is no longer represented.
- JitterTails.TailsDoNotMatter: excludes tails that are not whole nanoseconds, since they are visible, and runs whose times saturate at 64 bits.
- JitterTailRuns.InvisibleExactlyWhenWhole: quantifies over runs whose times do not saturate at 64 bits.
- CompositionCompiler.Compile: failure of the allocator to reserve memory that fits the address space is not modelled; records are counted by a size parameter.
- PcmReference.GatherIgnoresChunks: sample values are an abstract decoding with a finiteness predicate; the floating-point arithmetic of gain is not modelled.
- PcmStream.Child.Read: pipes, polling, cancellation and deadlines are reduced to the chunks and failures that reads meet.
- WAV header parsing: fixed-offset field checks.
- remote_candidate and administrative: single lookups without a law of their own.
- The standard command table: one concrete map.
- SpeexDSP, crossbeam, Fluent, libgpiod and libsensors: foreign code.
- Asterisk channel, codec, radio and application glue: argument checks and calls into Asterisk.
- Scheduling, templates, clock wording, access lists, secrets and device adapters: their meaning lies in external providers, or each would add only single-branch checks.
