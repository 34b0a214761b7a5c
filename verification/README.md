# Nixfied runtime: a verified model

This project models, in Dafny, five parts of the Nixfied runtime and its upgrade helper, and proves what they promise.

- **Planning.** `Programs`, `Ordering`, `Flattening`, `FlattenFacts`, `FlattenTheorems`, `PlanOrder`, `StepPaths`, `Emission`, `Services`, `Ports`, `Hosting`, `Planner`, `Planning`, `RunPlans`, `Admission`. Composite tasks are flattened into ordered leaf occurrences, the services a task needs are closed over their dependencies and put in startup order, and endpoints get ports from the slot's window. The same graph is read at admission and again for each run; `Planning.AdmissionMakesPlanningTotal` says the second reading never fails after the first succeeded.
- **Redaction.** `Redaction`, `Capture`. An incremental multi-pattern replacer that agrees with replacing the whole buffer, and the relay loop around it.
- **Shared establishment and observation.** `Cursors`, `Exchange`, `Ensure`, `Protocol`, `Registry`, `Simulation`, `Observation`, `AwaitRoot`. `Protocol` is a step relation over an append-only event log, one slot guard, launchers, the owners they spawn and ordinary runs, with crashes and cut channels anywhere; `Registry` ties its log to the event table read by `Cursors`, and `Simulation` ties its steps to the code of the owner and of the launcher in `Ensure` and `Exchange`. `AwaitRoot` is the double read that turns two snapshots and a few process samples into a statement about the time between.
- **Byte protocols.** `Framing`, `Templates`, `Rendering`, `Presenter`. A framed reader under any read schedule, the placeholder tokenizer, and the tailing presenter with back-pressure.
- **Upgrade.** `Files`, `Replacing`, `Commits`, `Transaction`, `Upgrade`, `Saves`. Files are exchanged in and rolled back while an editor writes the same paths. Every placement of content is a `Version` with its path and a stamp, so that losing one can be stated; `Commits` says, over the moves of the outside, which schedules let a transaction commit.

`Wrappers`, `ByteStrings`, `Graphs` and `Ids` are shared. `dafny verify dfyconfig.toml` checks everything.

## Reading the model

- Everything outside the program is a schedule given in advance: `Capture.Turn`, `Framing.Turn`, `Presenter.ReadTurn`, `Files.Beat`, `Ensure.Round`, `Ensure.Reread`, `Observation.Instant`, `Protocol.Action`. Theorems quantify over all schedules. A deadline is an entry of the schedule that says so; a schedule that runs out stands for a loop that is still waiting.
- A step path is carried as its list of segments. The program compares dotted strings; `StepPaths.RenderInjective` and the dot-free identifiers validation requires make the two comparisons the same.
- The program places flattened nodes and starts services in two loops of one shape; both are the method `Ordering.Schedule`.
- Maps and sets are visited in byte-wise id order (`Ids.SortIds`), as the ordered collections of the source are.
- Methods that change a `World`, a `Tail`, a `Relay`, a `Seeking` or an `Establishment` say what the new state is; the lemmas beside them say what that is worth.

## Where a promise holds only under a condition

- **No editor content is lost.** There is one exception, and `Upgrade.Apply` states it exactly. Of the versions put at project paths during a run and not written over since, those that end neither at their path nor in a named recovery file are exactly the ones an exchange took off their path and whose temporary file was not kept. Each of them is the same file, by identity and byte for byte, as the one the helper had read at that path when the run began (after success) or as the temporary file it had made of the given candidate (after a rollback), and is gone once that file is unlinked. `Saves.SaveDuringReplacement` and `Saves.SaveDuringRollback` let one save fall before any step of a replacement: it is lost if and only if it comes before the exchange (before the destination is checked, or between the check and the exchange) and repeats that file and those bytes. A save in that window that differs comes back to its path with the rollback, or, if it fell into the rollback's own window, stays in the file that is kept.
- **Waiting succeeds.** `AwaitRoot.Await` is shown to succeed when the session comes up (`AwaitRoot.Comes`): facts only move forward, nothing recorded or sampled is a loss, and from some instant on, with time left for two reads, the registry is readable and everything ready. Every loss it reports instead is shown to be one.
- **Rendering of labelled output.** It depends on how reads cut the file when a finished line is longer than `MAX_LINE`, and only then: `Rendering.ChunkingIrrelevantIffShortLines`. Conservation is therefore stated over the chunks actually read (`Rendering.ChunkedConserves`), and as the rendering of the whole file when its lines are short.
- **The drain ends.** `Presenter.Drain` ends because a queue's schedule holds finitely many refusals; a reader that stalls for ever stalls the program's drain too.
- **Planning and admission.** Admission also rejects a cycle among services no task needs, which planning would never meet; `Planning.PlanningTotalMakesAdmissible` states the converse with that difference as its condition.
- **Between two observations.** `AwaitRoot.DoubleCollect` assumes that recorded facts only move forward (`Observation.Forward`). It speaks of the time from the first read to the second; of the last sample of the owner, which is taken after that, it says that the run and its settled task were still as reported.

## Model

| member | source | states |
|---|---|---|
| `Flattening.Deeper` | runtime/crates/nixfied-runtime/src/execution/plan.rs:419-420 | the measure of the unfolding: every composite entered leaves strictly fewer composites not yet being visited, so flattening always ends |
| `Emission.EmitInto` | runtime/crates/nixfied-runtime/src/execution/plan.rs:395-476 | the emitting loop appends to the output exactly the leaf occurrences of the task with their sibling dependencies, or gives the unfolding's error |
| `Emission.Flatten` | runtime/crates/nixfied-runtime/src/execution/plan.rs:388-503 | the imperative flattening (emit, then place the first ready node until none is left) returns exactly the functional one, errors included |
| `FlattenTheorems.UnfoldsIffNoReachableCycle` | runtime/crates/nixfied-runtime/src/execution/plan.rs:417-430 | unfolding a declared task succeeds exactly when no task reachable from it reaches itself |
| `FlattenTheorems.FlatAcyclic` | runtime/crates/nixfied-runtime/src/execution/plan.rs:431-475 | if every composite below a task orders its steps, the dependencies of the flattened leaves have no cycle |
| `FlattenTheorems.FlatAcyclicSiblings` | runtime/crates/nixfied-runtime/src/execution/plan.rs:431-475 | conversely, an acyclic flattened graph means every composite below orders its steps: hierarchical and flattened acyclicity agree because composites are nonempty |
| `FlattenTheorems.FlattenSucceedsExactly` | runtime/crates/nixfied-runtime/src/execution/plan.rs:388-503 | flattening a declared task succeeds if and only if no reachable task reaches itself and every reachable composite has acyclic sibling dependencies |
| `PlanOrder.FlattenedIsPlanOrder` | runtime/crates/nixfied-runtime/src/execution/plan.rs:431-501 | the result lists each leaf occurrence once with its task, puts every leaf after all leaves under the siblings that its step or an enclosing step depends on, and each pick is the earliest ready leaf in emission order |
| `StepPaths.RenderInjective` | runtime/crates/nixfied-runtime/src/execution/plan.rs:437-443 | dotted step paths of dot-free segments are equal only if their segments are |
| `StepPaths.PlannedStepPathsDistinct` | runtime/crates/nixfied-manifest/src/validation.rs:523-529 | the step path strings of one plan are pairwise distinct |
| `Ordering.Schedule` | runtime/crates/nixfied-runtime/src/execution/plan.rs:306-331 | the placing loop (first remaining key whose dependencies are placed) equals the recursive greedy order, stuck keys included |
| `Ordering.OrderIsPermutation` | runtime/crates/nixfied-runtime/src/execution/plan.rs:477-501 | a completed greedy order lists the given keys, each as often as given |
| `Ordering.OrderRespects` | runtime/crates/nixfied-runtime/src/execution/plan.rs:477-501 | in a completed greedy order every key comes after all its dependencies |
| `Ordering.OrderTakesEarliest` | runtime/crates/nixfied-runtime/src/execution/plan.rs:480-486 | a key given earlier and not yet placed was still waiting for something when a later one was picked |
| `Ordering.OrderIffAcyclic` | runtime/crates/nixfied-runtime/src/execution/plan.rs:478-501 | on a closed dependency graph the greedy loop places everything if and only if the graph has no cycle |
| `Services.ServiceEdges` | runtime/crates/nixfied-runtime/src/execution/plan.rs:155-177 | the edge table holds, per service, its connectsTo targets and the services its prepare leaves require |
| `Services.ClosureIsLeast` | runtime/crates/nixfied-runtime/src/execution/plan.rs:179-189 | the union is the least superset of the base that is closed under the edges |
| `Services.CloseUnion` | runtime/crates/nixfied-runtime/src/execution/plan.rs:179-189 | the worklist loop ends and computes exactly that union |
| `Services.SearchFrom` | runtime/crates/nixfied-runtime/src/execution/plan.rs:192-216 | one depth-first search, sharing one seen set, finds a way back to its start exactly when one exists |
| `Services.ProveServiceCycles` | runtime/crates/nixfied-runtime/src/execution/plan.rs:191-227 | rejects exactly the cyclic graphs; the trail it reports is an edge path from its start back to itself, and no smaller id lies on a cycle |
| `Planner.ProveGraph` | runtime/crates/nixfied-runtime/src/execution/plan.rs:229-242 | accepts exactly when every task flattens and the service graph is acyclic, and then yields the service union of every task |
| `Hosting.CapacityHosts` | runtime/crates/nixfied-runtime/src/execution/plan.rs:244-257 | a window's capacity covers the endpoints of some services exactly when each of them can have a port of its own between the window's two ends |
| `Planner.ProveCapacity` | runtime/crates/nixfied-runtime/src/execution/plan.rs:244-277 | accepts exactly when, for every slot and task, the endpoints of the task's union can be mapped one-to-one into the ports from the window's start to its end; a refusal names the lowest slot in which some task's cannot, with that demand |
| `Planner.Admit` | runtime/crates/nixfied-runtime/src/execution/lower.rs:88-89 | the gate accepts exactly the programs with an admissible graph in which every window can give every task's endpoints ports of their own |
| `Admission.ProveReferences` | runtime/crates/nixfied-runtime/src/execution/lower.rs:524-560 | accepts exactly the programs in which every named task, step and service is declared |
| `Programs.StepSafeMeans` | runtime/crates/nixfied-manifest/src/validation.rs:523-529 | a name is safe in a step path exactly when it is nonempty and holds letters and digits only, and behind the first of them underscores and hyphens |
| `Admission.ValidateTasks` | runtime/crates/nixfied-manifest/src/validation.rs:482-513 | accepts exactly the task maps whose composites have steps, all with step-safe names |
| `Admission.Lower` | runtime/crates/nixfied-runtime/src/execution/lower.rs:23-91 | lowering lets a validated program through if and only if its references resolve, its graph is admissible and every window can give every task's endpoints ports of their own |
| `Planning.GreedyStartup` | runtime/crates/nixfied-runtime/src/execution/plan.rs:306-331 | the startup loop's order holds each service of the union once, after all its dependencies, always the least id ready |
| `Planning.PlanLogically` | runtime/crates/nixfied-runtime/src/execution/plan.rs:291-337 | the logical plan exists exactly when the task and every prepare task flatten and the union can be ordered, and is then the flattened nodes, the startup order and each service's preparation |
| `Planning.BindSlot` | runtime/crates/nixfied-runtime/src/execution/plan.rs:339-386 | binding succeeds exactly when the slot has a window between whose ends every endpoint can have a port of its own; every started service keeps its preparation and gets its block of ports |
| `Planning.PlanProgram` | runtime/crates/nixfied-runtime/src/execution/plan.rs:279-386 | planning one run succeeds exactly when its tasks flatten, its services can be ordered and the slot's window can give every endpoint a port of its own, with a plan meeting its specification and otherwise a truthful error |
| `Planning.AdmissionMakesPlanningTotal` | runtime/crates/nixfied-runtime/src/execution/plan.rs:229-337 | whatever admission accepts can be planned for every declared task and every slot with a window: no cycle error and no capacity error is left |
| `Planning.PlanningTotalMakesAdmissible` | runtime/crates/nixfied-runtime/src/execution/plan.rs:229-337 | conversely, if some slot exists, every service is needed by some task and all runs can be planned, admission accepts |
| `RunPlans.BaseIsLeafRequirements` | runtime/crates/nixfied-runtime/src/execution/plan.rs:148-153 | a task's base is exactly what the leaves below it require |
| `RunPlans.ServicesStartAfterDependencies` | runtime/crates/nixfied-runtime/src/execution/plan.rs:306-331 | in every run plan a service starts after each service it connects to and each service a leaf of its preparation requires |
| `RunPlans.RunsExactlyWhatIsNeeded` | runtime/crates/nixfied-runtime/src/execution/plan.rs:301-305 | the planned services are the least set holding the task's requirements and closed under waiting |
| `RunPlans.PlannedPortsNeverAlias` | runtime/crates/nixfied-runtime/src/execution/plan.rs:354-368 | in one plan no two endpoints share a port and every port lies in the slot's window, saturating cursor included |
| `RunPlans.EveryEndpointBound` | runtime/crates/nixfied-runtime/src/execution/plan.rs:354-380 | every declared endpoint of every planned service has a port and nothing else has |
| `RunPlans.SlotsNeverShareAPlannedPort` | runtime/crates/nixfied-runtime/src/execution/plan.rs:354-368 | plans of any tasks in two slots with separate windows share no port |
| `RunPlans.ValidatedSlotsNeverShareAPort` | runtime/crates/nixfied-manifest/src/validation.rs:199-230 | once the slot placements are validated, plans of any tasks in any two slots share no port |
| `Ports.AllocatePorts` | runtime/crates/nixfied-runtime/src/execution/plan.rs:349-368 | the allocating loop gives the services, in id order, consecutive ports from the window start, capped at 65535 |
| `Ports.EndpointTotalPermutes` | runtime/crates/nixfied-runtime/src/execution/plan.rs:347-353 | the demand summed in startup order is the demand admission summed in id order |
| `Ports.AllocationUnique` | runtime/crates/nixfied-runtime/src/execution/plan.rs:348-368 | the id order alone determines every port; startup order does not matter |
| `Ports.ValidateSlotPlacements` | runtime/crates/nixfied-manifest/src/validation.rs:179-244 | accepts exactly the placements that cover the policy's slots, carry their own key and have nonempty windows no two of which have a port in common; adjacent windows are accepted |
| `Ports.NeighboursSuffice` | runtime/crates/nixfied-manifest/src/validation.rs:218-230 | among windows sorted by start, checking neighbours decides whether any two overlap |
| `Ports.LowerWindows` | runtime/crates/nixfied-runtime/src/execution/lower.rs:71-80 | lowering keys every placement's window by the slot the placement names, which for validated placements is its own key |
| `Redaction.Scan` | runtime/crates/nixfied-runtime/src/redaction.rs:136-156 | the scanning loop computes the longest-first scan with starts below the limit, also on its path without patterns |
| `Redaction.FindUndecided` | runtime/crates/nixfied-runtime/src/redaction.rs:123-132 | finds the first start from which the rest of the input begins some pattern that is longer |
| `Redaction.AvailableThenRest` | runtime/crates/nixfied-runtime/src/redaction.rs:114-121 | what is released now, followed by the redaction of what is held back with any continuation, is the redaction of everything |
| `Redaction.StreamingIsWhole` | runtime/crates/nixfied-runtime/src/redaction.rs:484-498 | for nonempty patterns, any input and any split into chunks, the streamed output and the final tail equal the whole-buffer redaction |
| `Redaction.HeldBackIsShort` | runtime/crates/nixfied-runtime/src/redaction.rs:114-121 | the pending tail is empty or shorter than some pattern |
| `Redaction.RedactionCovers` | runtime/crates/nixfied-runtime/src/redaction.rs:136-156 | a redaction renders spans that tile the input: literals are single bytes where no secret begins, replacements are the longest secret there, and wherever a secret begins its first byte is not written |
| `Redaction.TilingUnique` | runtime/crates/nixfied-runtime/src/redaction.rs:136-156 | there is only one such tiling |
| `Redaction.SameSecretsSameRedaction` | runtime/crates/nixfied-runtime/src/redaction.rs:23-32 | redactors with the same secrets redact alike, whatever their order and duplicates |
| `Capture.FromSecrets` | runtime/crates/nixfied-runtime/src/redaction.rs:24-32 | the patterns are the secret values, longest first, without adjacent duplicates |
| `Capture.Relay.RedactAvailable` | runtime/crates/nixfied-runtime/src/redaction.rs:117-121 | drains the released prefix and keeps the rest pending |
| `Capture.Relay.Run` | runtime/crates/nixfied-runtime/src/redaction.rs:418-504 | under any schedule of polls, reads, aborts and failing writes: the loop is complete exactly when its last round was not aborted, polled readable and met the end of the stream, incomplete exactly when that round was aborted, and every earlier round was an interrupted or idle poll, a blocked read or data wholly written; what was received is the data of those rounds; complete means the file holds its redaction, and an abort leaves only bytes every continuation would have produced and keeps the tail back |
| `Cursors.AdvancesIsPartialOrder` | runtime/crates/nixfied-runtime/src/registry/observation.rs:71-105 | the accepted history moves form a partial order with nothing seen at the bottom |
| `Cursors.AdvancesForgetsNothing` | runtime/crates/nixfied-runtime/src/registry/observation.rs:80-105 | a move is accepted exactly when a known file stays the same and a known greatest sequence does not fall or get lost |
| `Cursors.CheckedUndoesFromChecked` | runtime/crates/nixfied-runtime/src/registry/observation.rs:154-188 | decoding undoes encoding exactly on the coherent states, and nothing incoherent decodes |
| `Cursors.FromCheckedUndoesChecked` | runtime/crates/nixfied-runtime/src/registry/observation.rs:154-188 | encoding a decoded cursor gives the cursor back |
| `Cursors.AdvanceToExactly` | runtime/crates/nixfied-runtime/src/registry/observation.rs:189-197 | a cursor advances exactly to a coherent later cursor with its own watermark, and becomes it |
| `Cursors.Publications` | runtime/crates/nixfied-runtime/src/registry/observation.rs:695-744 | the marker loop accepts exactly tables in which every run has one valid creation marker, and returns the markers in order with the greatest sequence |
| `Cursors.FirstPublicationIsLeast` | runtime/crates/nixfied-runtime/src/registry/observation.rs:370-379 | the first publication after a watermark is the one with the least sequence above it |
| `Cursors.ObserversAgree` | runtime/crates/nixfied-runtime/src/registry/observation.rs:370-379 | two observers with one watermark reading a growing table never disagree on the first publication once one has seen it |
| `Cursors.AfterCreation` | runtime/crates/nixfied-runtime/src/registry/observation.rs:133-152 | the check in the creating transaction accepts exactly the first run after the watermark, in a table with sound provenance that is no older than what was learned; the cursor it hands on is a later one with the same watermark |
| `Cursors.Seeking.Read` | runtime/crates/nixfied-runtime/src/registry/observation.rs:281-283 | a read moves the history forward to what the reading shows; it is refused exactly when the reading stands for no later history, and refused or contended it changes nothing |
| `Cursors.Seeking.MergeCursor` | runtime/crates/nixfied-runtime/src/registry/observation.rs:275-280 | merges exactly coherent later cursors with the frozen watermark, or changes nothing |
| `Cursors.Resume` | runtime/crates/nixfied-runtime/src/registry/observation.rs:264-274 | a resumed observer has the cursor's watermark and the history this read made of the cursor's; resuming is refused exactly when the cursor or the reading is, and waits exactly on contention |
| `Registry.FirstCreatedIsFirstAfter` | runtime/crates/nixfied-runtime/src/registry/observation.rs:370-379 | positions in the protocol's log are the table's sequences: both name the same first publication |
| `Registry.MayPublishIsAfterCreation` | runtime/crates/nixfied-runtime/src/registry/session.rs:348-356 | the protocol lets a candidate publish exactly when the transaction's own check, on the log's rows and the runs it created, accepts it |
| `Exchange.Establishment.constructor` | runtime/crates/nixfied-runtime/src/background.rs:606-632 | an owner starts before commitment with nothing sent |
| `Exchange.Establishment.LearnSharedCursor` | runtime/crates/nixfied-runtime/src/background.rs:668-674 | only a shared owner before commitment learns, and only under its watermark |
| `Exchange.Establishment.MarkCommitted` | runtime/crates/nixfied-runtime/src/background.rs:675-678 | commitment is marked once, from the precommit phase |
| `Exchange.Establishment.Acknowledge` | runtime/crates/nixfied-runtime/src/background.rs:680-696 | an acknowledgement is sent only after commitment, with the learned cursor |
| `Exchange.Establishment.Selected` | runtime/crates/nixfied-runtime/src/background.rs:697-714 | an existing run is named only by a shared owner before commitment |
| `Exchange.Establishment.Reject` | runtime/crates/nixfied-runtime/src/background.rs:724-734 | a rejection is sent only before commitment and never beside another reply |
| `Exchange.Deliver` | runtime/crates/nixfied-runtime/src/background.rs:442-465 | the whole request goes out exactly when the channel has room for it before the deadline, a closed channel or a failure; given up means one of these was met, still waiting that none was |
| `Exchange.AwaitReply` | runtime/crates/nixfied-runtime/src/background.rs:467-544 | a frame that comes before the deadline and any break is the one reported: established, with that acknowledgement and cursor, exactly if it acknowledges the nonempty candidate with valid locators and a cursor that decodes; not-established exactly for a well-formed selection of another run, which is handed on as it is, or a rejection; uncertain otherwise; a deadline passing right after keeps the certainty and drops the reply; waiting lasts exactly as long as nothing came |
| `Exchange.SharedExchange` | runtime/crates/nixfied-runtime/src/background.rs:424-544 | incomplete exactly when delivery is given up before the channel took the request; dispatched exactly when all of it went out and something ended the wait; then the frame that came in time is reported by its own fields, as in the wait, and nothing certain if none did |
| `Exchange.CertaintyMeans` | runtime/crates/nixfied-runtime/src/background.rs:504-544 | each certainty means exactly one kind of well-formed reply, by the reply's own fields |
| `Ensure.Guarded` | runtime/crates/nixfied-runtime/src/control/ensure.rs:175-214 | under the guard the first read that is not busy decides: the registry is handed over only if it shows no earlier run and the cursor can be learned, and released if it shows one; undecided, with the guard held, only if every read was busy; a refusal has its reason in that read; otherwise the owner keeps its cursor |
| `Ensure.AcquireShared` | runtime/crates/nixfied-runtime/src/control/ensure.rs:130-216 | the first round that is neither busy nor clear with the guard contended decides: a selection is the first publication that round's read showed and takes no guard; the guard is held at a decision exactly when the run is to be established; undecided only if every round passed, or if every read under the granted guard was busy; a refusal has its reason in that round |
| `Ensure.NamesMeans` | runtime/crates/nixfied-runtime/src/control/ensure.rs:220-266 | a reply names a publication by its run, and one of an existing run by its sequence as well |
| `Ensure.SelectReply` | runtime/crates/nixfied-runtime/src/control/ensure.rs:220-266 | the launcher merges the helper's cursor and pins its selection only when its own read shows that run, at the sequence named if any, first after the frozen watermark; it finds a difference only in a read that shows another first run or none |
| `Ensure.TrueSelectionNeverDiffers` | runtime/crates/nixfied-runtime/src/control/ensure.rs:242-252 | a selection that was first in the helper's table is first in every later table, so the launcher never finds it to differ |
| `Simulation.LookIsAStep` | runtime/crates/nixfied-runtime/src/control/ensure.rs:152-172 | a read without the guard is the protocol's look: it goes on exactly when the read shows no run after the watermark, and otherwise answers with the run it shows |
| `Simulation.RecheckIsAStep` | runtime/crates/nixfied-runtime/src/control/ensure.rs:180-204 | a read under the guard is the protocol's recheck: the run is prepared, or the guard released |
| `Simulation.GuardedDecisionIsAPath` | runtime/crates/nixfied-runtime/src/control/ensure.rs:130-216 | the evidence of a decision under the guard is a path of protocol steps from the seeking state, whatever others do between, and ends where publishing is allowed or with the guard released |
| `Simulation.DecisionIsAPath` | runtime/crates/nixfied-runtime/src/control/ensure.rs:130-216 | whatever the acquisition decides, the round its evidence rests on is a path of protocol steps that ends accordingly: the found run named, the guard released, or prepared and allowed to publish |
| `Simulation.MarkIsAStep` | runtime/crates/nixfied-runtime/src/background.rs:675-678 | marking the commit is the protocol's step |
| `Simulation.AcknowledgeIsAStep` | runtime/crates/nixfied-runtime/src/background.rs:680-696 | acknowledging is the protocol's step, delivered or not |
| `Simulation.SelectedIsAStep` | runtime/crates/nixfied-runtime/src/background.rs:697-714 | naming an existing run is the protocol's answer to a look that found it |
| `Simulation.RejectIsAStep` | runtime/crates/nixfied-runtime/src/background.rs:724-734 | any failure the owner reports, or keeps to itself after the commit, is the protocol's failing step |
| `Simulation.ExchangeIsAPath` | runtime/crates/nixfied-runtime/src/background.rs:395-502 | the launcher's exchange takes the protocol's launcher steps, whatever others do between request and reply: an incomplete request is given up, a deciding reply is taken, anything else ends uncertain; so the certainty it reports is true of the log then and in every later state |
| `Protocol.StepKeeps` | runtime/crates/nixfied-runtime/src/background.rs:635-735 | every step of every participant keeps the whole protocol invariant |
| `Protocol.CommittedIsFirst` | runtime/crates/nixfied-runtime/src/registry/observation.rs:133-152 | in every reachable state a committed shared run is the first run created after its own watermark |
| `Protocol.NeverBothEstablish` | runtime/crates/nixfied-runtime/src/control/ensure.rs:130-216 | two launches whose watermarks both precede the other's publication never both establish |
| `Protocol.FinderNeverWrites` | runtime/crates/nixfied-runtime/src/control/ensure.rs:151-198 | a seeker that finds an earlier publication has written nothing and never will |
| `Protocol.PublishingNeverRefused` | runtime/crates/nixfied-runtime/src/control/ensure.rs:205-214 | under the guard, after the recheck, the publishing check cannot fail |
| `Protocol.CertaintyIsSound` | runtime/crates/nixfied-runtime/src/background.rs:395-502 | over all interleavings, crashes and cut channels, not-established means the candidate is not and never will be committed, established means it is |
| `Protocol.NoRejectionAfterCommit` | runtime/crates/nixfied-runtime/src/background.rs:722-735 | a sent rejection means the candidate is not committed, then or ever |
| `Protocol.AnswerNamesTheFirst` | runtime/crates/nixfied-runtime/src/control/ensure.rs:220-266 | however late the launcher rereads the log, the first publication after its watermark is the one the reply named |
| `Observation.ValidatePlan` | runtime/crates/nixfied-runtime/src/control/observation.rs:402-453 | accepts exactly snapshots whose roots and services belong to the plan |
| `Observation.FitsMeans` | runtime/crates/nixfied-runtime/src/control/observation.rs:402-453 | to belong to the plan means: declared roots and services with the planned endpoints, success codes for what settled well, nothing recorded as succeeded that ended badly, and all services once there are roots |
| `Observation.SampleMeans` | runtime/crates/nixfied-runtime/src/control/observation.rs:124-142 | a sampled process is absent, replaced or live exactly by whether its id runs, with the recorded start and group |
| `Observation.ReadyIsUsable` | runtime/crates/nixfied-runtime/src/control/observation.rs:402-453 | a fitting snapshot with a settled task and ready services covers all planned services |
| `Observation.UsableBetween` | runtime/crates/nixfied-runtime/src/control/observation.rs:519-529 | facts that move only forward and agree at two instants agree at every instant between |
| `AwaitRoot.UnavailableMeans` | runtime/crates/nixfied-runtime/src/control/observation.rs:463-517 | every reason given for a loss is a fact the read recorded or a sample showed, field by field; a running task is none |
| `AwaitRoot.Await` | runtime/crates/nixfied-runtime/src/control/observation.rs:547-681 | a success rests on two usable reads that agree, with live samples of the owner and of every planned service between them and one more sample of the owner after the second, and hands over a task settled well with one of its success codes and all planned services ready; a loss is a recorded fact or a sample at the instants read; a registry that fits the plan and only moves forward is never called corrupt; and if nothing goes wrong, some read meets no busy registry and all is ready at some instant with time left, it waits for that and succeeds |
| `AwaitRoot.DoubleCollect` | runtime/crates/nixfied-runtime/src/control/observation.rs:585-680 | if facts only move forward, at every instant between the two reads the run was executing with no successor, its task settled successfully and all planned services ready, and every process sampled between them was the one recorded at that instant; at the last sample, after the second read, run and task were still as reported and the owner of that run live |
| `AwaitRoot.ReportStands` | runtime/crates/nixfied-runtime/src/control/observation.rs:640-680 | from the second read on, at every later instant, the run is the reported one and its task is recorded as reported, settled successfully |
| `Files.World.Exchange` | nix/install/upgrade-helper/src/main.rs:214-234 | two names trade what they hold or nothing happens; an editor may have moved first |
| `Commits.SavedMeans` | nix/install/upgrade-helper/src/main.rs:165-175 | a path is as the caller wants exactly when it is absent and should be, or a regular file of that content |
| `Commits.ProjectMeans` | nix/install/upgrade-helper/src/main.rs:178-191 | the project file is what a reader of its path gets, through a link or not |
| `Replacing.Replacement.TryApply` | nix/install/upgrade-helper/src/main.rs:293-307 | whatever an editor does before each of its steps, an attempt leaves the disk, its verdict and the exchange mark exactly as checking the destination, trading the names, then checking both sides comes to; nothing is unlinked |
| `Replacing.Replacement.TryUndo` | nix/install/upgrade-helper/src/main.rs:308-328 | the same for a rollback: checking that the candidate is still there, trading back, checking that it was the candidate that came back; anything else keeps the staged file |
| `Replacing.Replacement.Apply` | nix/install/upgrade-helper/src/main.rs:293-307 | success leaves the original snapshot in the staged file; a failure leaves the pair recoverable; with no editor everything else is where it was; when nothing interferes and both files are as the helper knows them it succeeds |
| `Replacing.Replacement.Undo` | nix/install/upgrade-helper/src/main.rs:308-328 | a rollback that reports success leaves only the candidate to drop, otherwise the staged file is kept; with no editor it restores what was there at the start, and when nothing interferes it succeeds |
| `Transaction.UndoAll` | nix/install/upgrade-helper/src/main.rs:388-395 | rolling back in reverse, exactly the files that are kept are named |
| `Transaction.Commit` | nix/install/upgrade-helper/src/main.rs:360-400 | for every schedule of edits, failures and interrupts it succeeds exactly when each exchange goes well and the moves after the last one are, in order, one with no interrupt pending, one for each replaced path that holds its candidate, one for each other path that is as wanted, and one at which the project file is; of what came from project paths, exactly what the dropped temporary files had taken off them is unlinked: originals after success, candidates after a rollback; kept files are exactly the ones named |
| `Upgrade.Stage` | nix/install/upgrade-helper/src/main.rs:246-291 | staging touches only its own temporary name and fails without a trace of anybody's content |
| `Upgrade.LossesAccountedFor` | nix/install/upgrade-helper/src/main.rs:235-245 | once everything is settled, a version placed at a project path and not written over fails to survive exactly when an exchange took it off its path and its temporary file was not kept; it then is the compared file, byte for byte, and is unlinked exactly when the temporary file is gone |
| `Upgrade.LossesRepeat` | nix/install/upgrade-helper/src/main.rs:293-328 | what an exchange took and the helper let go repeats, file and bytes, what the helper had read at that path for the same job (after success) or the temporary file it had made of that job's candidate (after a rollback) |
| `Upgrade.Begin` | nix/install/upgrade-helper/src/main.rs:342-347 | it succeeds exactly when no interrupt is pending and the flake, its lock and the project file are as wanted at the moves that read them; each original is the regular file its path held at that move |
| `Upgrade.StageAll` | nix/install/upgrade-helper/src/main.rs:348-359 | the candidates are staged exactly when every file to replace exists, every candidate can be read and every temporary file created and read back; one that changes nothing is skipped; each original expected is the one read and each candidate the file created |
| `Upgrade.Apply` | nix/install/upgrade-helper/src/main.rs:335-402 | for every schedule of edits, failures and interrupts it succeeds exactly when the reads at the start, the staging, every exchange and then the final verification (no interrupt, each replaced path holding its candidate, each other path and the project file as wanted, in this order) go well at the moves they meet; exactly the versions given up are lost, and each of them repeats, file and bytes, the file read for one of the jobs (after success) or the candidate given for it (after a rollback); every replacement answers a job with the original read at its path and a candidate of the helper's own making; with no editor, success means every target holds its candidate and any failure other than a rollback failure that every target holds its original; when nothing interferes it succeeds exactly if the paths are as the caller says and every candidate can be read, and leaves no temporary file but a kept one |
| `Saves.SaveInAttempt` | nix/install/upgrade-helper/src/main.rs:293-307 | one save before any step of an attempt: up to the exchange it is noticed unless it repeats the original as read, between the exchange and the last check unless it repeats the candidate, and later it changes nothing about the attempt |
| `Saves.SaveInReversal` | nix/install/upgrade-helper/src/main.rs:308-328 | one save before any step of a rollback: up to the exchange it is noticed unless it repeats the candidate; after it the rollback succeeds and the save has the path for itself |
| `Saves.SaveDuringReplacement` | nix/install/upgrade-helper/src/main.rs:235-328 | one save at any moment of a replacement that is tried, rolled back if it must be, and its temporary file dropped: the saved version is lost if and only if it comes before the exchange, be it before or after the destination was checked, and repeats the original's file and bytes; otherwise it stands at its path in the end |
| `Saves.SaveDuringRollback` | nix/install/upgrade-helper/src/main.rs:308-328 | one save at any moment of a rollback: it is lost if and only if it comes before the exchange and repeats the candidate's file and bytes; otherwise it stands at its path, or, when it fell between the check and the exchange, in the temporary file, which is kept |
| `Rendering.ChunkingIrrelevantIffShortLines` | runtime/crates/nixfied-runtime/src/presenter.rs:580-605 | labelled rendering is independent of how reads cut the input if and only if no finished line exceeds MAX_LINE |
| `Rendering.ChunkedIsWhole` | runtime/crates/nixfied-runtime/src/presenter.rs:580-605 | with such lines any sequence of chunks renders like the whole |
| `Rendering.ChunkedConserves` | runtime/crates/nixfied-runtime/src/presenter.rs:580-605 | however the input is cut, what is written renders well-cut pieces that, with the unfinished line, spell the input in order: nothing lost, nothing twice |
| `Presenter.RenderLines` | runtime/crates/nixfied-runtime/src/presenter.rs:588-601 | the two loops deliver exactly the finished lines and the over-long beginnings; what stays has no newline and at most MAX_LINE bytes |
| `Presenter.Tail.DeliverBytes` | runtime/crates/nixfied-runtime/src/presenter.rs:580-605 | the bytes read become one more chunk: what the queue holds of this source, then what is blocked, stays the rendering of the chunks read so far, and no other source's items are added |
| `Presenter.Tail.Pump` | runtime/crates/nixfied-runtime/src/presenter.rs:518-557 | one turn keeps that account under any schedule of reads and full queues, appends only this source's items behind all others, and uses up work unless it moves nothing; then, unblocked and without an issue, it stands at the end of the file |
| `Presenter.Tail.Follow` | runtime/crates/nixfied-runtime/src/presenter.rs:292-306 | before the seal, while the file grows between the turns, the account is kept and only this source's items are appended |
| `Presenter.RenderingSoFar` | runtime/crates/nixfied-runtime/src/presenter.rs:580-605 | before the flush, what the queue accepted of a labelled source, then what is blocked, and the unfinished line account for every byte read, in order; with short lines they are the rendering of the whole prefix |
| `Presenter.Tail.FlushPartial` | runtime/crates/nixfied-runtime/src/presenter.rs:607-621 | the unfinished line goes out last, labelled and ended, behind anything still refused |
| `Presenter.OutcomeConserves` | runtime/crates/nixfied-runtime/src/presenter.rs:580-621 | what a labelled source comes to in the end renders well-cut pieces that spell the whole file, its unfinished line last; with short lines it is the rendering of the whole file |
| `Presenter.Drain` | runtime/crates/nixfied-runtime/src/presenter.rs:308-336 | when the queues refuse only so often the drain ends; then nothing is blocked or unfinished, the queues grew only at their ends and by items of these sources, and every source without an issue is in its queue, every byte once and in order; a source that opens and whose reads do not fail has no issue |
| `Templates.Tokenize` | runtime/crates/nixfied-runtime/src/template.rs:27-98 | the loop yields nonempty, maximal literals and, at each other position, exactly what the grammar recognizes there |
| `Templates.TokensAreLossless` | runtime/crates/nixfied-runtime/src/template.rs:27-98 | the token texts put end to end are the input; a malformed token stands for its opener only |
| `Templates.TokenizationUnique` | runtime/crates/nixfied-runtime/src/template.rs:27-98 | there is only one such tokenization |
| `Templates.OpenerDecidedByPosition` | runtime/crates/nixfied-runtime/src/template.rs:62-80 | at every opener the token is decided by the text from that position on alone: no malformed or unknown opener hides a reference behind it |
| `Templates.RecognizesReferences` | runtime/crates/nixfied-runtime/src/template.rs:36-78 | a text begins a reference exactly when it starts with that reference's own text and its name is allowed: none for a secret to be without, none for the state directory to carry, never empty or with braces |
| `Templates.RecognizesMalformed` | runtime/crates/nixfied-runtime/src/template.rs:36-82 | it begins a malformed placeholder exactly when it is a bare prefix cut off, or a prefix and a colon with no such name behind it |
| `Templates.Parse` | runtime/crates/nixfied-runtime/src/template.rs:182-227 | a text parses token by token into the piece each token denotes (the endpoint of its own name or else the service's, the declared secret), or is refused for what one of its tokens is |
| `Templates.ParsedHidesNothing` | runtime/crates/nixfied-runtime/src/template.rs:182-227 | a text that parses holds, at no position, a malformed placeholder, a forbidden or an undeclared secret |
| `Framing.BigEndianRoundTrip` | runtime/crates/nixfied-runtime/src/channel.rs:26-35 | the length field decodes to the length encoded |
| `Framing.EncodesUpToBound` | runtime/crates/nixfied-runtime/src/channel.rs:24-35 | exactly the nonempty bodies up to the bound, the bound itself included, have a frame: the magic, the length and the body |
| `Framing.HeaderDecides` | runtime/crates/nixfied-runtime/src/channel.rs:103-116 | a stream starts with the frame of a body exactly when its header announces that length and the body follows |
| `Framing.FrameUnique` | runtime/crates/nixfied-runtime/src/channel.rs:24-35 | a stream starts with at most one frame |
| `Framing.FrameReader.Step` | runtime/crates/nixfied-runtime/src/channel.rs:65-117 | under any schedule of partial, interrupted and blocked reads a body comes back only when the stream starts with its frame, consumed to its end, and does come back once its missing bytes have had as many turns; the errors about the stream mean there is no frame; never more than one frame is buffered |
| `Framing.WriteAll` | runtime/crates/nixfied-runtime/src/channel.rs:119-136 | success means everything was written, what was written is always a prefix, and enough turns that take something bring success |

## Left out

- `Planner.ProveGraph`: takes a program whose references resolve and whose shape is validated, as lowering does; a graph proof on other programs is not modelled.
- `Admission.ProveReferences`: does not model operation id uniqueness, codebases, tool closures or invocations, which no graph reads.
- `Admission.ValidateTasks`: models the steps of composites and their names; the fields a composite must leave empty, its default output and the checks on leaves are left out, since no graph reads them.
- `Admission.Lower`: models the references, the graph proof and the capacity proof; resolving invocations and tools, operation ids and the other refusals of lowering are left out.
- `Ports.AllocatePorts`: endpoint hosts and the rendering of addresses are not modelled; a port is a number.
- `Redaction.Scan`: works on bytes; UTF-8 repair and the redaction of JSON values are wrappers around it.
- `Capture.Relay.Run`: one relay; the pairing of the two streams, thread joins and shutdown deadlines are not modelled beyond an abort in the schedule.
- `Cursors.Publications`: the event and run tables are values; SQL, schema checks, journal modes and contention other than "busy" are not modelled.
- `Registry.MayPublishIsAfterCreation`: the transaction is atomic; a commit that reports an error after taking effect is not modelled.
- `Exchange.SharedExchange`: the daemon launch with its interruption grace and cancellation request is not modelled; both purposes share the owner's phases.
- `Ensure.AcquireShared`: request comparison is one boolean per read; enrollment with its search for a live owner only supplies the frozen watermark.
- `Protocol.StepKeeps`: participants act one step at a time; event sequences are positions, so gaps between native sequence numbers are not represented.
- `Simulation.DecisionIsAPath`: takes from the environment that each read shows the log at its instant and that the guard was free when granted (`Witnessed`); the database and the lock file behind them are not modelled.
- `Simulation.ExchangeIsAPath`: takes the frames the launcher reads to be unreadable or to say what its own owner answered (`Carries`); the encoding of replies is not modelled.
- `AwaitRoot.Await`: services are a map by id rather than a list sorted by id, and failed, cancelled and interrupted outcomes are one value.
- `Upgrade.Apply`: a file hash is modelled as the content itself, and a file's device and inode as one number; the directory lock, file modes and a change noticed while reading are failures of a step, and other processes do not write the helper's temporary names.
- `Saves.SaveDuringReplacement`: one save and one replacement; any number of edits and both replacements together are the subject of `Upgrade.Apply`.
- `Presenter.Drain`: "delivered" means accepted by the stream's queue, whose own write failures are reported elsewhere; the items record their source, which the program's queues do not.
- `Templates.Parse`: error texts are not modelled, and characters stand for the string's code points.
- `Ensure.SelectReply`: the comparison of the recorded request is one boolean per read, and a deadline is a turn that gives up.
- `Framing.FrameReader.Step`: the temporary growth of the buffer to the wanted size is not modelled apart from the bytes received.
- Discovery of sources, sealing of output and the control thread of the presenter.
- Recovery, cleanup, retention, service control and session finalization.
- System calls, process spawning, signals, descriptor passing and path confinement.
- Rewriting a flake input URL, which rests on a Nix parser.
- Command line, help text, wire encodings and human output.
