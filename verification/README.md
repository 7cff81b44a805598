# Verified model of the runtime's hard parts

Each module below models one component of the repository and proves what that component is
relied on for. The model follows the code's own form: objects that update their fields are
classes, loops are loops with invariants, and each of them is proved equal to a plain function
about which the laws are then proved. Where the code does not have a property that its
documentation promises, the exact condition is proved together with an input on which it fails.

| module | what it is about |
|---|---|
| Options, Utf8 | what several modules share: optional values, and the octets of a text |
| RustFraming, RustBridge, RustReplies | the byte reader and the request protocol of the Rust bridge, and JSON replies through both |
| JsonText, BoundedJson, SandboxResponse | the sandbox's bounded JSON printer over object graphs, the spliced response, and a parser for RFC 8259 (sections 2 to 7) that undoes both |
| Authority | one approval at the authority, and every interleaving of the runtimes that apply it |
| AgentLoop | the AgentV3 step loop and the classification of its exit |
| OrdinaryAcceptance, Observation | the journal reader that credits a coder task, and the ticket in front of it |
| GraphSave, EdgeIndex | delta saves of the graph, and its adjacency indexes |
| GithubTree | the pruned walk that repairs a truncated recursive listing |
| RateLimit, FailureCache | the two bounded stores, over whole runs |
| AgentIdentity | delegated authority |
| YamlInspect | the alias check on parsed YAML |
| Words, Dream | 32-bit arithmetic; similarity, deltas and the seeded generator |

## What turned out differently from the documentation

- **A null line stops dispatching.** A stdout line `null` parses, and reading `_reqId` of it throws
  out of the loop, so the complete lines after it in the same chunk are never looked at
  (`RustReplies.NullLineStopsReply`; `RustBridge.EveryLineReachedExactly` has the exact condition).
- **Overflow depends on the cut.** A chunk is counted before its complete lines are taken out, so
  the same stream can overflow under one cut and not under another (`RustFraming.OverflowDependsOnCut`).
  Every cut passes exactly when the whole stream is within the cap; some cut passes exactly when
  each line is, less what a chunk over the newline before it can hide (`RustFraming.OverflowExactly`).
- **A mirror with edges but no nodes is adopted without being saved.** A load from an empty database
  saves what it adopts only if that holds a node, so memory and rows differ until the next save
  (`GraphSave.LoadExact` has the exact condition).
- **A recorded outcome does not close a row approval.** A local decision that is refused is recorded
  as `failed` while the row stays pending; a later apply executes it, and the recorded outcome stays
  `failed`. For operations an outcome does close, but an apply that dies before it leaves the action
  open to be executed again (`Authority.RowAfterOutcome`, `Authority.OperationTwice`;
  `Authority.LateApply` has the exact condition).
- **The plan's step ceiling above 32 is never enforced.** The loop compares `maxSteps` with the length
  of a ring of at most 32 reports; the exit classifier counts exactly (`AgentLoop.StepCeiling`).
- **Routing may stand anywhere.** A comment says that the optional routing event lies between policy
  and execution; the reader credits a run with it at every place (`OrdinaryAcceptance.RoutingAnywhere`,
  and `OrdinaryAcceptance.ChainExact` for what the checks do fix).
- **Consolidated edges come back.** Consolidation takes edges out of memory and saves, but saves only
  upsert (`GraphSave.ConsolidatedEdgesReturn`).
- **A stamped creation time is not stored.** `created_at` is not among the columns that an upsert
  rewrites, so the time stamped after an edge's row was inserted does not survive a reload
  (`GraphSave.StampedTimeNotStored`). Stored equals memory after a save exactly when there is neither an
  orphan row nor a changed creation time (`GraphSave.SaveMirrors`).
- **Index keys collide across workspaces**, so a bucket can hold foreign edges; reads filter them out
  (`EdgeIndex.KeysCollide`, `EdgeIndex.BucketExact`, `EdgeIndex.ReadExact`).
- **A backslash in a directory name can lose files** in the walk, because `\` and `/` become one
  (`GithubTree.BackslashLosesFile`). No wanted file is lost exactly when each stands in a directory that
  is the first of its normalized path in breadth-first order (`GithubTree.WalkRefinesListing`).
- **An ancestor may be refused what its delegate is allowed**, because only the delegate's own chain is
  compared with the one it claims (`AgentIdentity.AncestorRefused`; `AgentIdentity.AncestorsOwnClaim`
  has the exact condition).
- **Some seeds are dead.** The generator's step never makes a state zero, but a seed's own state is
  zero as soon as its last character equals the hash of the others, and then every draw is zero
  (`Dream.DeadSeedExists`; `Dream.DeadSeed` has the exact condition).
- **Similarity is not symmetric** for embeddings of different lengths: the longer one first gives no
  number (`Dream.SimilarityOfAny`).

## Model

| member | source | states |
|---|---|---|
| `BoundedJson.StringifyExact` | sandboxRunner.js:31-110 | The encoder succeeds exactly on the values that unfold to a finite tree within both limits, and returns the plain unbounded print of that tree, for every shared or cyclic heap |
| `BoundedJson.UnfoldsExactly` | sandboxRunner.js:43-66 | A value unfolds to a finite tree exactly when no path from it comes back to an object on it and none reaches a bigint: sharing is no obstacle |
| `BoundedJson.StringifyErrors` | sandboxRunner.js:22-110 | What each thrown error means: a cycle or bigint error only when there is no finite tree, a byte or depth error only when the tree exceeds that limit |
| `BoundedJson.StringifyUnprintable` | sandboxRunner.js:50-54 | A top-level undefined, function or symbol writes nothing and is no error |
| `BoundedJson.StringifyCauses` | sandboxRunner.js:31-94 | Tree or none, an error tells the truth: a path that comes back to an object on it, one that ends in an object that holds a bigint, or one of more objects than the depth limit |
| `BoundedJson.ByteLimitFades` | sandboxRunner.js:22-29 | From some byte limit on the outcome no longer depends on it and is not the byte error, for every value |
| `BoundedJson.UnfoldsOnce` | sandboxRunner.js:31-94 | A value unfolds to at most one tree, whatever it shares |
| `BoundedJson.EncodeSound` | sandboxRunner.js:31-94 | At any depth, fill and set of open objects: a success has printed a tree of the value, and has stayed within both limits |
| `BoundedJson.EncodeComplete` | sandboxRunner.js:31-94 | At any depth, fill and set of open objects: a tree decides the run, as its print or as the limit it exceeds |
| `BoundedJson.Encoder.AppendChunk` | sandboxRunner.js:22-29 | Appends the chunk and counts its bytes, or stops with nothing appended when the limit would be passed |
| `BoundedJson.Encoder.EncodeValue` | sandboxRunner.js:31-94 | The recursive encoder on mutable parts, bytes and seen: ends as the specification does, the open-object set restored on every path |
| `BoundedJson.Encoder.EncodeArray` | sandboxRunner.js:68-76 | The element loop: brackets, commas and elements as specified, at one depth more |
| `BoundedJson.Encoder.EncodeObject` | sandboxRunner.js:78-90 | The key loop: unprintable members are skipped, the others printed with key, colon and comma |
| `Utf8.BytesCounts` | sandboxRunner.js:22-29 | What is counted against the byte limit is the number of octets of the UTF-8 encoding |
| `BoundedJson.StringifyBounded` | sandboxRunner.js:96-110 | The whole encoder with fresh state equals the specification |
| `JsonText.ParsePrint` | sandboxRunner.js:31-94 | Parsing (sections 2 to 7 of RFC 8259) undoes the plain print on every tree |
| `JsonText.PrintInjective` | sandboxRunner.js:31-94 | Two trees with the same text are the same tree |
| `JsonText.ReadPrinted` | sandboxRunner.js:31-94 | Reading a printed value stops exactly behind it, whatever follows |
| `SandboxResponse.SpliceIsPrint` | sandboxRunner-child.js:78-85 | Splicing printed data into the response text prints the four-member response object |
| `SandboxResponse.SpliceRoundTrip` | sandboxRunner-child.js:78-85 | Parsing the spliced response gives back exactly ok, data, error and meta |
| `SandboxResponse.EmptyDataIsInvalid` | sandboxRunner-child.js:40-53 | A result that prints to nothing leaves a gap in the response, which the parent answers as an invalid response |
| `SandboxResponse.ParentRecoversResult` | sandboxRunner.js:293-314 | For every heap and result the child can print, the parent recovers the tree the value unfolds to, and the child's meta with the parent's own verdict over it |
| `SandboxResponse.ParentReadsRefusal` | sandboxRunner.js:293-306 | A response that is not ok comes back as a failure with its own members and, under `meta`, the child's record, or the parent's where the child's is missing or falsy, with the parent's verdict over it |
| `SandboxResponse.ResponseKinds` | sandboxRunner.js:293-314 | An invalid response is exactly what is not JSON or is null; a success is exactly an object with `ok: true`, and hands on its data |
| `SandboxResponse.ResponseBytes` | sandboxRunner-child.js:66-85 | The response is as long as its payloads and 40 bytes of frame: quotes in the data are not escaped twice |
| `RustFraming.DecodeAppend` | rustGraph.js:115-118 | Decoding a chunk behind held-back octets is decoding their concatenation: the decoder can be fed piece by piece |
| `RustFraming.DecodeEncoded` | rustGraph.js:59-74 | Decoding undoes UTF-8 encoding (sections 3 and 4 of RFC 3629) and holds nothing back |
| `RustFraming.FramingIgnoresCuts` | rustGraph.js:115-136 | For every cut of a stream without overflow, the lines dispatched and the text left over are those of decoding the whole stream and splitting at newline |
| `RustFraming.FramingOfText` | rustGraph.js:115-136 | For an encoded text they are that text's own lines: no character is lost or replaced at a cut |
| `RustFraming.HeldWithinCap` | rustGraph.js:115-136 | On every prefix of a well-formed stream the octets really held are at most the counter plus 3, hence at most the cap plus 3 |
| `RustFraming.OverflowDependsOnCut` | rustGraph.js:115-130 | Some stream overflows as one chunk and not in two |
| `RustFraming.OverflowExactly` | rustGraph.js:115-136 | Every cut of the start of a stream passes if and only if its octets are within the cap; some cut passes if and only if each line, less the octets that a chunk over the newline before it can hide, fits |
| `RustFraming.LeastBelow` | rustGraph.js:115-136 | No cut leaves a smaller count than the least one |
| `RustFraming.LeastReached` | rustGraph.js:115-136 | A cut that stops, behind each newline, where most is held back leaves the least count |
| `RustReplies.RepliesArrive` | rustGraph.js:131-146 | Whatever a process prints, one JSON value a line, and however its output is cut: the lines dispatched are the prints in order and each parses to the value it was |
| `RustReplies.NullLineStopsReply` | rustGraph.js:137-146 | A reply behind a null line in one chunk leaves its request waiting; in a chunk of its own it settles it |
| `JsonText.PrintOneLine` | rustGraph.js:171-193 | A printed value has no line break in it |
| `RustBridge.RunInv` | rustGraph.js:83-202 | In every interleaving of sends, chunks, timeouts, exits, errors and destroy: ids strictly increase, none is settled twice, none is pending and settled, and an answer names its own request |
| `RustBridge.NothingLostBeforeDestroy` | rustGraph.js:150-194 | Until destroy, every request given an id is pending or settled |
| `RustBridge.SettledForGood` | rustGraph.js:137-153 | A settlement is never taken back or changed by a continuation |
| `RustBridge.DestroyForgets` | rustGraph.js:381-396 | A request pending at destroy is settled in no continuation |
| `RustBridge.TimeoutSettlesItsOwn` | rustGraph.js:180-187 | For every reachable bridge: a timeout of a pending request settles it as `request_timeout`; every other request stays as it was; a timeout of one that is not pending changes nothing |
| `RustBridge.EndsFailAll` | rustGraph.js:101-130 | For every reachable bridge: an exit fails exactly the pending requests, each with `process_exited`, in the order of the sends, a chunk that passes the cap each with `buffer_overflow`; then none is pending |
| `RustBridge.RepliesSettleTheirOwn` | rustGraph.js:131-146 | For every reachable bridge: a chunk within the cap answers exactly the pending requests that its lines name before a null line, each once, with the first line that names it and in the order of the lines; the others stay pending |
| `RustBridge.OthersSettleNothing` | rustGraph.js:155-194 | For every reachable bridge: sends, process errors and destroy settle nothing; a send adds the next id exactly if a process is there and no fallback; destroy drops what is pending |
| `RustBridge.SettlingIgnoresCuts` | rustGraph.js:115-146 | What a stream settles does not depend on its cut, as long as a null line comes last |
| `RustBridge.EveryLineReachedExactly` | rustGraph.js:137-146 | The dispatch loop reaches every line of a stream under every cut if and only if no null line has a line after it |
| `RustBridge.RustGraph.StartOnce` | rustGraph.js:83-113 | Starts a process or builds the fallback at most once |
| `RustBridge.RustGraph.SendCommand` | rustGraph.js:155-194 | Gives the next id and waits for it, unless there is no process |
| `RustBridge.RustGraph.OnData` | rustGraph.js:115-148 | A chunk changes the fields and settles the requests exactly as the specification's event |
| `RustBridge.RustGraph.DispatchLines` | rustGraph.js:137-146 | The loop over complete lines, ended early by a null line |
| `RustBridge.RustGraph.RejectAllPending` | rustGraph.js:150-153 | Fails every pending request once, in order, and leaves none |
| `RustBridge.RustGraph.OnTimeout` | rustGraph.js:180-187 | A timeout settles its own request, as `request_timeout` and only while it is pending, takes it out of the pending ones, and settles no other |
| `RustBridge.RustGraph.OnExit` | rustGraph.js:101-101 | Fails every pending request as `process_exited`, in order, and forgets the process |
| `RustBridge.RustGraph.OnProcessError` | rustGraph.js:102-102 | Builds the fallback and settles nothing |
| `RustBridge.RustGraph.DestroyBridge` | rustGraph.js:381-396 | Clears the pending requests without settling them |
| `Authority.Safety` | bin/huqan-authority.js:181-349 | Over every interleaving of decisions, withdrawals, applies, crashes and recoveries: the ledger is one of five shapes (so at most one consumption, never with a withdrawal or rejection), each apply starts the action at most once and only after its own preflight, an approval and a consumption, `executed` is recorded only after an execution, and a row is executed at most once by all applies together |
| `Authority.OutcomeExact` | bin/huqan-authority.js:213-349 | Over every interleaving: an `executed` outcome or an approved row needs a run that succeeded (for a row: was kept) or the journal's word; an outcome has one recorder, and if that process ran the action, the outcome is `executed` exactly when its own run succeeded |
| `Authority.UndisturbedApply` | bin/huqan-authority.js:213-328 | One undisturbed apply of an open approval consumes it unless it is consumed, runs the action once, and records `executed` exactly when the action ended well, else `failed`, unless an outcome is known; a row ends approved, cancelled or failed as the action did, and stays claimed if it threw |
| `Authority.UndisturbedRejection` | bin/huqan-authority.js:273-298 | An undisturbed apply of a rejected row closes it as rejected, and consumes, runs and records nothing |
| `Authority.ReapplyRow` | bin/huqan-authority.js:274-286 | An undisturbed apply over a row that is no longer pending runs nothing and leaves the row; over an approved one it writes the outcome `executed` where it is missing |
| `Authority.ReapplyOperation` | bin/huqan-authority.js:217-225 | An undisturbed apply of an operation whose outcome is known changes nothing |
| `Authority.FinalStays` | lib/mcp-approval-learn-execution.js:144-280 | In every run a closed row stays as it was closed |
| `Authority.FoundTaken` | lib/mcp-approval-learn-execution.js:144-167 | An apply that finds its row taken when it comes to act claims nothing, and records `executed` if the row is approved by then, else `failed` |
| `Authority.StartRefused` | lib/mcp-approval-learn-execution.js:168-171 | A claimed action that may not start runs nothing; its row is rejected or failed, and its outcome is `failed` |
| `Authority.LateFinish` | lib/mcp-approval-learn-execution.js:190-213 | An action that ends after its row was closed leaves the row, and its outcome is `failed` however it ended |
| `Authority.ClosedFromOutside` | lib/mcp-approval-store.js:73-123 | Recovery closes a claimed row only, as approved exactly on the word of the journal; an emergency stop cancels a pending row only |
| `Authority.LateApply` | bin/huqan-authority.js:213-328 | An apply that starts now can still execute in some continuation if and only if the decision is not rejected or withdrawn and, for an operation, no outcome is recorded, for a row, it is still pending; otherwise it executes nothing in any continuation |
| `Authority.OperationTwice` | bin/huqan-authority.js:223-245 | Two applies can both execute one operation: a crash between execution and outcome |
| `Authority.RowAfterOutcome` | bin/huqan-authority.js:286-314 | A row whose refused decision was recorded as failed can be executed by a later apply |
| `Authority.NothingUnwritten` | lib/authority/authority-service.js:245-351 | Ledger and history of executions only grow, and a row never becomes pending again |
| `Authority.WritesShaped` | lib/authority/authority-service.js:168-351 | Deciding, withdrawing, consuming and recording keep the ledger in one of its five shapes |
| `Authority.WritesRead` | lib/authority/approval-view.js:12-51 | What each write does to the record that is folded from the ledger |
| `Authority.StepInv` | bin/huqan-authority.js:213-349 | The protocol invariant is kept by every single event |
| `Authority.World.ConsumeOnce` | bin/huqan-authority.js:181-186 | Uses the consumption that came with the decision, else consumes; without an answer nothing is held |
| `Authority.World.RecordOutcome` | lib/authority/authority-service.js:318-351 | Records an outcome at most once, and only for a consumed approval |
| `Authority.World.ShowOnce` | bin/huqan-authority.js:217-230 | Looks at the approval before anything is spent: goes on, records a known `executed` again, or ends |
| `Authority.World.Execute` | bin/huqan-authority.js:233-241 | Runs the operation, and reports an execution exactly if it ended well |
| `Authority.World.CheckRow` | bin/huqan-authority.js:274-286 | The row's preflight: goes on with a pending row, records an approved one again, or ends |
| `Authority.World.Claim` | lib/mcp-approval-learn-execution.js:144-167 | Claims a pending row, or ends with the outcome that the row has |
| `Authority.World.Start` | lib/mcp-approval-learn-execution.js:168-171 | Starts the claimed action, or closes its row |
| `Authority.World.Finish` | lib/mcp-approval-learn-execution.js:179-280 | The row takes the action's ending if it is still claimed |
| `Authority.World.RejectRow` | bin/huqan-authority.js:293-298 | Closes a pending row as rejected |
| `Authority.World.RunOperational` | bin/huqan-authority.js:213-245 | The operational apply is the run of its steps, and reports an execution exactly if its own action ran and ended well |
| `Authority.World.Carry` | lib/mcp-approval-learn-execution.js:144-280 | Claim, run and finalize of a local row, with every refusal and ending; reports an execution exactly if its own action ended well, or cancelled, on a row still claimed |
| `Authority.World.ApplyRow` | bin/huqan-authority.js:273-327 | The row apply from its preflight on; reports an execution exactly if its own run was good |
| `Authority.World.Apply` | bin/huqan-authority.js:247-328 | One apply from fetch to outcome is the run of its steps; it reports an execution exactly if its own action ran and was good |
| `AgentLoop.StepsConserved` | agent.v3.js:244-351 | Every step queued or added is still queued, recorded, replaced by a repair or discarded by a blocked Dream experiment; every step executed is recorded or replaced, or is the uncertain one back at the head |
| `AgentLoop.NothingAfterProposal` | agent.v3.js:251-283 | After a repair is proposed no further step is executed in that run: the replaced step is the last one executed and its repair heads the queue |
| `AgentLoop.ExitExplained` | lib/agent-exit-reasons.js:61-96 | Every exit of the loop has a reason that says what happened: never incomplete, end of plan exactly on completion and only with an empty queue, each ceiling only when it was reached |
| `AgentLoop.ReasonExact` | lib/agent-exit-reasons.js:80-96 | Every finished run has exactly the reason that its turns give it, and the status of that reason: a pause or block comes from the last turn, a failed last report blocks a run out of work, and a ceiling ends only a run that nothing else did |
| `AgentLoop.EndOfPlanExact` | lib/agent-v3-status-methods.js:25-33 | End of plan if and only if no work is left, no report or Dream experiment blocked the last turn, and the last recorded report did not fail |
| `AgentLoop.RefusedCheckpointExact` | agent.v3.js:338-342 | The run ends as a storage failure if and only if its last turn recorded a step that did not block and its checkpoint was refused |
| `AgentLoop.TurnExecutes` | agent.v3.js:244-275 | A turn executes the first step of the scheduler's order (of the queue, while a repair waits or the order is no permutation), or none when the time is up or that step is the waiting repair |
| `AgentLoop.QueueAfter` | agent.v3.js:290-332 | What a recorded step leaves in the queue: the experiment's next step, a Dream step after two reports without progress, or the follow-up, in this precedence and below the step ceiling |
| `AgentLoop.IterationsSpent` | agent.v3.js:244-351 | Iterations are spent one by one up to the ceiling, each on a recorded or replaced step: with it the loop ends whatever repairs and follow-ups do |
| `AgentLoop.Turns` | agent.v3.js:244-351 | Each turn that does not end the loop uses up exactly one iteration |
| `AgentLoop.CeilingHolds` | lib/bounded-step-history.js:136-165 | A step ceiling of at most 32 is never passed |
| `AgentLoop.StepCeiling` | agent.v3.js:244-244 | The step ceiling holds for every fresh run if and only if it is at most 32 |
| `AgentLoop.AgentRun.QueueFollowUp` | lib/agent-step-progression.js:113-129 | Queues a forced Dream, or a follow-up below the ceiling, or nothing |
| `AgentLoop.AgentRun.ProcessDream` | agent.v3.js:302-321 | Queues the experiment's next step, or empties the queue and blocks the run |
| `AgentLoop.AgentRun.RecordStep` | agent.v3.js:284-350 | Records the report, advances progress, queues what follows and stops for a block, a refused checkpoint or a stall |
| `AgentLoop.AgentRun.Turn` | agent.v3.js:244-351 | One turn of the loop equals the specification's turn |
| `AgentLoop.AgentRun.RunLoop` | agent.v3.js:244-353 | The loop and its finalization equal the specification, and a run that ends has the reason that its turns give it and the status of that reason |
| `AgentLoop.AgentRun.Classify` | lib/agent-exit-reasons.js:80-96 | The reason as a function of the final state |
| `OrdinaryAcceptance.VerdictExact` | lib/agent-coder-project-task.js:199-254 | Confirmed at i exactly when every earlier run is a restored failure, run i succeeded and no later run has events; contradiction exactly when all are restored failures |
| `OrdinaryAcceptance.ChainExact` | lib/agent-coder-project-task.js:209-221 | The chain checks hold exactly when the chain, less at most one routing event wherever it stands, is the seven lifecycle events in order, each caused by the one before |
| `OrdinaryAcceptance.RoutingAnywhere` | lib/agent-coder-project-task.js:199-254 | For every task and candidate, a verified run is credited with its routing event at each of the eight places, before the start and after the end included |
| `OrdinaryAcceptance.JudgedStart` | lib/agent-coder-project-task.js:222-231 | A counted run was begun for the task under the header that the ticket is asked with, proposed exactly the candidate's edit, was allowed by policy, and changed the candidate's file only |
| `OrdinaryAcceptance.JudgedExact` | lib/agent-coder-project-task.js:206-247 | A run counts as a success, or as a restored failure, if and only if it is intact and sealed, its life tried just the candidate, and shows that outcome |
| `OrdinaryAcceptance.RunIdsDiffer` | lib/agent-coder-project-task.js:204-204 | The candidates' runs have different names, numbered from 1 |
| `OrdinaryAcceptance.JudgedRun` | lib/agent-coder-project-task.js:206-221 | A run that counts is intact, sealed and has that life |
| `OrdinaryAcceptance.JudgedOutcome` | lib/agent-coder-project-task.js:229-247 | A success passed the task's own test, is kept, fully proved and verified in the manifest; a failure failed it, is not kept, rolled back, and restored every change |
| `OrdinaryAcceptance.ReadAcceptance` | lib/agent-coder-project-task.js:199-254 | The reader's loop equals the verdict |
| `Observation.Kept` | lib/agent-coder-project-task.js:91-138 | Over every sequence of calls the ticket stays, a prediction that is not null stays, and after the start nothing changes the prediction |
| `Observation.OneTicket` | lib/agent-coder-project-task.js:91-116 | At most one ticket is ever handed out |
| `Observation.OneStart` | lib/agent-coder-project-task.js:117-122 | At most one start succeeds |
| `Observation.ReadGuarded` | lib/agent-coder-project-task.js:134-146 | A read answers only for a result captured after the one start, under the same ticket and decision, and is judged by the prediction bound at the start |
| `Observation.ReadVouches` | lib/agent-coder-project-task.js:165-193 | A confirmed read of an ordinary observation means: the run succeeded, after every earlier one was undone, and each of them carries the very header that was bound at the one start |
| `Observation.DisabledForGood` | lib/agent-coder-project-task.js:117-122 | After a refused start no call does anything any more, except reading what was captured before |
| `Observation.PreparedExact` | lib/agent-coder-project-task.js:91-116 | Over every sequence of calls: a ticket is handed out exactly if nothing was refused before, the arguments are valid and, the first time, the journals are empty, later the key is the first one's; and it is one ticket |
| `Observation.BoundExact` | lib/agent-coder-project-task.js:123-133 | A prediction is bound exactly if nothing was refused or started, the call names the ticket, its hash is null or well formed, and a header bound before had no hash or is the same |
| `Observation.StartedExact` | lib/agent-coder-project-task.js:117-122 | A start is granted exactly if nothing was refused, a ticket was handed out, none was granted before and the journals are empty |
| `Observation.ReadExact` | lib/agent-coder-project-task.js:139-146 | A read answers exactly if its result was captured after the start and is not doubtful and the call names the ticket; then it is the reader's verdict under the ticket and the header bound last |
| `Observation.OrdinaryObservation.PrepareTicket` | lib/agent-coder-project-task.js:91-116 | Prepares the ticket once and binds a null prediction, or disables the observation over a used journal |
| `Observation.OrdinaryObservation.BindPrediction` | lib/agent-coder-project-task.js:123-133 | Binds before the start, under the ticket's own ids, and replaces only a null prediction |
| `Observation.OrdinaryObservation.StartRun` | lib/agent-coder-project-task.js:117-122 | Starts once over empty journals, else disables |
| `Observation.OrdinaryObservation.CaptureResult` | lib/agent-coder-project-task.js:134-138 | Captures a settled result under the ticket, after the start |
| `Observation.OrdinaryObservation.ReadResult` | lib/agent-coder-project-task.js:139-146 | Answers what the journal reader says, for a captured result |
| `GraphSave.EverySaveStores` | graph.js:106-161 | Over every run of mutations, loads and saves without a failed save, from an empty store or any state that keeps the invariant, each save, full or delta and whatever the checkpoint threshold, stores every record |
| `GraphSave.StoresAfterFailures` | graph.js:106-161 | Over every run, failed saves included: from the last load or committed full save on, while no save fails, each save stores every record, and mirrors memory exactly when no row is an orphan and no creation time has changed |
| `GraphSave.EverySaveMirrors` | graph.js:106-168 | Over every run without a failed save that neither drops edges without their rows nor changes a stored creation time, each save leaves stored nodes and edges equal to memory |
| `GraphSave.MirrorsAfterFailures` | graph.js:106-168 | Over every such run with failed saves (before a load: over every run): from the last load or committed full save on, while no save fails, each save leaves stored equal to memory |
| `GraphSave.SaveMirrors` | graph.js:106-161 | After a save, stored equals memory if and only if there was no row without a record and no changed creation time |
| `GraphSave.SaveStores` | graph.js:131-136 | Whichever mode is chosen, a committed save stores every record and leaves nothing marked |
| `GraphSave.EventInv` | lib/graph-store-adapters.js:24-240 | Every mutation, load and committed save keeps: the next save is full, or every unmarked record agrees with its row |
| `GraphSave.LoadGood` | graph.js:157-168 | A load that does not fail leaves a state from which every save stores and mirrors |
| `GraphSave.LoadExact` | lib/graph-persistence-runtime.js:160-247 | A load's memory is exactly the rows or, without any, exactly the mirror; stored and memory agree afterwards if and only if there were rows, the mirror's nodes were saved, or the mirror was empty |
| `GraphSave.SaveThenLoad` | graph.js:106-168 | A committed save and a load give back the saved memory if and only if there was no row without a record and no changed creation time |
| `GraphSave.SavedComesBack` | graph.js:106-168 | Over every calm run a load brings back the nodes and edges that the last save saw, and stored equals memory again |
| `GraphSave.FullExactly` | graph.js:130-143 | Without a configured interval a save is full exactly if forced, or with at least 1024 marks that are at least half the rows persisted last |
| `GraphSave.DeltaTouchesMarked` | lib/graph-persistence-runtime.js:131-144 | A save that is not full changes no row but those of marked records |
| `GraphSave.NodesAfter` | lib/graph-node-write.js:41-75 | The node mutations in memory: the node gets the new columns and keeps its creation time, or goes with its edges; nothing else changes |
| `GraphSave.NodePutRow` | lib/graph-node-write.js:23-46 | Adding a node writes its row at once: an insert the record, an update all but the creation time |
| `GraphSave.NodeChangeRow` | lib/graph-node-delete.js:6-17 | A touch writes the body, a removal takes the row, a tag is in memory only |
| `GraphSave.EdgePut` | lib/graph-edge-write.js:29-106 | Adding an edge: a known one gets the new weight and body and keeps a creation time that it has, a new one is as given; the others stay |
| `GraphSave.EdgePutRow` | lib/graph-edge-write.js:70-105 | Adding an edge writes weight and body at once, the creation time with the insert only; a known edge without a row gets none |
| `GraphSave.EdgeChanged` | lib/graph-edge-mutations.js:86-190 | A downgrade sets weight and body, a stamp the body and a creation time that is given; the others stay |
| `GraphSave.EdgeChangeRow` | lib/graph-edge-mutations.js:86-190 | A downgrade writes weight and body at once, a stamp nothing |
| `GraphSave.EdgesDropped` | lib/graph-prune.js:5-16 | A prune takes exactly the edges of one workspace below the threshold, a consolidation those it did not keep |
| `GraphSave.FullSaveRestores` | graph.js:145-151 | Whatever failed before, a committed full save stores every record again |
| `GraphSave.FailedSaveForgets` | graph.js:145-151 | A save that fails clears the delta all the same, and the next one does not store it |
| `GraphSave.ConsolidatedEdgesReturn` | lib/graph-consolidate-edges.js:52-61 | Edges dropped by consolidation stay stored and come back with the next load |
| `GraphSave.StampedTimeNotStored` | lib/graph-edge-mutations.js:86-119 | A creation time stamped after the insert is in memory only |
| `GraphSave.WeightsRun` | lib/graph-edge-write.js:29-75 | In every run, failures included, memory and row never differ on a weight, and a prune takes an edge from memory exactly when it takes its row |
| `GraphSave.WriteRows` | lib/graph-persistence-runtime.js:118-144 | Upserting records one by one in any order equals upserting them all |
| `GraphSave.GraphStore.AddNode` | lib/graph-node-write.js:14-79 | Writes the row, memory and the mark as specified |
| `GraphSave.GraphStore.RemoveNode` | lib/graph-node-delete.js:6-17 | Removes the node, its edges and both kinds of rows |
| `GraphSave.GraphStore.AddEdge` | lib/graph-edge-write.js:12-106 | Updates or appends the edge, its row and its mark |
| `GraphSave.GraphStore.PruneEdges` | lib/graph-prune.js:5-16 | Removes the weak edges of a workspace and, if there are any, the weak rows |
| `GraphSave.GraphStore.SaveAll` | graph.js:106-155 | The save: mode once, rows by mode, tracker cleared also on failure; stores everything, and mirrors memory from a good state |
| `GraphSave.GraphStore.Consolidate` | lib/graph-consolidate-edges.js:52-61 | Replaces the edges and saves |
| `GraphSave.GraphStore.ResetMemory` | graph.js:157-168 | New memory of fresh objects, nothing marked, and the next save full |
| `GraphSave.GraphStore.LoadAll` | lib/graph-persistence-runtime.js:160-247 | Memory is then exactly the rows, or the mirror, adopted with a full save of its nodes, when there are none |
| `EdgeIndex.BucketExact` | graph.js:172-182 | A bucket equals, in order, the edges of its workspace at its node if and only if no edge of another workspace has the same key |
| `EdgeIndex.ReadExact` | lib/graph-edge-read.js:45-57 | What reads answer equals, in order, the edges of the workspace at the node, key collisions or not |
| `EdgeIndex.FindExact` | lib/graph-store-adapters.js:172-178 | The look-up before an append finds an existing edge whenever the list has one |
| `EdgeIndex.KeysCollide` | lib/graph-record-utils-nodes.js:9-12 | Two workspaces can share a key |
| `EdgeIndex.Indexes.IndexEdge` | graph.js:172-182 | Adds the edge to both buckets and its workspace's counter |
| `EdgeIndex.Indexes.Append` | lib/graph-store-adapters.js:183-190 | Appending keeps every bucket and counter equal to the list's |
| `EdgeIndex.Indexes.Rebuild` | graph.js:251-256 | A rebuild makes every bucket and counter equal to the list's |
| `EdgeIndex.Indexes.Replace` | graph.js:251-256 | So does every removal or load |
| `EdgeIndex.Indexes.GetEdges` | lib/graph-edge-read.js:45-57 | Answers exactly the edges at the node |
| `EdgeIndex.Indexes.EdgeCount` | lib/graph-count-read.js:15-20 | Answers the number of the workspace's edges |
| `EdgeIndex.Indexes.FindExisting` | lib/graph-store-adapters.js:172-178 | Finds an edge with the four parts of the key if and only if there is one |
| `GithubTree.WalkRefinesListing` | adapters/github-adapter.js:80-94 | Walk and recursive listing choose the same files, each once, if and only if every wanted file stands in an owner of its path; then they also refuse alike for too many files; no request is sent beyond the limit |
| `GithubTree.ChosenExact` | adapters/github-adapter.js:80-94 | Each file is chosen once; after the recursive listing exactly the wanted files are, after a walk if and only if every one of them stands in an owner |
| `GithubTree.WalkFinds` | adapters/github-tree.js:87-123 | A walk that completes lists, of the wanted files, exactly those of the repository if and only if every one of them stands in an owner of its path |
| `GithubTree.WalkOwners` | adapters/github-tree.js:87-123 | From any turn of the walk on: it reads the owners, the first directories in breadth-first order of their normalized paths, each once, and ends as WalkExplained says |
| `GithubTree.WalkExplained` | adapters/github-tree.js:87-123 | A walk lists exactly the files of the owners, read in breadth-first order with one request each, exactly if none is truncated, none has a wanted subdirectory without a sha, and the limits last; else it fails at the first owner in the way, with its error |
| `GithubTree.WalkOwned` | adapters/github-tree.js:87-123 | A walk that completes lists exactly the files that stand in an owner of their path |
| `GithubTree.ChosenExplained` | adapters/github-tree.js:97-117 | Files are chosen from a walk only if no owner is truncated or lacks a sha it needs; and every failure is true: the limit is exceeded, such an owner exists, or there are too many wanted files |
| `GithubTree.WantedExact` | adapters/github-adapter-utils.js:33-47 | Which files are wanted: markdown, those asked for up to case, and without paths those at the top or below `.github/` |
| `GithubTree.AgreeingUnshadowed` | adapters/github-tree.js:87-123 | Where directories with one normalized path hold the same wanted files, every wanted file stands in an owner |
| `GithubTree.PruneSafe` | adapters/github-tree.js:66-72 | A wanted file below a directory keeps the directory in the walk, for explicit paths and for the default filter |
| `GithubTree.ListingIsFiles` | adapters/github-tree.js:52-57 | Normalizing whole paths at the end or name by name on the way gives the same paths |
| `GithubTree.WalkRequests` | adapters/github-tree.js:29-33 | The walk sends at most the allowed requests, and at most one a directory |
| `GithubTree.WalkCompletes` | adapters/github-tree.js:87-123 | With limits that cover it, the walk of a repository without truncated or unnamed subtrees completes |
| `GithubTree.PlainRepo` | adapters/github-tree.js:87-110 | In repositories whose directory names hold no backslash a path names one directory, so for every filter every wanted file stands in an owner |
| `GithubTree.BackslashLosesFile` | adapters/github-tree.js:93-110 | A backslash in a name can make the walk lose a wanted file |
| `GithubTree.Meter.Charge` | adapters/github-tree.js:29-49 | Counts the request before it is made and the entries after, and refuses at either limit |
| `GithubTree.QueueChildren` | adapters/github-tree.js:105-119 | The loop over the entries queues exactly the subdirectories that may hold a wanted path, or reports a missing sha |
| `GithubTree.WalkTree` | adapters/github-tree.js:87-123 | The queue loop equals the walk, so it lists the files of all owners, or fails at the first that is truncated, lacks a sha or passes a limit |
| `GithubTree.ChooseFiles` | adapters/github-adapter.js:71-95 | The files that are read are each read once, and are exactly the wanted ones, unless a walk had to find them and some stand in no owner; never when an owner is truncated or lacks a sha; and a failure names its cause |
| `RateLimit.AcceptedPerInterval` | requestGuards-rate-limit.js:29-51 | With a clock that never runs backwards and no eviction, an interval of one window holds at most 2 * max - 1 accepted requests of a key, hence at most 2 * max |
| `RateLimit.BoundIsReached` | requestGuards-rate-limit.js:29-51 | For every limit and window some run reaches that bound |
| `RateLimit.RequestExact` | requestGuards-rate-limit.js:29-51 | A request is accepted exactly if its running window has some left or, without one, the table has room once expired rows are gone; then it opens a window |
| `RateLimit.EmptyKeyRefused` | requestGuards-rate-limit.js:36-36 | A request without a key is never accepted |
| `RateLimit.TableWithinCap` | requestGuards-rate-limit.js:38-48 | Over every run of requests, sweeps and evictions whose requests carry no larger cap, the table stays within it and no key has two rows |
| `RateLimit.EnforceKeepsLargest` | requestGuards-rate-limit.js:7-27 | Cap enforcement keeps as many unexpired rows as fit, loses no other, and evicts none that is larger than a kept one |
| `RateLimit.EvictsSoonest` | requestGuards-rate-limit.js:17-27 | What is evicted expires no later than anything kept and, at one expiry, has counted no more requests |
| `RateLimit.RateLimiter.ClearExpired` | requestGuards-rate-limit.js:53-57 | Removes exactly the expired rows, in place |
| `RateLimit.RateLimiter.CheckRequest` | requestGuards-rate-limit.js:29-51 | One request changes the table and answers as specified |
| `RateLimit.RateLimiter.EnforceCap` | requestGuards-rate-limit.js:17-27 | The eviction loop deletes exactly the smallest rows |
| `AgentIdentity.AllowExact` | lib/agent-identity-runtime.js:90-125 | An action is allowed exactly when the claim names a vouched identity, the identity permits it now, and its chain is itself or its own recorded delegation |
| `AgentIdentity.BlockIsTrue` | lib/agent-identity-runtime.js:90-125 | A block tells the truth: the reason it gives holds of the call; and no snapshot ever answers that an identity is revoked or unverified |
| `AgentIdentity.VouchedRecords` | lib/agent-identity-runtime.js:10-45 | No record of a snapshot is revoked, unverified or out of shape, and its lists have at most 64 different items |
| `AgentIdentity.AllowedByEveryAncestor` | lib/agent-identity-runtime-resolve.js:50-84 | A delegated agent that is allowed has a path of distinct agents from an authority-owned root by parent links, each of them permitted that capability, tool, connector, risk and time, and none outlives the one before |
| `AgentIdentity.ChainExact` | lib/agent-identity-runtime-resolve.js:50-84 | The chain check accepts exactly the chains of live records from a root to the leaf in which each narrows the one before |
| `AgentIdentity.OneDelegation` | lib/agent-identity-runtime-resolve.js:50-84 | An agent has at most one such chain |
| `AgentIdentity.AncestorsOwnClaim` | lib/agent-identity-runtime.js:48-125 | An ancestor acting for itself is allowed what its delegate is if and only if its own recorded chain is the delegate's chain down to it |
| `AgentIdentity.AncestorRefused` | lib/agent-identity-runtime-resolve.js:8-84 | In a family of three, the leaf is allowed and the agent between it and the root is refused |
| `AgentIdentity.TakeSnapshot` | lib/agent-identity-runtime.js:10-45 | A snapshot is taken exactly of well-formed entries with distinct references and agents, and holds exactly those |
| `AgentIdentity.CheckChain` | lib/agent-identity-runtime-resolve.js:50-84 | The loop over the chain equals that check |
| `YamlInspect.InspectExact` | adapters/yaml-adapter.js:49-71 | The check accepts exactly the graphs in which every object is reached by one path only, no path is too deep and not too many objects are reached; it has then met the reachable set and counted its size |
| `YamlInspect.ErrorIsTrue` | adapters/yaml-adapter.js:49-64 | Each error names a real cause: an object on two paths, a path too deep, too many objects |
| `YamlInspect.InspectAllExact` | adapters/yaml-adapter.js:65-70 | The same for the members of an object, from any state of the traversal |
| `YamlInspect.Inspector.Visit` | adapters/yaml-adapter.js:49-71 | The recursive traversal with its shared state equals the check and terminates on every graph |
| `YamlInspect.InspectDocument` | adapters/yaml-adapter.js:92-94 | The check as parsing makes it |
| `FailureCache.KeyTextExact` | llmAdapter.js:68-72 | Two requests are hashed as the same text exactly when all five fields agree, prompt and system after trimming |
| `FailureCache.PayloadInjective` | llmAdapter.js:70-71 | The length-prefixed join is injective on lists of parts, whatever they contain |
| `FailureCache.CacheSound` | llmAdapter.js:81-101 | Under a clock that never runs backwards the cache stays within its cap, holds one entry a key and is ordered by expiry |
| `FailureCache.EvictsEarliest` | llmAdapter.js:85-89 | What the cap evicts expires no later than anything that stays |
| `FailureCache.LookupExact` | llmAdapter.js:103-112 | A failure is answered only if it is the key's last, unrecovered and within its cooldown; and always then, while no more keys than the cap are in use |
| `FailureCache.Failures.Prune` | llmAdapter.js:81-90 | Sweep and eviction leave the newest unexpired entries, fewer than the cap |
| `FailureCache.Failures.CacheFailure` | llmAdapter.js:92-102 | A failure moves its key to the back |
| `FailureCache.Failures.GetCached` | llmAdapter.js:103-112 | Answers an unexpired failure and drops an expired one |
| `FailureCache.Failures.WithRetry` | llmAdapter.js:124-152 | At most maxRetries + 1 attempts, all but the last retryable failures; the last one is a success, not retryable, or the last allowed; it never runs past the loop; whatever other calls do to the cache meanwhile, it records its own end once |
| `FailureCache.WaitedSum` | llmAdapter.js:124-152 | The waits before attempt n add up to the delay times 1 + ... + n |
| `Dream.CauchySchwarz` | dream.js:76-88 | The squared dot product is at most the product of the squared lengths |
| `Dream.SimilarityBounded` | dream.js:76-88 | The similarity lies between -1 and 1 and is symmetric |
| `Dream.SimilarityIsCosine` | dream.js:76-88 | A similarity times the two lengths is the dot product, and a vector that is not zero has similarity 1 with itself |
| `Dream.SimilarityOfAny` | dream.js:76-88 | A similarity that is a number lies between -1 and 1; it is symmetric if and only if the embeddings are of one length or one is missing |
| `Dream.NodeSimilarity` | dream.js:76-88 | The one-pass loop computes it for embeddings of any lengths: 0 unless both exist, no number when the first is longer |
| `Dream.DeltasBounded` | dream.js:229-232 | With nonnegative weights each delta is its share of one tenth, and together they are one tenth, or nothing when no candidate scores |
| `Dream.SharesCompare` | dream.js:215-232 | At one weight a verified candidate gets twice the share of an unverified one; without an edge a verified one counts as one of weight 0.3 and an unverified one gets nothing |
| `Dream.WeightDeltas` | dream.js:217-232 | The two loops compute those deltas |
| `Words.XorAssoc` | dream.js:106-113 | Exclusive or on the numbers that bits stand for is associative |
| `Words.Inverses` | dream.js:107-112 | Multiplying by the odd constant modulo 2^32 is undone by multiplying by its inverse |
| `Words.Mix13Inverses` | dream.js:111-111 | The exclusive or with the shift by 13 is undone by two more shifts, and the other way round |
| `Words.Mix16Twice` | dream.js:113-113 | The exclusive or with the shift by 16 undoes itself |
| `Dream.NextBijective` | dream.js:110-113 | The generator's step is a bijection of the 32-bit states |
| `Dream.StatesApart` | dream.js:104-116 | Different states stay different, and only the zero state becomes zero |
| `Dream.PureCycle` | dream.js:104-116 | The states form a pure cycle: a repeated state means that the first one came back |
| `Dream.ZeroDraws` | dream.js:104-116 | A draw is zero exactly when the seed's own state is |
| `Dream.DeadSeed` | dream.js:105-109 | A seed is dead, all its draws zero, exactly when its last character is the hash of the rest; no such seed is refused |
| `Dream.DeadSeedExists` | dream.js:105-109 | There is such a seed of four characters: every draw from it is zero |
| `Dream.SeededRandom.Draw` | dream.js:110-115 | A draw steps the state, can be undone, and lies in [0, 1) |
| `Dream.SeededRandom.constructor` | dream.js:105-109 | The loop over the seed computes its hash |

## Left out

- GithubTree: `toLowerCase` is a parameter that treats the two sides of a slash separately; reading the files' bytes (`readBoundedText`) and resolving the commit are not modelled.
- RateLimit.AcceptedPerInterval: says nothing about runs in which cap enforcement evicts a live counter, since a fresh counter then starts.
- RustBridge.NothingLostBeforeDestroy: stops at `destroy`, which clears the pending requests without answering them (`RustBridge.DestroyForgets`).
- SandboxResponse: a response or meta that is a bare string is spread character by character, where the code spreads UTF-16 units; a number that only underflows to zero counts as not zero. Both can only come from a child that is not this one.
- RustFraming.FramingOfText: is about well-formed UTF-8; for other byte streams the model keeps the decoder's octets but not its replacement characters.
- RustBridge: ref/unref of the process, its stderr and the fallback graph. The partial line of a process that died stays in the buffer, as in the code.
- BoundedJson: getters, proxies, `toJSON` and lone surrogates; a number is the token that `String(value)` prints, or no number at all.
- Authority: several approvals at once, the quorum of votes, and all cryptography: signatures, proofs, hashes and expiry only ever refuse, and are one Boolean a step. The `sync`, `request`, `status` and `anchor` commands. `Authority.World.Apply` is one apply alone; the interleavings are in `Authority.Run`.
- AgentLoop: what a step, a repair plan, a follow-up or the Dream experiment does inside; they are the environment's answers. The budget gate before the loop, and the run record after it.
- OrdinaryAcceptance: hashing of journals and payload fields that the reader does not look at; the project variant of the observation, which reads one run instead of up to eight.
- Observation: results are ids; whether one looks uncertain is part of each call.
- GraphSave: the JSON mirror file, candidate claims, audit events, embeddings and the rollback of a mutation whose statement fails. A node is keyed by workspace and id; EdgeIndex shows when storage keys coincide. The choice of the edges that consolidation drops is an argument.
- GraphSave.EverySaveMirrors: is about runs without the two kinds of events that break it; `GraphSave.StoresAfterFailures` has the exact condition for every save of every run.
- EdgeIndex: the label and vector indexes; paging and cloning of read results; trimming of workspace names.
- AgentIdentity: exact key sets, text shapes and the canonical hash, which are parameters of the model.
- YamlInspect: the YAML parser and the byte limits on entries.
- FailureCache: the digest of the key text, error texts and the transport; whether a failure may be retried is the attempt's answer.
- Dream: floating-point rounding (numbers are exact reals), random walks, and the sorting of the amplified candidates.
