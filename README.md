# Document workflow engine, modelled in Dafny

This project models the core of a document-approval system. Documents (invoices, contracts) are
submitted, and a BPMN 2.0 process graph decides what happens next. Service tasks run registered
handlers, user tasks open approval tasks for a manager, and an end event publishes the document.
The project verifies that the model keeps the promises the services make.

The modules follow the layers of the system:

- `Entities`: the domain records (`Document`, `WorkflowDefinition`, `WorkflowInstance`,
  `WorkflowStep`, `ApprovalTask`, `ApprovalPolicy`) and the status strings the services write.
  - Ids are `Guid = nat`, handed out by a counter `nextId` in place of `Guid.NewGuid`.
  - Times are whole seconds (`Time = nat`). The current instant is always a parameter `now`.
- `Store`: the unit of work.
  - `State` holds every table as a sequence in storage order.
  - The class `UnitOfWork` holds the tracked tables, plus `saved`, the database contents as of
    the last `SaveChangesAsync`.
  - `SaveChanges` copies the tracked tables into `saved`. `DiscardChanges` restores them, which
    stands for an exception ending the request scope.
- `Seqs` and `Repositories`: the LINQ operators (`Where`, the stable `OrderBy` and
  `OrderByDescending`, `FirstOrDefault`) and the repository queries, as functions over
  sequences.
- `Bpmn`: the parsed BPMN document and the graph resolver `FindNextStepAsync`.
  - A document is its elements in document order: namespace, local name, depth, and the
    `id`, `name`, `sourceRef` and `targetRef` attributes.
  - `Malformed` stands for the exception of `XDocument.Parse`.
- `Activities`: the two service-task handlers (validate, publish) and the activity registry,
  with exact lookup first and then a case-insensitive substring match.
- `Engine`: `StartWorkflowAsync` and `ExecuteNextStepAsync`.
  - The specification functions `StartInstance` and `Advance` work over a `State`. The methods
    of the class `WorkflowEngine` are proved to produce exactly what those functions describe.
  - A service task re-enters the engine. Here the recursion is
    `Advance → EnterNode → EnterServiceTask → Reenter`, with a `fuel` count of the nested
    re-entries still allowed. Running out of fuel is the `RecursionLimit` failure, which stands
    for the stack overflow that unbounded recursion causes in the original.
  - `Extends` states what any advance may change, and it holds however long the chain of
    service tasks runs.
- `Approvals`, `Documents`, `Definitions`: the approval decision, document creation and
  submission, and the definition services (validation, versioned save, deletion, listing, the
  structure query). Each is a service class whose methods are proved against a specification
  function.
- `SeededGraph` and `SeededRun`: the database `DataSeeder.cs` installs, with its
  "Simple Document Approval" BPMN as an element list, and one complete run over it.
  - Submitting the office-supplies invoice validates it and stops at the manager's approval.
  - Approving it publishes the invoice and completes the instance.
  - Rejecting it leaves the instance waiting at the approval task.

The model keeps these behaviours of the code, although its design intends otherwise:

- A node of any other kind (a gateway, say) only gets its step record. `CurrentStepId` is not
  moved, so the instance cannot leave such a node (WorkflowEngineService.cs:121-139).
- The `[ActivityName]` aliases on the handlers are never registered. The task name
  "Validate Invoice" resolves to no handler (ActivityFactory.cs:29-33).
- Saving a definition turns off the latest earlier version with the same *name*, not the
  active definitions of the same document type. Two differently named definitions can
  therefore both be active for one type (WorkflowService.cs:26, 43-47).
- Deleting a definition that an instance still refers to fails. The database's restricted
  foreign key (ApplicationDbContext.cs:48-51) refuses the save.

## Model

| member | source | states |
|---|---|---|
| Text.ToLower | src/DocumentWorkflow.Application/Services/WorkflowEngineService.cs:88 | the result has the input's length and each character is the input's character with ASCII upper-case letters folded to lower case |
| Seqs.FirstIndex | src/DocumentWorkflow.Infrastructure/Repositories/SpecificRepositories.cs:48-54 | `FirstOrDefault(p)`: the index of an element satisfying p with no earlier element satisfying it, and None exactly when no element satisfies p |
| Seqs.Filter | src/DocumentWorkflow.Infrastructure/Repositories/SpecificRepositories.cs:12-25 | `Where(p)`: every element occurs in the result as often as in the input if it satisfies p, and otherwise not at all |
| Seqs.InsertSorted | src/DocumentWorkflow.Infrastructure/Repositories/SpecificRepositories.cs:89-95 | inserting into a sequence ordered by a key keeps it ordered |
| Seqs.SortAsc | src/DocumentWorkflow.Infrastructure/Repositories/SpecificRepositories.cs:89-95 | `OrderBy(key)`: the result is a permutation of the input, ordered by ascending key |
| Seqs.SortDesc | src/DocumentWorkflow.Infrastructure/Repositories/SpecificRepositories.cs:40-46 | `OrderByDescending(key)`: a permutation of the input, ordered by descending key |
| Seqs.MaxBy | src/DocumentWorkflow.Infrastructure/Repositories/SpecificRepositories.cs:48-54 | `OrderByDescending(key).FirstOrDefault()`: None exactly for the empty input, otherwise an element whose key no element exceeds |
| Store.UnitOfWork.SaveChanges | src/DocumentWorkflow.Infrastructure/Repositories/UnitOfWork.cs:31-34 | `SaveChangesAsync`: the database takes every pending change, so afterwards nothing is pending |
| Store.UnitOfWork.DiscardChanges | src/DocumentWorkflow.Infrastructure/Repositories/UnitOfWork.cs:61-65 | the context is disposed after an exception: the tracked tables return to what the database holds, and the database is unchanged |
| Store.UnitOfWork.NewGuid | src/DocumentWorkflow.Application/Services/WorkflowEngineService.cs:76 | `Guid.NewGuid()`: the id is the counter's value, never handed out before; the counter advances and no table changes |
| Repositories.IndexOfId | src/DocumentWorkflow.Application/Services/WorkflowEngineService.cs:53 | `GetByIdAsync` on any table (used for documents, definitions, instances and tasks): the index of a row with that id and no earlier row with it, and None exactly when no row has it |
| Repositories.DocumentsWhere | src/DocumentWorkflow.Infrastructure/Repositories/SpecificRepositories.cs:12-25 | `GetByStatusAsync`, `GetBySubmitterAsync` and `GetByDocumentTypeAsync`: exactly the documents whose status, submitter or type holds the value, each as often as stored |
| Repositories.ActiveByDocumentType | src/DocumentWorkflow.Infrastructure/Repositories/SpecificRepositories.cs:32-38 | an active definition of the type with no active definition of the type at a higher version; None exactly when the type has no active definition |
| Repositories.DefinitionsByDocumentType | src/DocumentWorkflow.Infrastructure/Repositories/SpecificRepositories.cs:40-46 | exactly the definitions of the type, by version descending |
| Repositories.LatestVersion | src/DocumentWorkflow.Infrastructure/Repositories/SpecificRepositories.cs:48-54 | a definition with that name, active or not, whose version no definition of the name exceeds; None exactly when the name is unused |
| Repositories.InstancesByDocument | src/DocumentWorkflow.Infrastructure/Repositories/SpecificRepositories.cs:61-67 | exactly the instances attached to the document |
| Repositories.RunningInstances | src/DocumentWorkflow.Infrastructure/Repositories/SpecificRepositories.cs:69-74 | exactly the instances whose status is "Running" |
| Repositories.InstanceWithSteps | src/DocumentWorkflow.Infrastructure/Repositories/SpecificRepositories.cs:76-82 | an instance with that id, and None exactly when there is none |
| Repositories.StepsOfInstance | src/DocumentWorkflow.Infrastructure/Repositories/SpecificRepositories.cs:89-95 | exactly the instance's steps, by start time ascending |
| Repositories.CurrentStep | src/DocumentWorkflow.Infrastructure/Repositories/SpecificRepositories.cs:97-103 | a step of the instance that no step of the instance starts after; None exactly when it has no step |
| Repositories.DueKey | src/DocumentWorkflow.Infrastructure/Repositories/SpecificRepositories.cs:118-124 | the sort key of a due date: a missing date sorts before every date |
| Repositories.TasksByAssignee | src/DocumentWorkflow.Infrastructure/Repositories/SpecificRepositories.cs:110-116 | exactly the assignee's tasks, newest first |
| Repositories.PendingTasks | src/DocumentWorkflow.Infrastructure/Repositories/SpecificRepositories.cs:118-124 | exactly the assignee's tasks with status "Pending", earliest due date first |
| Repositories.TasksByDocument | src/DocumentWorkflow.Infrastructure/Repositories/SpecificRepositories.cs:126-132 | exactly the document's tasks, oldest first |
| Repositories.ActivePolicies | src/DocumentWorkflow.Infrastructure/Repositories/SpecificRepositories.cs:139-145 | exactly the active policies of the type, highest priority first |
| Repositories.MatchingPolicy | src/DocumentWorkflow.Infrastructure/Repositories/SpecificRepositories.cs:147-154 | an active policy of the type that no active policy of the type outranks in priority; None exactly when there is none |
| Repositories.MatchingPolicyIgnoresConditions | src/DocumentWorkflow.Infrastructure/Repositories/SpecificRepositories.cs:147-154 | the matching policy is the same whatever the department and the amount |
| Bpmn.FirstStartEvent | src/DocumentWorkflow.Application/Services/WorkflowEngineService.cs:160 | the first BPMN `startEvent` in document order, and None exactly when there is none |
| Bpmn.FirstFlowFrom | src/DocumentWorkflow.Application/Services/WorkflowEngineService.cs:163-165 | the first `sequenceFlow` whose `sourceRef` equals the given, possibly absent, source |
| Bpmn.FirstWithId | src/DocumentWorkflow.Application/Services/WorkflowEngineService.cs:185-186 | the first element of any kind carrying the id, and None exactly when none does |
| Bpmn.TargetStepDenotes | src/DocumentWorkflow.Application/Services/WorkflowEngineService.cs:221-232 | a resolved flow target is the step of the first element carrying the target id: that id, its name or "Unnamed", and its local name as the kind |
| Bpmn.NextStepLeadsTo | src/DocumentWorkflow.Application/Services/WorkflowEngineService.cs:148-238 | an unparsable document resolves to nothing; whatever is resolved is the target of some sequence flow and is what the first element with its id stands for |
| Bpmn.StartResolution | src/DocumentWorkflow.Application/Services/WorkflowEngineService.cs:157-182 | an empty current id resolves to the target of the first flow leaving the first start event |
| Bpmn.NoStartNoStep | src/DocumentWorkflow.Application/Services/WorkflowEngineService.cs:158-182 | without a start event, or without a flow leaving it, the start resolution finds nothing |
| Bpmn.UnknownIdRestarts | src/DocumentWorkflow.Application/Services/WorkflowEngineService.cs:185-212 | a current id that no element carries falls back to the start resolution |
| Bpmn.NextFromKnownNode | src/DocumentWorkflow.Application/Services/WorkflowEngineService.cs:215-232 | from a known node the resolver follows the first flow whose `sourceRef` is that node |
| Bpmn.NoOutgoingFlowNoStep | src/DocumentWorkflow.Application/Services/WorkflowEngineService.cs:215-219 | a known node with no outgoing flow has no next node |
| Bpmn.UnresolvedTargetNoStep | src/DocumentWorkflow.Application/Services/WorkflowEngineService.cs:221-225 | a first outgoing flow with no target, or with a target no element carries, yields no next node |
| Bpmn.UnresolvedStartTargetNoStep | src/DocumentWorkflow.Application/Services/WorkflowEngineService.cs:167-181 | from an empty current id, a first flow out of the first start event with no target, or with a target no element carries, yields no next node |
| Bpmn.StartWithoutIdUsesFlowWithoutSource | src/DocumentWorkflow.Application/Services/WorkflowEngineService.cs:163-165 | a start event without an `id` is left by the first flow without a `sourceRef` (absent equals absent) |
| Bpmn.NextInPrefix | src/DocumentWorkflow.Application/Services/WorkflowEngineService.cs:148-238 | a resolution that the first part of a document settles is the resolution in the whole document |
| Bpmn.FindNextStep | src/DocumentWorkflow.Application/Services/WorkflowEngineService.cs:148-238 | the model of `FindNextStepAsync`; its properties are `NextStepLeadsTo`, `StartResolution`, `NoStartNoStep`, `UnresolvedStartTargetNoStep`, `UnknownIdRestarts`, `NextFromKnownNode`, `NoOutgoingFlowNoStep`, `UnresolvedTargetNoStep` and `NextInPrefix` |
| Bpmn.StartStep | src/DocumentWorkflow.Application/Services/WorkflowEngineService.cs:157-182 | the start route of `FindNextStepAsync`: the first flow out of the first start event; stated by `StartResolution`, `NoStartNoStep` and `UnresolvedStartTargetNoStep` |
| Bpmn.TargetStep | src/DocumentWorkflow.Application/Services/WorkflowEngineService.cs:221-232 | the step built from a flow's target element; stated by `TargetStepDenotes` and `UnresolvedTargetNoStep` |
| Bpmn.CountNamed | src/DocumentWorkflow.Application/Services/WorkflowService.cs:140-150 | `Count()` of the elements with that qualified name: zero exactly when there is no such element |
| Bpmn.CountNamedCons | src/DocumentWorkflow.Application/Services/WorkflowService.cs:146-149 | counting goes element by element: a leading element adds one exactly when it has the qualified name |
| Bpmn.SubtreeEnd | src/DocumentWorkflow.Application/Services/WorkflowService.cs:140-150 | the subtree of an element is the maximal run after it of elements nested deeper |
| Bpmn.Summary | src/DocumentWorkflow.Application/Services/WorkflowService.cs:140-150 | a process entry carries the process's id and name, and its task count is the number of service tasks plus user tasks below it |
| Bpmn.ProcessIndices | src/DocumentWorkflow.Application/Services/WorkflowService.cs:138 | the positions of the process elements that `Descendants(ns + "process")` enumerates: each is a process element, in strictly ascending document order |
| Bpmn.ProcessIndicesComplete | src/DocumentWorkflow.Application/Services/WorkflowService.cs:138 | every process element at or after the start index is enumerated |
| Bpmn.ProcessIndicesCount | src/DocumentWorkflow.Application/Services/WorkflowService.cs:138 | the enumeration has as many positions as `Count()` finds process elements |
| Bpmn.StructureIn | src/DocumentWorkflow.Application/Services/WorkflowService.cs:133-159 | an error exactly for an unparsable document; otherwise entry k is the summary of the k-th process element of the namespace looked in, and there are as many entries as `Count()` finds process elements |
| Activities.ActivityName | src/DocumentWorkflow.Application/Services/ValidateDocumentActivity.cs:17 | each handler registers under one non-empty name ("Validate Document", "Publish Document") |
| Activities.Validate | src/DocumentWorkflow.Application/Services/ValidateDocumentActivity.cs:20-35 | a missing document, then an empty title, then an empty type, each fail with their message; otherwise only the status changes, to "InApproval" |
| Activities.ValidateIdempotent | src/DocumentWorkflow.Application/Services/ValidateDocumentActivity.cs:20-35 | validating a validated document gives the same document again |
| Activities.Publish | src/DocumentWorkflow.Application/Services/PublishDocumentActivity.cs:14-25 | a missing document fails; otherwise only status ("Published") and publication time (now) change |
| Activities.Execute | src/DocumentWorkflow.Application/Services/WorkflowEngineService.cs:265-268 | `activity.ExecuteAsync` dispatched to the resolved handler; stated by `ExecuteKeepsIdentity`, `Validate` and `Publish` |
| Activities.ExecuteKeepsIdentity | src/DocumentWorkflow.Application/Services/PublishDocumentActivity.cs:14-25 | a successful handler changes nothing of the document but its status and its publication time |
| Activities.KeyIndex | src/DocumentWorkflow.Application/Services/ActivityFactory.cs:38 | the entry whose key is exactly the name, compared case-sensitively |
| Activities.Lookup | src/DocumentWorkflow.Application/Services/ActivityFactory.cs:38 | `TryGetValue` succeeds exactly when some entry has that key |
| Activities.Upsert | src/DocumentWorkflow.Application/Services/ActivityFactory.cs:32 | after `reg[key] = a` the key finds a, every other key finds what it found before, keys stay distinct, and the table grows only for a new key |
| Activities.OverwriteKeepsOtherKeys | src/DocumentWorkflow.Application/Services/ActivityFactory.cs:32 | overwriting an existing key changes no other key's lookup |
| Activities.AppendKeepsOtherKeys | src/DocumentWorkflow.Application/Services/ActivityFactory.cs:32 | adding a new key changes no other key's lookup |
| Activities.FuzzyIndex | src/DocumentWorkflow.Application/Services/ActivityFactory.cs:44-45 | the first entry, in registration order, whose key occurs in the task name ignoring case |
| Activities.ExactMatchWins | src/DocumentWorkflow.Application/Services/ActivityFactory.cs:38-41 | an exact key wins over every substring match, even an earlier one |
| Activities.FirstFuzzyMatchWins | src/DocumentWorkflow.Application/Services/ActivityFactory.cs:44-50 | without an exact key, the first registered non-empty key contained in the name decides |
| Activities.EmptyKeyHitIsNoMatch | src/DocumentWorkflow.Application/Services/ActivityFactory.cs:47 | a first substring hit on an empty key counts as no match |
| Activities.ResolvedIsRegistered | src/DocumentWorkflow.Application/Services/ActivityFactory.cs:35-53 | whatever is resolved is registered under the name itself or under a non-empty part of it |
| Activities.Resolve | src/DocumentWorkflow.Application/Services/ActivityFactory.cs:35-53 | the model of `CreateActivity` over the registry; stated by `ExactMatchWins`, `FirstFuzzyMatchWins`, `EmptyKeyHitIsNoMatch`, `ResolvedIsRegistered` and `NoMatchResolvesNothing`, and the loop `ActivityFactory.CreateActivity` is proved equal to it |
| Activities.NoMatchResolvesNothing | src/DocumentWorkflow.Application/Services/ActivityFactory.cs:52 | with no exact key and no contained key, nothing is resolved |
| Activities.ActivityFactory.constructor | src/DocumentWorkflow.Application/Services/ActivityFactory.cs:20-27 | exactly "Validate Document" then "Publish Document" are registered |
| Activities.ActivityFactory.RegisterActivity | src/DocumentWorkflow.Application/Services/ActivityFactory.cs:29-33 | the table becomes the upsert of the handler under its name, keys staying distinct |
| Activities.ActivityFactory.CreateActivity | src/DocumentWorkflow.Application/Services/ActivityFactory.cs:35-53 | the scan returns exactly the registry resolution (exact, then first fuzzy hit, empty key excluded) |
| Engine.ExtendsTransitive | src/DocumentWorkflow.Application/Services/WorkflowEngineService.cs:110-120 | the bound on what an advance changes composes over consecutive advances |
| Engine.RunServiceTask | src/DocumentWorkflow.Application/Services/WorkflowEngineService.cs:240-279 | without the instance's document or without a handler for the task name nothing happens; otherwise a handler run changes at most the instance's own document, and a failure happens only when that document exists |
| Engine.Extends | src/DocumentWorkflow.Application/Services/WorkflowEngineService.cs:51-140 | what an advance may change: only the instance and its document, a document only in status and publication time, and steps and tasks only by fresh rows of that instance |
| Engine.Advance | src/DocumentWorkflow.Application/Services/WorkflowEngineService.cs:51-140 | the model of `ExecuteNextStepAsync`; stated by `AdvanceExtends`, `AdvanceRefusal`, `AdvanceFuelSettled` and the lemmas for each kind of node below |
| Engine.EnterNode | src/DocumentWorkflow.Application/Services/WorkflowEngineService.cs:74-139 | the step record and the dispatch on the node's kind; stated by `EnterNodeExtends` and the lemmas for each kind of node |
| Engine.EnterServiceTask | src/DocumentWorkflow.Application/Services/WorkflowEngineService.cs:110-120 | the service-task branch: handler, save, re-entry; stated by `ServiceTaskThrows`, `ServiceTaskReenters`, `ServiceTaskOutOfFuel` and `ServiceTaskWithoutHandlerReenters` |
| Engine.Reenter | src/DocumentWorkflow.Application/Services/WorkflowEngineService.cs:117-119 | the recursive `ExecuteNextStepAsync` call whose answer, unless a failure, becomes true; stated by `ReenterExtends` and `ReenterFuel` |
| Engine.HandleServiceTask | src/DocumentWorkflow.Application/Services/WorkflowEngineService.cs:74-114 | the step record, the handler run and the instance moved onto the node, before the save; stated by `HandlerOutcome` |
| Engine.AdvanceExtends | src/DocumentWorkflow.Application/Services/WorkflowEngineService.cs:51-140 | however far the chain of service tasks runs, an advance changes no definition or policy, adds no document or instance, only changes the instance and its document, and only appends steps and pending tasks of that instance with fresh ids |
| Engine.EnterNodeExtends | src/DocumentWorkflow.Application/Services/WorkflowEngineService.cs:74-139 | entering a node stays within the same bound |
| Engine.EnterServiceTaskExtends | src/DocumentWorkflow.Application/Services/WorkflowEngineService.cs:110-120 | a service task's handler and re-entry stay within the same bound |
| Engine.ReenterExtends | src/DocumentWorkflow.Application/Services/WorkflowEngineService.cs:118 | the re-entry stays within the same bound |
| Engine.AdvanceRefusal | src/DocumentWorkflow.Application/Services/WorkflowEngineService.cs:53-58 | an advance answers false exactly for a missing instance, one not running, or one without its definition, and then changes nothing |
| Engine.NoNextNodeCompletes | src/DocumentWorkflow.Application/Services/WorkflowEngineService.cs:61-71 | with no next node the instance becomes Completed at now, no step or task is written, and the answer is true |
| Engine.StepRecordOfNode | src/DocumentWorkflow.Application/Services/WorkflowEngineService.cs:74-85 | the step record carries the node's id, name and kind, status Completed, and completes when it starts |
| Engine.UserTaskParks | src/DocumentWorkflow.Application/Services/WorkflowEngineService.cs:88-109 | a user task adds one step record and one Pending task named after the node, for manager@company.com, due three days later; the instance stays Running, parked on the node |
| Engine.EndEventCompletes | src/DocumentWorkflow.Application/Services/WorkflowEngineService.cs:121-139 | an end event adds one step record, completes the instance at now, and publishes its document at now when it exists |
| Engine.OtherNodeOnlyLogs | src/DocumentWorkflow.Application/Services/WorkflowEngineService.cs:86-139 | any other kind of node only adds its step record |
| Engine.ServiceTaskThrows | src/DocumentWorkflow.Application/Services/WorkflowEngineService.cs:110-114 | a throwing handler is the answer and nothing is kept: neither the step record nor a change of node |
| Engine.ServiceTaskReenters | src/DocumentWorkflow.Application/Services/WorkflowEngineService.cs:110-120 | a successful handler's document, the step record and the instance parked on the node are kept, and the instance is advanced again; the answer is that advance's failure, or true |
| Engine.ServiceTaskOutOfFuel | src/DocumentWorkflow.Application/Services/WorkflowEngineService.cs:117-118 | with no re-entry left, the saved work stays and the answer is the recursion failure |
| Engine.ServiceTaskWithoutHandlerReenters | src/DocumentWorkflow.Application/Services/WorkflowEngineService.cs:110-120 | a service task with no handler for its name, or whose instance has no document, runs nothing, yet its step record and the instance parked on the node are saved and the instance is advanced again; the answer is that advance's failure or true, and with no re-entry left the recursion failure with the saved work kept |
| Engine.AdvanceFuel | src/DocumentWorkflow.Application/Services/WorkflowEngineService.cs:118 | an advance that did not run out of re-entries gives the same state and answer with one more |
| Engine.EnterNodeFuel | src/DocumentWorkflow.Application/Services/WorkflowEngineService.cs:110-120 | the same for entering a node |
| Engine.EnterServiceTaskFuel | src/DocumentWorkflow.Application/Services/WorkflowEngineService.cs:110-120 | the same for a service task |
| Engine.ReenterFuel | src/DocumentWorkflow.Application/Services/WorkflowEngineService.cs:117-119 | the same for the re-entry |
| Engine.AdvanceFuelSettled | src/DocumentWorkflow.Application/Services/WorkflowEngineService.cs:118 | every larger bound gives the same advance, so RecursionLimit is the bound's only effect |
| Engine.AdvanceDocuments | src/DocumentWorkflow.Application/Services/WorkflowEngineService.cs:121-133 | an advance adds or removes no document, changes only the instance's own, and that only in status and publication time |
| Engine.StartInstance | src/DocumentWorkflow.Application/Services/WorkflowEngineService.cs:25-49 | a missing definition throws "Workflow definition not found" and changes nothing; otherwise exactly one instance is added and the returned instance is that row afterwards |
| Engine.StartAddsThenAdvances | src/DocumentWorkflow.Application/Services/WorkflowEngineService.cs:31-46 | a start adds a Running instance with a fresh id, no current node and variables "{}", and advances it once |
| Engine.AddInstance | src/DocumentWorkflow.Application/Services/WorkflowEngineService.cs:31-42 | the instance row `StartWorkflowAsync` adds; stated by `StartAddsThenAdvances` |
| Engine.StartInstanceDocuments | src/DocumentWorkflow.Application/Services/WorkflowEngineService.cs:25-49 | with fresh instance ids, starting a workflow on a document changes no other document, and that one only in status and publication time |
| Engine.WorkflowEngine.ExecuteNextStep | src/DocumentWorkflow.Application/Services/WorkflowEngineService.cs:51-140 | the saved database and the answer are what `Advance` describes, and nothing is left pending |
| Engine.WorkflowEngine.ExecuteStep | src/DocumentWorkflow.Application/Services/WorkflowEngineService.cs:74-139 | the database and answer after entering the node are what `EnterNode` describes |
| Engine.WorkflowEngine.ExecuteServiceStep | src/DocumentWorkflow.Application/Services/WorkflowEngineService.cs:110-120 | handling a service task and re-entering gives what `EnterServiceTask` describes |
| Engine.WorkflowEngine.AutoAdvance | src/DocumentWorkflow.Application/Services/WorkflowEngineService.cs:117-119 | the re-entry gives what `Reenter` describes |
| Engine.WorkflowEngine.HandleStep | src/DocumentWorkflow.Application/Services/WorkflowEngineService.cs:74-117 | on success the saved state is the handled one; on a handler failure the tracked state is restored and the failure returned |
| Engine.WorkflowEngine.ExecuteServiceTask | src/DocumentWorkflow.Application/Services/WorkflowEngineService.cs:240-279 | only the tracked document changes, as `RunServiceTask` says, and nothing is saved |
| Engine.WorkflowEngine.StartWorkflow | src/DocumentWorkflow.Application/Services/WorkflowEngineService.cs:25-49 | the database and result are what `StartInstance` describes; a started instance leaves nothing pending |
| Engine.WorkflowEngine.GetWorkflowInstance | src/DocumentWorkflow.Application/Services/WorkflowEngineService.cs:142-146 | the instance with that id, or None exactly when there is none |
| Approvals.DecisionTaskStatus | src/DocumentWorkflow.Application/Services/ApprovalService.cs:49-50 | "approve" gives Approved, "reject" gives Rejected, every other decision ChangesRequested, never Pending |
| Approvals.DecisionDocumentStatus | src/DocumentWorkflow.Application/Services/ApprovalService.cs:59-70 | "reject", "changes" and "approve" set Rejected, ChangesRequested and Approved; any other decision keeps the status |
| Approvals.Decide | src/DocumentWorkflow.Application/Services/ApprovalService.cs:48-72 | the writes before the save: the decided task and its document; stated by `DecisionRecorded` and `DocumentFollowsDecision` |
| Approvals.CompleteTask | src/DocumentWorkflow.Application/Services/ApprovalService.cs:42-89 | the answer is false, with nothing changed, exactly for a missing task or one no longer Pending; what a decision does otherwise is stated by `DecisionRecorded`, `NonApprovalDoesNotAdvance` and `ApprovalContinuesWorkflow` |
| Approvals.DecisionRecorded | src/DocumentWorkflow.Application/Services/ApprovalService.cs:49-53 | a pending task gets the mapped status, the comments and the completion time, whatever the engine does afterwards |
| Approvals.SecondCompletionRefused | src/DocumentWorkflow.Application/Services/ApprovalService.cs:45-50 | once a pending task is completed, completing it again answers false and changes nothing |
| Approvals.NonApprovalDoesNotAdvance | src/DocumentWorkflow.Application/Services/ApprovalService.cs:77-86 | any decision but "approve" answers true and leaves exactly the written decision: no instance moves and no step or task is added |
| Approvals.DocumentFollowsDecision | src/DocumentWorkflow.Application/Services/ApprovalService.cs:56-72 | only the task's document changes, to the mapped status |
| Approvals.ApprovalAdvancesOwnInstance | src/DocumentWorkflow.Application/Services/ApprovalService.cs:77-86 | after an approval the engine changes only the task's instance and its document |
| Approvals.ApprovalContinuesWorkflow | src/DocumentWorkflow.Application/Services/ApprovalService.cs:77-88 | an approval of a pending task advances the task's instance from the written decision when that instance exists, answering the engine's failure or true; without the instance the decision alone is kept and the answer is true |
| Approvals.ApprovalService.CompleteApprovalTask | src/DocumentWorkflow.Application/Services/ApprovalService.cs:42-89 | the database and answer are what `CompleteTask` describes |
| Approvals.ApprovalService.Conclude | src/DocumentWorkflow.Application/Services/ApprovalService.cs:48-88 | the decision is saved before the engine runs, and only "approve" of an existing instance advances it |
| Documents.DocumentCreated | src/DocumentWorkflow.Application/Services/DocumentService.cs:19-39 | the new document is a Draft with a fresh id and the given fields, created at now, appended to the table |
| Documents.CreatedIsFound | src/DocumentWorkflow.Application/Services/DocumentService.cs:19-45 | when ids are below the counter, looking the new document up by its id finds it |
| Documents.NoActiveWorkflow | src/DocumentWorkflow.Application/Services/DocumentService.cs:61-62 | the exception message ends with the document type |
| Documents.SubmitDocument | src/DocumentWorkflow.Application/Services/DocumentService.cs:53-75 | the answer is false, with nothing changed, exactly for a missing document; what a submission does otherwise is stated by `SubmitMarksDocument`, `SubmitStartsActiveWorkflow` and `NoActiveWorkflowRefused` |
| Documents.NoActiveWorkflowRefused | src/DocumentWorkflow.Application/Services/DocumentService.cs:59-63 | without an active workflow for the type the submission throws and changes nothing |
| Documents.StartInstanceAttaches | src/DocumentWorkflow.Application/Services/WorkflowEngineService.cs:31-46 | a started instance is the new last row, attached to the given definition and document |
| Documents.SubmitStartsActiveWorkflow | src/DocumentWorkflow.Application/Services/DocumentService.cs:59-71 | a submission starts one instance on the document, of an active definition of its type with the highest version |
| Documents.MarkSubmitted | src/DocumentWorkflow.Application/Services/DocumentService.cs:65-68 | the document row as it is updated before the workflow starts: status Submitted, submitted at now |
| Documents.SubmitMarksDocument | src/DocumentWorkflow.Application/Services/DocumentService.cs:65-71 | after a submission that finds an active workflow, whatever the start answers, the document its id finds is submitted at now and differs from the marked row at most in status and publication time, and every document with another id is unchanged |
| Documents.DocumentService.CreateDocument | src/DocumentWorkflow.Application/Services/DocumentService.cs:19-39 | the database holds what `DocumentCreated` describes |
| Documents.DocumentService.GetDocumentById | src/DocumentWorkflow.Application/Services/DocumentService.cs:41-45 | the document with that id, or None exactly when there is none |
| Documents.DocumentService.GetDocumentsByStatus | src/DocumentWorkflow.Application/Services/DocumentService.cs:47-51 | exactly the documents with that status |
| Documents.DocumentService.SubmitDocumentForApproval | src/DocumentWorkflow.Application/Services/DocumentService.cs:53-75 | the database and answer are what `SubmitDocument` describes |
| Definitions.Validation | src/DocumentWorkflow.Application/Services/WorkflowService.cs:83-131 | valid exactly for a parsed document with a BPMN process, exactly when there is no error; a parse failure is the one error "XML parsing error: ..."; a missing start or end event is only a warning |
| Definitions.WarningsDoNotInvalidate | src/DocumentWorkflow.Application/Services/WorkflowService.cs:111-122 | a document with a process but no events is valid, with both warnings |
| Definitions.NextVersion | src/DocumentWorkflow.Application/Services/WorkflowService.cs:26-35 | the new version is above every version of the name: one past the highest, or 1 for a new name |
| Definitions.SaveDefinition | src/DocumentWorkflow.Application/Services/WorkflowService.cs:18-53 | the model of `SaveWorkflowDefinitionAsync`; stated by `SaveRejectsInvalid`, `SaveVersioning`, `SaveKeepsVersionsConsistent` and `TwoActiveForOneType` |
| Definitions.SaveRejectsInvalid | src/DocumentWorkflow.Application/Services/WorkflowService.cs:21-23 | saving fails exactly for a document validation rejects, and then nothing changes |
| Definitions.RetireKeepsLength | src/DocumentWorkflow.Application/Services/WorkflowService.cs:43-47 | turning off the latest version keeps the number of rows |
| Definitions.RetireKeepsRows | src/DocumentWorkflow.Application/Services/WorkflowService.cs:43-47 | turning off the latest version changes no id, name, type or version and activates nothing |
| Definitions.SaveVersioning | src/DocumentWorkflow.Application/Services/WorkflowService.cs:26-50 | a saved definition is active, has a fresh id, is the new last row, and is one past the highest version of its name, or version 1 |
| Definitions.OneActivePerName | src/DocumentWorkflow.Application/Services/WorkflowService.cs:43-49 | in a consistent table at most one definition per name is active |
| Definitions.IndexOfMember | src/DocumentWorkflow.Application/Services/WorkflowService.cs:43-47 | with distinct ids, the row found by a definition's id is that definition |
| Definitions.RetireTurnsOffName | src/DocumentWorkflow.Application/Services/WorkflowService.cs:43-47 | in a consistent table, turning off the latest version leaves no version of the name active |
| Definitions.AppendOutranking | src/DocumentWorkflow.Application/Services/WorkflowService.cs:49 | appending a definition above its whole, inactive name keeps active definitions outranking their names |
| Definitions.SaveKeepsVersionsConsistent | src/DocumentWorkflow.Application/Services/WorkflowService.cs:18-53 | saving keeps ids distinct and below the counter, and each active definition above every other of its name |
| Definitions.KeptOutranks | src/DocumentWorkflow.Application/Services/WorkflowService.cs:43-47 | the same rows with fewer active keep the consistency |
| Definitions.AppendFresh | src/DocumentWorkflow.Application/Services/WorkflowService.cs:28-29 | a row with an id above every id keeps the ids distinct |
| Definitions.TwoActiveForOneType | src/DocumentWorkflow.Application/Services/WorkflowService.cs:26-47 | saving turns off only by name: an active definition of the same type under another name stays active next to the new one |
| Definitions.DeleteDefinition | src/DocumentWorkflow.Application/Services/WorkflowService.cs:73-81 | false, with nothing changed, exactly for a missing id; a referenced definition fails with the foreign-key error and nothing changes; only the definitions table can change |
| Definitions.RemoveRow | src/DocumentWorkflow.Application/Services/WorkflowService.cs:78 | with distinct ids, removing a row removes exactly the rows with its id |
| Definitions.DeleteRemovesOnlyThatRow | src/DocumentWorkflow.Application/Services/WorkflowService.cs:73-81 | a successful delete removes exactly the definition with that id |
| Definitions.RemoveKeepsOrder | src/DocumentWorkflow.Application/Services/WorkflowService.cs:78 | removing a row keeps ids distinct and active definitions outranking |
| Definitions.DeleteKeepsVersionsConsistent | src/DocumentWorkflow.Application/Services/WorkflowService.cs:73-81 | deleting keeps the table consistent |
| Definitions.ParseStructureAsWritten | src/DocumentWorkflow.Application/Services/WorkflowService.cs:133-159 | the structure query as written: an error exactly for an unparsable document, otherwise entry k summarises the k-th process element in the root's default namespace |
| Definitions.ParseStructure | src/DocumentWorkflow.Application/Services/WorkflowService.cs:133-159 | the corrected query: an error exactly for an unparsable document, otherwise entry k summarises the k-th BPMN process element |
| Definitions.StructureAgreesWithValidation | src/DocumentWorkflow.Application/Services/WorkflowService.cs:103-150 | the corrected query lists a process exactly for the documents validation accepts |
| Definitions.PrefixedDocumentLosesProcesses | src/DocumentWorkflow.Application/Services/WorkflowService.cs:138 | a valid document whose elements are all outside the root's default namespace gets an empty process list from the query as written, and a non-empty one from the corrected query |
| Definitions.WorkflowService.ValidateBpmn | src/DocumentWorkflow.Application/Services/WorkflowService.cs:83-131 | the one-pass check gives exactly `Validation` |
| Definitions.WorkflowService.SaveWorkflowDefinition | src/DocumentWorkflow.Application/Services/WorkflowService.cs:18-53 | the database and result are what `SaveDefinition` describes |
| Definitions.WorkflowService.AddVersion | src/DocumentWorkflow.Application/Services/WorkflowService.cs:26-50 | the latest version of the name is turned off, the new definition added, and all saved |
| Definitions.WorkflowService.GetAllWorkflows | src/DocumentWorkflow.Application/Services/WorkflowService.cs:55-59 | every definition, newest first |
| Definitions.WorkflowService.DeleteWorkflow | src/DocumentWorkflow.Application/Services/WorkflowService.cs:73-81 | the database and answer are what `DeleteDefinition` describes |
| SeededGraph.FromStart | src/DocumentWorkflow.Infrastructure/Seeders/DataSeeder.cs:124-147 | in the seeded document, no current node resolves to the service task "Validate Document" |
| SeededGraph.FromValidate | src/DocumentWorkflow.Infrastructure/Seeders/DataSeeder.cs:124-147 | after validation comes the user task "Manager Approval" |
| SeededGraph.FromApprove | src/DocumentWorkflow.Infrastructure/Seeders/DataSeeder.cs:124-147 | after approval comes the service task "Publish Document" |
| SeededGraph.FromPublish | src/DocumentWorkflow.Infrastructure/Seeders/DataSeeder.cs:124-147 | after publishing comes the end event "Complete" |
| SeededGraph.FromEnd | src/DocumentWorkflow.Infrastructure/Seeders/DataSeeder.cs:124-147 | the end event has no next node |
| SeededGraph.SeededStructure | src/DocumentWorkflow.Infrastructure/Seeders/DataSeeder.cs:115-190 | the seeded document is valid, the structure query as written lists none of its processes, and the corrected query lists one |
| SeededRun.SubmittingTheOfficeInvoice | src/DocumentWorkflow.Infrastructure/Seeders/DataSeeder.cs:20-110 | submitting the seeded office invoice answers true; the invoice is InApproval, submitted at now; instance 7 runs at the approval task; two completed steps are logged; one Pending task for the manager is due in three days |
| SeededRun.ApprovingTheOfficeInvoice | src/DocumentWorkflow.Application/Services/ApprovalService.cs:42-89 | approving that task afterwards answers true; the task is Approved with the comments; the invoice is Published at the approval time; two more steps are logged; the instance is Completed |
| SeededRun.RejectingTheOfficeInvoice | src/DocumentWorkflow.Application/Services/ApprovalService.cs:42-89 | rejecting it instead answers true; task and invoice are Rejected; no step is logged; the instance stays Running at the approval task |

## Left out

- XML parsing (`XDocument.Parse`) is a library; a document is modelled as its parsed element list or a parse failure. Validation and the structure query use the same element list.
- `CreateInstance` through `IServiceProvider` or `Activator` is reflection and dependency injection; a registry hit yields the handler itself. The deployed program registers the factory as a singleton (Program.cs:36), so it receives an `IServiceProvider`, and `GetService` of a handler type (ActivityFactory.cs:57-61) finds nothing because the handlers are never registered with the container. There no handler runs, and a submitted invoice stays "Submitted" rather than becoming "InApproval". The model, `SeededRun` included, describes the factory as it behaves when the lookup yields the handler.
- async/await: every operation is sequential.
- Entity Framework: change tracking is modelled as the tracked tables plus `saved`, and `SaveChangesAsync` as copying them; navigation properties, `Include` and cascades other than the restricted definition delete are not modelled. The generic repository (`GetByIdAsync`, `AddAsync`, `UpdateAsync`, `DeleteAsync`) is not part of this model; `GetByIdAsync` is taken to return the first row with the id.
- `Guid.NewGuid` is the counter `nextId`, `DateTime.UtcNow` the parameter `now`, and the seeding instant a constant.
- Console logging, the HTTP controllers, `Program.cs` and the DTO mapping (`MapToDto`) are plumbing, left out.
- `GetPendingTasksForUserAsync`, `GetTasksForDocumentAsync`, `GetWorkflowByIdAsync` and `GetActiveWorkflowForDocumentTypeAsync` only map the repository queries above to DTOs; they are left out.
- Engine.Advance: the unbounded recursion of service tasks is bounded by `fuel`; where the original overflows its stack the model answers `RecursionLimit`, and a chain longer than the fuel is not followed.
- Text.ToLower, Text.ContainsIgnoreCase and Activities.FuzzyIndex: fold ASCII letters only. Neither the culture-aware `ToLower` nor the `StringComparison.OrdinalIgnoreCase` comparison of `Contains` (ActivityFactory.cs:45) is modelled for non-ASCII letters.
- Entities.Document: the decimal `Amount` is a `real`; no rounding is modelled.
- Bpmn.Summary: its contract states the task count; the start-event, end-event and gateway counts are only given by its definition.
- DataSeeder.cs as database reset code is not modelled; its rows and BPMN document are the constants of `SeededRun` and `SeededGraph`.

## Findings

| source | as written | input that shows it | evidently intended | confidence | as-written member | corrected member |
|---|---|---|---|---|---|---|
| src/DocumentWorkflow.Application/Services/WorkflowService.cs:138 | the structure query looks element names up in the root's default namespace | the seeded document (DataSeeder.cs:115-190), which binds BPMN to the prefix `bpmn` and declares no default namespace: valid, yet the query lists no process | look names up in the BPMN namespace, as validation does | not executed | Definitions.PrefixedDocumentLosesProcesses | Definitions.StructureAgreesWithValidation |
