/**
 * The repository queries (Infrastructure/Repositories/SpecificRepositories.cs) as functions over
 * the rows of a table in storage order, plus the generic `GetByIdAsync`.
 * `OrderBy`/`OrderByDescending` are the stable sorts of Seqs; `FirstOrDefault` after a descending
 * sort is `MaxBy`.
 */
module Repositories {
  import opened Wrappers
  import opened Seqs
  import opened Entities

  // ---- GetByIdAsync: the first row carrying the id, in storage order ----

  /** The index of the first row whose id, as `idOf` reads it, is `id`; None when no row has it. */
  function IndexOfId<T>(rows: seq<T>, idOf: T -> Guid, id: Guid): (r: Option<nat>)
    ensures r.Some? ==> r.value < |rows| && idOf(rows[r.value]) == id
    ensures r.Some? ==> forall j :: 0 <= j < r.value ==> idOf(rows[j]) != id
    ensures r.None? <==> forall j :: 0 <= j < |rows| ==> idOf(rows[j]) != id
  {
    if rows == [] then None
    else if idOf(rows[0]) == id then Some(0)
    else match IndexOfId(rows[1..], idOf, id)
      case None => None
      case Some(k) => Some(k + 1)
  }

  function DocumentId(d: Document): Guid { d.id }
  function DefinitionId(d: WorkflowDefinition): Guid { d.id }
  function InstanceId(w: WorkflowInstance): Guid { w.id }
  function TaskId(t: ApprovalTask): Guid { t.id }

  function IndexOfDocument(rows: seq<Document>, id: Guid): Option<nat> { IndexOfId(rows, DocumentId, id) }
  function IndexOfDefinition(rows: seq<WorkflowDefinition>, id: Guid): Option<nat> { IndexOfId(rows, DefinitionId, id) }
  function IndexOfInstance(rows: seq<WorkflowInstance>, id: Guid): Option<nat> { IndexOfId(rows, InstanceId, id) }
  function IndexOfTask(rows: seq<ApprovalTask>, id: Guid): Option<nat> { IndexOfId(rows, TaskId, id) }

  // ---- DocumentRepository ----

  /** The document columns the DocumentRepository filters on. */
  datatype DocumentColumn = StatusColumn | SubmitterColumn | TypeColumn

  function ColumnOf(d: Document, c: DocumentColumn): string
  {
    match c
    case StatusColumn => d.status
    case SubmitterColumn => d.submittedBy
    case TypeColumn => d.documentType
  }

  /**
   * `GetByStatusAsync`, `GetBySubmitterAsync` and `GetByDocumentTypeAsync`: exactly the documents
   * whose column holds the value, each as often as stored.
   */
  function DocumentsWhere(rows: seq<Document>, c: DocumentColumn, value: string): (r: seq<Document>)
    ensures forall d :: multiset(r)[d] == if ColumnOf(d, c) == value then multiset(rows)[d] else 0
  {
    Filter(rows, (d: Document) => ColumnOf(d, c) == value)
  }

  // ---- WorkflowDefinitionRepository ----

  /** `GetActiveByDocumentTypeAsync`: a highest-version active definition of that type. */
  function ActiveByDocumentType(rows: seq<WorkflowDefinition>, documentType: string): (r: Option<WorkflowDefinition>)
    ensures r.Some? ==> r.value in rows && r.value.documentType == documentType && r.value.isActive
    ensures r.Some? ==> forall d :: d in rows && d.documentType == documentType && d.isActive ==>
                          d.version <= r.value.version
    ensures r.None? <==> forall d :: d in rows ==> !(d.documentType == documentType && d.isActive)
  {
    var matching := Filter(rows, (d: WorkflowDefinition) => d.documentType == documentType && d.isActive);
    assert matching != [] ==> matching[0] in matching;
    MaxBy(matching, (d: WorkflowDefinition) => d.version)
  }

  /** `GetByDocumentTypeAsync`: exactly the definitions of that type, by version descending. */
  function DefinitionsByDocumentType(rows: seq<WorkflowDefinition>, documentType: string): (r: seq<WorkflowDefinition>)
    ensures forall d :: multiset(r)[d] == if d.documentType == documentType then multiset(rows)[d] else 0
    ensures forall i, j :: 0 <= i < j < |r| ==> r[i].version >= r[j].version
  {
    SortDesc(Filter(rows, (d: WorkflowDefinition) => d.documentType == documentType),
             (d: WorkflowDefinition) => d.version)
  }

  /** `GetLatestVersionAsync`: a highest-version definition with that name, active or not. */
  function LatestVersion(rows: seq<WorkflowDefinition>, name: string): (r: Option<WorkflowDefinition>)
    ensures r.Some? ==> r.value in rows && r.value.name == name
    ensures r.Some? ==> forall d :: d in rows && d.name == name ==> d.version <= r.value.version
    ensures r.None? <==> forall d :: d in rows ==> d.name != name
  {
    var named := Filter(rows, (d: WorkflowDefinition) => d.name == name);
    assert named != [] ==> named[0] in named;
    MaxBy(named, (d: WorkflowDefinition) => d.version)
  }

  // ---- WorkflowInstanceRepository (the `Include` of navigation properties is not modelled) ----

  /** `GetByDocumentIdAsync` of instances. */
  function InstancesByDocument(rows: seq<WorkflowInstance>, documentId: Guid): (r: seq<WorkflowInstance>)
    ensures forall w :: multiset(r)[w] == if w.documentId == documentId then multiset(rows)[w] else 0
  {
    Filter(rows, (w: WorkflowInstance) => w.documentId == documentId)
  }

  /** `GetRunningInstancesAsync`: exactly the instances whose status is "Running". */
  function RunningInstances(rows: seq<WorkflowInstance>): (r: seq<WorkflowInstance>)
    ensures forall w :: multiset(r)[w] == if w.status == Running then multiset(rows)[w] else 0
  {
    Filter(rows, (w: WorkflowInstance) => w.status == Running)
  }

  /** `GetWithStepsAsync`: the first instance with that id. */
  function InstanceWithSteps(rows: seq<WorkflowInstance>, id: Guid): (r: Option<WorkflowInstance>)
    ensures r.Some? ==> r.value in rows && r.value.id == id
    ensures r.None? <==> forall w :: w in rows ==> w.id != id
  {
    match IndexOfInstance(rows, id)
    case None => None
    case Some(i) => Some(rows[i])
  }

  // ---- WorkflowStepRepository ----

  /** `GetByInstanceIdAsync`: the instance's steps, by start time ascending. */
  function StepsOfInstance(rows: seq<WorkflowStep>, instanceId: Guid): (r: seq<WorkflowStep>)
    ensures forall s :: multiset(r)[s] == if s.instanceId == instanceId then multiset(rows)[s] else 0
    ensures forall i, j :: 0 <= i < j < |r| ==> r[i].startedAt <= r[j].startedAt
  {
    SortAsc(Filter(rows, (s: WorkflowStep) => s.instanceId == instanceId), (s: WorkflowStep) => s.startedAt)
  }

  /** `GetCurrentStepAsync`: a step of the instance with the latest start time. */
  function CurrentStep(rows: seq<WorkflowStep>, instanceId: Guid): (r: Option<WorkflowStep>)
    ensures r.Some? ==> r.value in rows && r.value.instanceId == instanceId
    ensures r.Some? ==> forall s :: s in rows && s.instanceId == instanceId ==> s.startedAt <= r.value.startedAt
    ensures r.None? <==> forall s :: s in rows ==> s.instanceId != instanceId
  {
    var own := Filter(rows, (s: WorkflowStep) => s.instanceId == instanceId);
    assert own != [] ==> own[0] in own;
    MaxBy(own, (s: WorkflowStep) => s.startedAt)
  }

  // ---- ApprovalTaskRepository ----

  /** Sort key of a nullable due date: `OrderBy` puts null before every date. */
  function DueKey(t: ApprovalTask): (k: int)
    ensures t.dueDate.None? ==> k < 0
    ensures t.dueDate.Some? ==> k == t.dueDate.value
  {
    match t.dueDate
    case None => -1
    case Some(d) => d
  }

  /** `GetByAssigneeAsync`: the assignee's tasks, newest first. */
  function TasksByAssignee(rows: seq<ApprovalTask>, assignee: string): (r: seq<ApprovalTask>)
    ensures forall t :: multiset(r)[t] == if t.assignedTo == assignee then multiset(rows)[t] else 0
    ensures forall i, j :: 0 <= i < j < |r| ==> r[i].createdAt >= r[j].createdAt
  {
    SortDesc(Filter(rows, (t: ApprovalTask) => t.assignedTo == assignee), (t: ApprovalTask) => t.createdAt)
  }

  /** `GetPendingTasksAsync`: exactly the assignee's Pending tasks, earliest due date first. */
  function PendingTasks(rows: seq<ApprovalTask>, assignee: string): (r: seq<ApprovalTask>)
    ensures forall t :: multiset(r)[t] ==
                        if t.assignedTo == assignee && t.status == Pending then multiset(rows)[t] else 0
    ensures forall i, j :: 0 <= i < j < |r| ==> DueKey(r[i]) <= DueKey(r[j])
  {
    SortAsc(Filter(rows, (t: ApprovalTask) => t.assignedTo == assignee && t.status == Pending), DueKey)
  }

  /** `GetByDocumentIdAsync` of tasks: the document's tasks, oldest first. */
  function TasksByDocument(rows: seq<ApprovalTask>, documentId: Guid): (r: seq<ApprovalTask>)
    ensures forall t :: multiset(r)[t] == if t.documentId == documentId then multiset(rows)[t] else 0
    ensures forall i, j :: 0 <= i < j < |r| ==> r[i].createdAt <= r[j].createdAt
  {
    SortAsc(Filter(rows, (t: ApprovalTask) => t.documentId == documentId), (t: ApprovalTask) => t.createdAt)
  }

  // ---- ApprovalPolicyRepository ----

  /** `GetActiveByDocumentTypeAsync` of policies: active policies of the type, highest priority first. */
  function ActivePolicies(rows: seq<ApprovalPolicy>, documentType: string): (r: seq<ApprovalPolicy>)
    ensures forall p :: multiset(r)[p] ==
                        if p.documentType == documentType && p.isActive then multiset(rows)[p] else 0
    ensures forall i, j :: 0 <= i < j < |r| ==> r[i].priority >= r[j].priority
  {
    SortDesc(Filter(rows, (p: ApprovalPolicy) => p.documentType == documentType && p.isActive),
             (p: ApprovalPolicy) => p.priority)
  }

  /** `GetMatchingPolicyAsync`: a highest-priority active policy of the type. */
  function MatchingPolicy(rows: seq<ApprovalPolicy>, documentType: string, department: string, amount: Option<real>)
    : (r: Option<ApprovalPolicy>)
    ensures r.Some? ==> r.value in rows && r.value.documentType == documentType && r.value.isActive
    ensures r.Some? ==> forall p :: p in rows && p.documentType == documentType && p.isActive ==>
                          p.priority <= r.value.priority
    ensures r.None? <==> forall p :: p in rows ==> !(p.documentType == documentType && p.isActive)
  {
    var active := Filter(rows, (p: ApprovalPolicy) => p.documentType == documentType && p.isActive);
    assert active != [] ==> active[0] in active;
    MaxBy(active, (p: ApprovalPolicy) => p.priority)
  }

  /** The matching policy depends on neither the department nor the amount. */
  lemma MatchingPolicyIgnoresConditions(rows: seq<ApprovalPolicy>, documentType: string,
                                        d1: string, a1: Option<real>, d2: string, a2: Option<real>)
    ensures MatchingPolicy(rows, documentType, d1, a1) == MatchingPolicy(rows, documentType, d2, a2)
  {
  }
}
