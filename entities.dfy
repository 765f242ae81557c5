/** The domain records (Domain/Entities) and the status strings the services write into them. */
module Entities {
  import opened Wrappers
  import Bpmn

  /** `Guid` identifiers; fresh ones come from a counter in the store. */
  type Guid = nat
  /** `DateTime` values, as whole seconds. */
  type Time = nat

  const SecondsPerDay: nat := 86400

  // WorkflowInstance.Status
  const Running := "Running"
  const Completed := "Completed"

  // Document.Status
  const Draft := "Draft"
  const Submitted := "Submitted"
  const InApproval := "InApproval"
  const Published := "Published"

  // ApprovalTask.Status (Approved, Rejected and ChangesRequested are also document statuses)
  const Pending := "Pending"
  const Approved := "Approved"
  const Rejected := "Rejected"
  const ChangesRequested := "ChangesRequested"

  datatype Document = Document(
    id: Guid,
    title: string,
    fileName: string,
    filePath: string,
    documentType: string,
    department: string,
    amount: Option<real>,
    status: string,
    submittedBy: string,
    createdAt: Time,
    submittedAt: Option<Time>,
    publishedAt: Option<Time>,
    metadata: string)

  /** `e` is `d` with at most its status and its publication time changed. */
  predicate StatusUpdate(d: Document, e: Document)
  {
    e == d.(status := e.status, publishedAt := e.publishedAt)
  }

  datatype WorkflowDefinition = WorkflowDefinition(
    id: Guid,
    name: string,
    description: string,
    documentType: string,
    version: int,
    isActive: bool,
    bpmnXml: Bpmn.Xml,
    parsedStructure: string,
    createdAt: Time,
    updatedAt: Option<Time>,
    createdBy: string)

  datatype WorkflowInstance = WorkflowInstance(
    id: Guid,
    definitionId: Guid,
    documentId: Guid,
    currentStepId: string,
    status: string,
    variables: string,
    startedAt: Time,
    completedAt: Option<Time>)

  /** One audit-trail entry (`WorkflowStep`). */
  datatype WorkflowStep = WorkflowStep(
    id: Guid,
    instanceId: Guid,
    stepId: string,
    stepName: string,
    stepType: string,
    status: string,
    result: string,
    executionData: string,
    errorMessage: string,
    startedAt: Time,
    completedAt: Option<Time>)

  datatype ApprovalTask = ApprovalTask(
    id: Guid,
    instanceId: Guid,
    documentId: Guid,
    taskName: string,
    assignedTo: string,
    status: string,
    comments: string,
    createdAt: Time,
    completedAt: Option<Time>,
    dueDate: Option<Time>)

  datatype ApprovalPolicy = ApprovalPolicy(
    id: Guid,
    name: string,
    documentType: string,
    department: string,
    conditions: string,
    approvers: string,
    requireAllApprovals: bool,
    priority: int,
    isActive: bool,
    createdAt: Time,
    updatedAt: Option<Time>)

  /** What a service call can throw: `InvalidOperationException`, the stack overflow of unbounded
      service-task recursion, and the database's refusal of a restricted delete. */
  datatype Error =
    | InvalidOperation(message: string)
    | RecursionLimit
    | ForeignKeyViolation
}
