/**
 * One run of the seeded system: the first sample invoice of DataSeeder.cs is submitted, the
 * engine validates it and stops at the manager's approval; the approval then publishes the
 * document and completes the instance.
 *
 * The seeded rows get the ids 1 to 6 in the order they are added, and the seeding instant is the
 * constant `SeedTime`; the submission happens at `now` and the approval at `later`.
 */
module SeededRun {
  import opened Wrappers
  import opened Entities
  import opened Repositories
  import opened Bpmn
  import opened Activities
  import opened Store
  import opened Engine
  import opened Documents
  import opened Approvals
  import opened SeededGraph
  import Text

  const SeedTime: Time := 1710460800

  const ManagerOnly := ApprovalPolicy(1, "Invoice - Manager Only", "Invoice", "Finance",
    "{\"amount\": {\"lessThan\": 1000}}", "manager@company.com", true, 1, true, SeedTime, None)
  const MultiLevel := ApprovalPolicy(2, "Invoice - Multi-Level", "Invoice", "Finance",
    "{\"amount\": {\"greaterThanOrEqual\": 1000}}", "manager@company.com,finance.director@company.com",
    true, 2, true, SeedTime, None)

  /** The seeded definition, with the BPMN document `g`. */
  function SimpleWorkflow(g: Xml): WorkflowDefinition
  {
    WorkflowDefinition(3, "Simple Document Approval", "Basic approval workflow for demo purposes",
      "Invoice", 1, true, g, "{}", SeedTime, None, "system")
  }

  const OfficeInvoice := Document(4, "Office Supplies Invoice - March 2024", "invoice-2024-03-15.pdf",
    "/documents/invoice-2024-03-15.pdf", "Invoice", "Finance", Some(450.0), Draft, "john.doe@company.com",
    SeedTime - 2 * SecondsPerDay, None, None, "{}")
  const SoftwareInvoice := Document(5, "Software License Invoice - Q1 2024", "invoice-software-q1-2024.pdf",
    "/documents/invoice-software-q1-2024.pdf", "Invoice", "IT", Some(5500.0), Draft, "jane.smith@company.com",
    SeedTime - SecondsPerDay, None, None, "{}")
  const ConsultingContract := Document(6, "Consulting Services Contract", "contract-consulting-2024.pdf",
    "/documents/contract-consulting-2024.pdf", "Contract", "Legal", Some(25000.0), Draft, "bob.johnson@company.com",
    SeedTime, None, None, "{}")

  /** The database right after seeding, the definition holding the BPMN document `g`. */
  function SeededWith(g: Xml): State
  {
    State([OfficeInvoice, SoftwareInvoice, ConsultingContract], [SimpleWorkflow(g)], [], [], [],
          [ManagerOnly, MultiLevel], 7)
  }

  /** The database right after seeding. */
  function Seeded(): State
  {
    SeededWith(SeededXml)
  }

  /** The resolutions the run relies on, which the seeded document has. */
  ghost predicate ResolvesAsSeeded(g: Xml)
  {
    && FindNextStep(g, "") == Some(ValidateStep)
    && FindNextStep(g, "Task_Validate") == Some(ApproveStep)
    && FindNextStep(g, "Task_Approve") == Some(PublishStep)
    && FindNextStep(g, "Task_Publish") == Some(EndStep)
    && FindNextStep(g, "EndEvent_1") == None
  }

  lemma SeededResolves()
    ensures ResolvesAsSeeded(SeededXml)
  {
    FromStart();
    FromValidate();
    FromApprove();
    FromPublish();
    FromEnd();
  }

  // ---- Submission, stage by stage ----

  /** The office invoice marked submitted at `now`. */
  function Marked(g: Xml, now: Time): State
  {
    SeededWith(g).(documents := SeededWith(g).documents[0 := OfficeInvoice.(status := Submitted, submittedAt := Some(now))])
  }

  /** The new instance 7, running at no node yet. */
  function Started(g: Xml, now: Time): State
  {
    AddInstance(Marked(g, now), 3, 4, now)
  }

  /** Step 8 logged, the invoice validated, and the instance moved onto the validation task. */
  function Validated(g: Xml, now: Time): State
  {
    var s := LogStep(Started(g, now), 7, ValidateStep, now);
    Park(s.(documents := s.documents[0 := s.documents[0].(status := InApproval)]), 0, "Task_Validate")
  }

  /** Step 9 logged, approval task 10 opened, and the instance parked on the approval task. */
  function AwaitingApproval(g: Xml, now: Time): State
  {
    EnterUserTask(LogStep(Validated(g, now), 7, ApproveStep, now), 0, ApproveStep, now)
  }

  // The node kinds of the seeded elements, folded to lower case as the engine compares them.

  lemma LowerServiceTask()
    ensures Text.ToLower("serviceTask") == "servicetask"
  {
  }

  lemma LowerUserTask()
    ensures Text.ToLower("userTask") == "usertask"
  {
  }

  lemma LowerEndEvent()
    ensures Text.ToLower("endEvent") == "endevent"
  {
  }

  /** The invoice type has exactly the seeded workflow as its active definition. */
  lemma InvoiceWorkflow(g: Xml)
    ensures ActiveByDocumentType(SeededWith(g).definitions, "Invoice") == Some(SimpleWorkflow(g))
  {
    assert SimpleWorkflow(g) in SeededWith(g).definitions;
  }

  lemma SubmitMarksAndStarts(g: Xml, now: Time, fuel: nat)
    ensures var started := StartInstance(Marked(g, now), DefaultRegistry, 3, 4, now, fuel);
      SubmitDocument(SeededWith(g), DefaultRegistry, 4, now, fuel) ==
        (started.0, if started.1.Failure? then Failure(started.1.error) else Success(true))
  {
    InvoiceWorkflow(g);
  }

  lemma StartAdvances(g: Xml, now: Time, fuel: nat)
    ensures var adv := Advance(Started(g, now), DefaultRegistry, 7, now, fuel);
      StartInstance(Marked(g, now), DefaultRegistry, 3, 4, now, fuel) ==
        (adv.0, if adv.1.Failure? then Failure(adv.1.error) else Success(adv.0.instances[0]))
  {
    assert IndexOfDefinition(Marked(g, now).definitions, 3) == Some(0);
  }

  lemma FirstAdvance(g: Xml, now: Time, fuel: nat)
    requires ResolvesAsSeeded(g)
    ensures Advance(Started(g, now), DefaultRegistry, 7, now, fuel) ==
            EnterNode(Started(g, now), DefaultRegistry, 0, ValidateStep, now, fuel)
  {
    var s := Started(g, now);
    assert IndexOfInstance(s.instances, 7) == Some(0);
    assert IndexOfDefinition(s.definitions, 3) == Some(0);
  }

  /** The registry resolves both seeded service tasks by their exact names. */
  lemma SeededHandlers()
    ensures Resolve(DefaultRegistry, "Validate Document") == Some(ValidateDocument)
    ensures Resolve(DefaultRegistry, "Publish Document") == Some(PublishDocument)
  {
    assert KeyIndex(DefaultRegistry, "Validate Document") == Some(0);
    KeyIndexIs(DefaultRegistry, "Publish Document", 1);
  }

  /** The validation handler accepts the submitted invoice: it has a title and a type. */
  lemma ValidationHandled(g: Xml, now: Time)
    ensures HandleServiceTask(Started(g, now), DefaultRegistry, 0, ValidateStep, now) == Success(Validated(g, now))
  {
    var s1 := LogStep(Started(g, now), 7, ValidateStep, now);
    assert IndexOfDocument(s1.documents, 4) == Some(0);
    SeededHandlers();
    var d := s1.documents[0];
    assert d.title != "" && d.documentType != "";
    assert Execute(ValidateDocument, Some(d), now) == Success(d.(status := InApproval));
  }

  /** The validation task is entered as a service task. */
  lemma ValidationIsServiceTask(g: Xml, now: Time, fuel: nat)
    ensures EnterNode(Started(g, now), DefaultRegistry, 0, ValidateStep, now, fuel) ==
            EnterServiceTask(Started(g, now), DefaultRegistry, 0, ValidateStep, now, fuel)
  {
    LowerServiceTask();
  }

  /** The validation task runs its handler, saves, and re-enters the engine with `fuel` left. */
  lemma ValidationRuns(g: Xml, now: Time, fuel: nat)
    ensures var rest := Advance(Validated(g, now), DefaultRegistry, 7, now, fuel);
      EnterNode(Started(g, now), DefaultRegistry, 0, ValidateStep, now, fuel + 1) ==
        (rest.0, if rest.1.Failure? then rest.1 else Success(true))
  {
    var more := fuel + 1;
    ValidationIsServiceTask(g, now, more);
    ValidationHandled(g, now);
    var s := Started(g, now);
    assert EnterServiceTask(s, DefaultRegistry, 0, ValidateStep, now, more) ==
           Reenter(Validated(g, now), DefaultRegistry, 7, now, more);
  }

  /** The re-entry opens the approval task and parks the instance on it. */
  lemma SecondAdvance(g: Xml, now: Time, fuel: nat)
    requires ResolvesAsSeeded(g)
    ensures Advance(Validated(g, now), DefaultRegistry, 7, now, fuel) == (AwaitingApproval(g, now), Success(true))
  {
    var s := Validated(g, now);
    assert IndexOfInstance(s.instances, 7) == Some(0);
    assert IndexOfDefinition(s.definitions, 3) == Some(0);
    assert s.instances[0].currentStepId == "Task_Validate";
    LowerUserTask();
  }

  /** The validation task, followed by the approval task. */
  lemma {:induction false} RunFromValidation(g: Xml, now: Time, fuel: nat)
    requires ResolvesAsSeeded(g)
    ensures EnterNode(Started(g, now), DefaultRegistry, 0, ValidateStep, now, fuel + 1) ==
            (AwaitingApproval(g, now), Success(true))
  {
    SecondAdvance(g, now, fuel);
    ValidationRuns(g, now, fuel);
  }

  /** The engine's run from the new instance: validation, then the approval task. */
  lemma {:induction false} RunFromStart(g: Xml, now: Time, fuel: nat)
    requires ResolvesAsSeeded(g)
    ensures Advance(Started(g, now), DefaultRegistry, 7, now, fuel + 1) == (AwaitingApproval(g, now), Success(true))
  {
    FirstAdvance(g, now, fuel + 1);
    RunFromValidation(g, now, fuel);
  }

  /** Starting the workflow on the marked invoice yields the instance parked at the approval task. */
  lemma StartRuns(g: Xml, now: Time, fuel: nat)
    requires ResolvesAsSeeded(g)
    ensures StartInstance(Marked(g, now), DefaultRegistry, 3, 4, now, fuel + 1) ==
            (AwaitingApproval(g, now), Success(AwaitingApproval(g, now).instances[0]))
  {
    StartAdvances(g, now, fuel + 1);
    RunFromStart(g, now, fuel);
  }

  /** The submission, from the seeded state to the open approval task. */
  lemma SubmissionStages(g: Xml, now: Time, fuel: nat)
    requires ResolvesAsSeeded(g)
    ensures SubmitDocument(SeededWith(g), DefaultRegistry, 4, now, fuel + 1) == (AwaitingApproval(g, now), Success(true))
  {
    SubmitMarksAndStarts(g, now, fuel + 1);
    StartRuns(g, now, fuel);
  }

  /** The rows of the state after the submission. */
  lemma AwaitingApprovalRows(g: Xml, now: Time)
    ensures AwaitingApproval(g, now) == SeededWith(g).(
      documents := [OfficeInvoice.(status := InApproval, submittedAt := Some(now)), SoftwareInvoice, ConsultingContract],
      instances := [WorkflowInstance(7, 3, 4, "Task_Approve", Running, "{}", now, None)],
      steps := [WorkflowStep(8, 7, "Task_Validate", "Validate Document", "serviceTask", Completed, "", "{}", "", now, Some(now)),
                WorkflowStep(9, 7, "Task_Approve", "Manager Approval", "userTask", Completed, "", "{}", "", now, Some(now))],
      tasks := [ApprovalTask(10, 7, 4, "Manager Approval", "manager@company.com", Pending, "", now, None,
                             Some(now + 3 * SecondsPerDay))],
      nextId := 11)
  {
  }

  /**
   * Submitting the office invoice of the seeded database: the answer is `true`; the invoice is
   * waiting for approval; the new instance 7 is running at the approval task; the validation and
   * the approval steps are logged as completed; and one pending task for the manager is due three
   * days later. The other two documents are untouched.
   */
  lemma SubmittingTheOfficeInvoice(now: Time, fuel: nat)
    ensures var res := SubmitDocument(Seeded(), DefaultRegistry, 4, now, fuel + 1);
      && res.1 == Success(true)
      && res.0.documents == [OfficeInvoice.(status := InApproval, submittedAt := Some(now)), SoftwareInvoice, ConsultingContract]
      && res.0.instances == [WorkflowInstance(7, 3, 4, "Task_Approve", Running, "{}", now, None)]
      && res.0.steps == [WorkflowStep(8, 7, "Task_Validate", "Validate Document", "serviceTask", Completed, "", "{}", "", now, Some(now)),
                         WorkflowStep(9, 7, "Task_Approve", "Manager Approval", "userTask", Completed, "", "{}", "", now, Some(now))]
      && res.0.tasks == [ApprovalTask(10, 7, 4, "Manager Approval", "manager@company.com", Pending, "", now, None,
                                      Some(now + 3 * SecondsPerDay))]
      && res.0.definitions == Seeded().definitions && res.0.policies == Seeded().policies
  {
    SeededResolves();
    SubmissionStages(SeededXml, now, fuel);
    AwaitingApprovalRows(SeededXml, now);
  }

  // ---- Approval, stage by stage ----

  /** The manager's approval of task 10 at `later`: task and invoice are marked approved. */
  function Decided(g: Xml, now: Time, later: Time, comments: string): State
  {
    var s := AwaitingApproval(g, now);
    s.(tasks := s.tasks[0 := s.tasks[0].(status := Approved, comments := comments, completedAt := Some(later))],
       documents := s.documents[0 := s.documents[0].(status := Approved)])
  }

  /** The decision on task 10 writes exactly the approved task and the approved invoice. */
  lemma ApprovalWrites(g: Xml, now: Time, later: Time, comments: string)
    ensures Decide(AwaitingApproval(g, now), 0, "approve", comments, later) == Decided(g, now, later, comments)
  {
    assert IndexOfDocument(AwaitingApproval(g, now).documents, 4) == Some(0);
  }

  /** Step 11 logged, the invoice published, and the instance moved onto the publishing task. */
  function PublishedStage(g: Xml, now: Time, later: Time, comments: string): State
  {
    var s := LogStep(Decided(g, now, later, comments), 7, PublishStep, later);
    Park(s.(documents := s.documents[0 := s.documents[0].(status := Published, publishedAt := Some(later))]), 0, "Task_Publish")
  }

  /** Step 12 logged for the end event, the instance completed, and the invoice published again. */
  function CompletedStage(g: Xml, now: Time, later: Time, comments: string): State
  {
    EnterEndEvent(LogStep(PublishedStage(g, now, later, comments), 7, EndStep, later), 0, later)
  }

  /** Approving the pending task 10 decides it and advances its instance. */
  lemma ApprovalDecides(g: Xml, now: Time, later: Time, comments: string, fuel: nat)
    ensures var adv := Advance(Decided(g, now, later, comments), DefaultRegistry, 7, later, fuel);
      CompleteTask(AwaitingApproval(g, now), DefaultRegistry, 10, "approve", comments, later, fuel) ==
        (adv.0, if adv.1.Failure? then Failure(adv.1.error) else Success(true))
  {
    var s := AwaitingApproval(g, now);
    assert IndexOfTask(s.tasks, 10) == Some(0);
    ApprovalWrites(g, now, later, comments);
    assert IndexOfInstance(Decided(g, now, later, comments).instances, 7) == Some(0);
  }

  /** From the approval task the engine enters the publishing task. */
  lemma ThirdAdvance(g: Xml, now: Time, later: Time, comments: string, fuel: nat)
    requires ResolvesAsSeeded(g)
    ensures Advance(Decided(g, now, later, comments), DefaultRegistry, 7, later, fuel) ==
            EnterNode(Decided(g, now, later, comments), DefaultRegistry, 0, PublishStep, later, fuel)
  {
    var s := Decided(g, now, later, comments);
    assert IndexOfInstance(s.instances, 7) == Some(0);
    assert IndexOfDefinition(s.definitions, 3) == Some(0);
    assert s.instances[0].currentStepId == "Task_Approve";
  }

  /** The publishing task is entered as a service task. */
  lemma PublishIsServiceTask(g: Xml, now: Time, later: Time, comments: string, fuel: nat)
    ensures EnterNode(Decided(g, now, later, comments), DefaultRegistry, 0, PublishStep, later, fuel) ==
            EnterServiceTask(Decided(g, now, later, comments), DefaultRegistry, 0, PublishStep, later, fuel)
  {
    LowerServiceTask();
  }

  /** The publishing handler marks the invoice published at `later`. */
  lemma PublishHandled(g: Xml, now: Time, later: Time, comments: string)
    ensures HandleServiceTask(Decided(g, now, later, comments), DefaultRegistry, 0, PublishStep, later) ==
            Success(PublishedStage(g, now, later, comments))
  {
    var s1 := LogStep(Decided(g, now, later, comments), 7, PublishStep, later);
    assert IndexOfDocument(s1.documents, 4) == Some(0);
    SeededHandlers();
  }

  /** The publishing task runs its handler, saves, and re-enters the engine with `fuel` left. */
  lemma PublishRuns(g: Xml, now: Time, later: Time, comments: string, fuel: nat)
    ensures var rest := Advance(PublishedStage(g, now, later, comments), DefaultRegistry, 7, later, fuel);
      EnterNode(Decided(g, now, later, comments), DefaultRegistry, 0, PublishStep, later, fuel + 1) ==
        (rest.0, if rest.1.Failure? then rest.1 else Success(true))
  {
    var more := fuel + 1;
    PublishIsServiceTask(g, now, later, comments, more);
    PublishHandled(g, now, later, comments);
    var s := Decided(g, now, later, comments);
    assert EnterServiceTask(s, DefaultRegistry, 0, PublishStep, later, more) ==
           Reenter(PublishedStage(g, now, later, comments), DefaultRegistry, 7, later, more);
  }

  /** From the publishing task the engine enters the end event. */
  lemma FourthAdvance(g: Xml, now: Time, later: Time, comments: string, fuel: nat)
    requires ResolvesAsSeeded(g)
    ensures Advance(PublishedStage(g, now, later, comments), DefaultRegistry, 7, later, fuel) ==
            EnterNode(PublishedStage(g, now, later, comments), DefaultRegistry, 0, EndStep, later, fuel)
  {
    var s := PublishedStage(g, now, later, comments);
    assert IndexOfInstance(s.instances, 7) == Some(0);
    assert IndexOfDefinition(s.definitions, 3) == Some(0);
    assert s.instances[0].currentStepId == "Task_Publish";
  }

  /** The end event completes the instance. */
  lemma EndReached(g: Xml, now: Time, later: Time, comments: string, fuel: nat)
    ensures EnterNode(PublishedStage(g, now, later, comments), DefaultRegistry, 0, EndStep, later, fuel) ==
            (CompletedStage(g, now, later, comments), Success(true))
  {
    LowerEndEvent();
  }

  /** The re-entry after publication reaches the end event. */
  lemma {:induction false} RunToEnd(g: Xml, now: Time, later: Time, comments: string, fuel: nat)
    requires ResolvesAsSeeded(g)
    ensures Advance(PublishedStage(g, now, later, comments), DefaultRegistry, 7, later, fuel) ==
            (CompletedStage(g, now, later, comments), Success(true))
  {
    FourthAdvance(g, now, later, comments, fuel);
    EndReached(g, now, later, comments, fuel);
  }

  /** The publishing task, followed by the end event. */
  lemma {:induction false} RunFromPublish(g: Xml, now: Time, later: Time, comments: string, fuel: nat)
    requires ResolvesAsSeeded(g)
    ensures EnterNode(Decided(g, now, later, comments), DefaultRegistry, 0, PublishStep, later, fuel + 1) ==
            (CompletedStage(g, now, later, comments), Success(true))
  {
    RunToEnd(g, now, later, comments, fuel);
    PublishRuns(g, now, later, comments, fuel);
  }

  /** The engine's run after the approval: publication, then the end event. */
  lemma {:induction false} RunFromApproval(g: Xml, now: Time, later: Time, comments: string, fuel: nat)
    requires ResolvesAsSeeded(g)
    ensures Advance(Decided(g, now, later, comments), DefaultRegistry, 7, later, fuel + 1) ==
            (CompletedStage(g, now, later, comments), Success(true))
  {
    ThirdAdvance(g, now, later, comments, fuel + 1);
    RunFromPublish(g, now, later, comments, fuel);
  }

  /** The approval, from the open task to the completed instance. */
  lemma ApprovalStages(g: Xml, now: Time, later: Time, comments: string, fuel: nat)
    requires ResolvesAsSeeded(g)
    ensures CompleteTask(AwaitingApproval(g, now), DefaultRegistry, 10, "approve", comments, later, fuel + 1) ==
            (CompletedStage(g, now, later, comments), Success(true))
  {
    ApprovalDecides(g, now, later, comments, fuel + 1);
    RunFromApproval(g, now, later, comments, fuel);
  }

  /** The rows of the state after the approval. */
  lemma CompletedRows(g: Xml, now: Time, later: Time, comments: string)
    ensures CompletedStage(g, now, later, comments) == SeededWith(g).(
      documents := [OfficeInvoice.(status := Published, submittedAt := Some(now), publishedAt := Some(later)),
                    SoftwareInvoice, ConsultingContract],
      instances := [WorkflowInstance(7, 3, 4, "Task_Publish", Completed, "{}", now, Some(later))],
      steps := [WorkflowStep(8, 7, "Task_Validate", "Validate Document", "serviceTask", Completed, "", "{}", "", now, Some(now)),
                WorkflowStep(9, 7, "Task_Approve", "Manager Approval", "userTask", Completed, "", "{}", "", now, Some(now)),
                WorkflowStep(11, 7, "Task_Publish", "Publish Document", "serviceTask", Completed, "", "{}", "", later, Some(later)),
                WorkflowStep(12, 7, "EndEvent_1", "Complete", "endEvent", Completed, "", "{}", "", later, Some(later))],
      tasks := [ApprovalTask(10, 7, 4, "Manager Approval", "manager@company.com", Approved, comments, now, Some(later),
                             Some(now + 3 * SecondsPerDay))],
      nextId := 13)
  {
  }

  /**
   * Approving task 10 at `later`, after the submission at `now`: the answer is `true`; the task is
   * approved with the comments; the invoice is published at `later`; the publishing and the end
   * steps are logged; and instance 7 is completed at `later`, its last node the publishing task.
   */
  lemma ApprovingTheOfficeInvoice(now: Time, later: Time, comments: string, fuel: nat)
    ensures var submitted := SubmitDocument(Seeded(), DefaultRegistry, 4, now, fuel + 1).0;
      var res := CompleteTask(submitted, DefaultRegistry, 10, "approve", comments, later, fuel + 1);
      && res.1 == Success(true)
      && res.0.documents == [OfficeInvoice.(status := Published, submittedAt := Some(now), publishedAt := Some(later)),
                             SoftwareInvoice, ConsultingContract]
      && res.0.instances == [WorkflowInstance(7, 3, 4, "Task_Publish", Completed, "{}", now, Some(later))]
      && res.0.steps == [WorkflowStep(8, 7, "Task_Validate", "Validate Document", "serviceTask", Completed, "", "{}", "", now, Some(now)),
                         WorkflowStep(9, 7, "Task_Approve", "Manager Approval", "userTask", Completed, "", "{}", "", now, Some(now)),
                         WorkflowStep(11, 7, "Task_Publish", "Publish Document", "serviceTask", Completed, "", "{}", "", later, Some(later)),
                         WorkflowStep(12, 7, "EndEvent_1", "Complete", "endEvent", Completed, "", "{}", "", later, Some(later))]
      && res.0.tasks == [ApprovalTask(10, 7, 4, "Manager Approval", "manager@company.com", Approved, comments, now, Some(later),
                                      Some(now + 3 * SecondsPerDay))]
  {
    SeededResolves();
    SubmissionStages(SeededXml, now, fuel);
    ApprovalStages(SeededXml, now, later, comments, fuel);
    CompletedRows(SeededXml, now, later, comments);
  }

  // ---- Rejection ----

  /** Rejecting the pending task 10 decides it and does not advance the instance. */
  lemma RejectionDecides(g: Xml, now: Time, later: Time, comments: string, fuel: nat)
    ensures CompleteTask(AwaitingApproval(g, now), DefaultRegistry, 10, "reject", comments, later, fuel) ==
            (Decide(AwaitingApproval(g, now), 0, "reject", comments, later), Success(true))
  {
    assert IndexOfTask(AwaitingApproval(g, now).tasks, 10) == Some(0);
  }

  /** The rows of the state after the rejection. */
  lemma RejectedRows(g: Xml, now: Time, later: Time, comments: string)
    ensures Decide(AwaitingApproval(g, now), 0, "reject", comments, later) == SeededWith(g).(
      documents := [OfficeInvoice.(status := Rejected, submittedAt := Some(now)), SoftwareInvoice, ConsultingContract],
      instances := [WorkflowInstance(7, 3, 4, "Task_Approve", Running, "{}", now, None)],
      steps := [WorkflowStep(8, 7, "Task_Validate", "Validate Document", "serviceTask", Completed, "", "{}", "", now, Some(now)),
                WorkflowStep(9, 7, "Task_Approve", "Manager Approval", "userTask", Completed, "", "{}", "", now, Some(now))],
      tasks := [ApprovalTask(10, 7, 4, "Manager Approval", "manager@company.com", Rejected, comments, now, Some(later),
                             Some(now + 3 * SecondsPerDay))],
      nextId := 11)
  {
    assert IndexOfDocument(AwaitingApproval(g, now).documents, 4) == Some(0);
  }

  /**
   * Rejecting task 10 at `later`, after the submission at `now`: the answer is `true`; the task
   * and the invoice are rejected; no step is logged; and instance 7 stays running at the approval
   * task.
   */
  lemma RejectingTheOfficeInvoice(now: Time, later: Time, comments: string, fuel: nat)
    ensures var submitted := SubmitDocument(Seeded(), DefaultRegistry, 4, now, fuel + 1).0;
      var res := CompleteTask(submitted, DefaultRegistry, 10, "reject", comments, later, fuel);
      && res.1 == Success(true)
      && res.0.documents == [OfficeInvoice.(status := Rejected, submittedAt := Some(now)), SoftwareInvoice, ConsultingContract]
      && res.0.instances == [WorkflowInstance(7, 3, 4, "Task_Approve", Running, "{}", now, None)]
      && res.0.steps == [WorkflowStep(8, 7, "Task_Validate", "Validate Document", "serviceTask", Completed, "", "{}", "", now, Some(now)),
                         WorkflowStep(9, 7, "Task_Approve", "Manager Approval", "userTask", Completed, "", "{}", "", now, Some(now))]
      && res.0.tasks == [ApprovalTask(10, 7, 4, "Manager Approval", "manager@company.com", Rejected, comments, now, Some(later),
                                      Some(now + 3 * SecondsPerDay))]
  {
    SeededResolves();
    SubmissionStages(SeededXml, now, fuel);
    RejectionDecides(SeededXml, now, later, comments, fuel);
    RejectedRows(SeededXml, now, later, comments);
  }
}
