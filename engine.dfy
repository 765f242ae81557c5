/**
 * The execution core of WorkflowEngineService.cs: starting an instance and advancing it one node
 * at a time along the definition's BPMN graph.
 *
 * `Advance` is the specification of `ExecuteNextStepAsync` over a `State`; `StartInstance` is the
 * specification of `StartWorkflowAsync`. Clocks are the parameter `now`. The engine's recursion
 * through service tasks is unbounded in the source; here `fuel` counts how many nested re-entries
 * may still happen, and running out is the `RecursionLimit` failure.
 */
module Engine {
  import opened Wrappers
  import opened Entities
  import opened Repositories
  import opened Bpmn
  import opened Activities
  import opened Store
  import Text

  /** The fixed assignee of every approval task. */
  const ManagerAssignee := "manager@company.com"
  /** Days until an approval task is due. */
  const ApprovalDueDays: nat := 3

  /** The audit entry for `node`, logged as already completed. */
  function NewStepRecord(id: Guid, instanceId: Guid, node: Step, now: Time): WorkflowStep
  {
    WorkflowStep(id, instanceId, node.id, node.name, node.kind, Completed, "", "{}", "", now, Some(now))
  }

  /** The approval task a user task opens for the instance's document. */
  function NewApprovalTask(id: Guid, inst: WorkflowInstance, node: Step, now: Time): ApprovalTask
  {
    ApprovalTask(id, inst.id, inst.documentId, node.name, ManagerAssignee, Pending, "", now, None,
                 Some(now + ApprovalDueDays * SecondsPerDay))
  }

  /** The document the instance `iid` is attached to, if the instance exists. */
  function DocumentOf(s: State, iid: Guid): Option<Guid>
  {
    match IndexOfInstance(s.instances, iid)
    case None => None
    case Some(i) => Some(s.instances[i].documentId)
  }

  /**
   * What advancing instance `iid` may do to the tables: definitions and policies are untouched,
   * no row is added to or removed from documents and instances, and no row changes its identity;
   * only the instance `iid` and its document change; steps and tasks only grow, with fresh ids,
   * and every added row belongs to `iid` (and every added task is pending).
   */
  ghost predicate Extends(s: State, iid: Guid, t: State)
  {
    && t.definitions == s.definitions && t.policies == s.policies
    && |t.instances| == |s.instances| && |t.documents| == |s.documents|
    && s.steps <= t.steps && s.tasks <= t.tasks && s.nextId <= t.nextId
    && (forall j :: 0 <= j < |s.instances| ==>
          && t.instances[j].id == s.instances[j].id
          && t.instances[j].definitionId == s.instances[j].definitionId
          && t.instances[j].documentId == s.instances[j].documentId)
    && (forall j :: 0 <= j < |s.instances| && s.instances[j].id != iid ==> t.instances[j] == s.instances[j])
    && (forall j :: 0 <= j < |s.documents| ==> StatusUpdate(s.documents[j], t.documents[j]))
    && (forall j :: 0 <= j < |s.documents| && t.documents[j] != s.documents[j] ==>
          DocumentOf(s, iid) == Some(s.documents[j].id))
    && (forall k :: |s.steps| <= k < |t.steps| ==>
          t.steps[k].instanceId == iid && s.nextId <= t.steps[k].id < t.nextId)
    && (forall k :: |s.tasks| <= k < |t.tasks| ==>
          t.tasks[k].instanceId == iid && t.tasks[k].status == Pending && s.nextId <= t.tasks[k].id < t.nextId)
  }

  /** Advancing never undoes an earlier advance's guarantees. */
  lemma ExtendsTransitive(s: State, iid: Guid, t: State, u: State)
    requires Extends(s, iid, t) && Extends(t, iid, u)
    ensures Extends(s, iid, u)
  {
    assert IndexOfInstance(t.instances, iid) == IndexOfInstance(s.instances, iid) by {
      SameIdsSameIndex(s.instances, t.instances, iid);
    }
  }

  /** Looking an instance up only depends on the instances' ids. */
  lemma SameIdsSameIndex(a: seq<WorkflowInstance>, b: seq<WorkflowInstance>, id: Guid)
    requires |a| == |b| && forall j :: 0 <= j < |a| ==> a[j].id == b[j].id
    ensures IndexOfInstance(a, id) == IndexOfInstance(b, id)
  {
    match IndexOfInstance(a, id)
    case None =>
    case Some(i) =>
      assert IndexOfInstance(b, id).Some?;
      var k := IndexOfInstance(b, id).value;
      assert !(k < i) && !(i < k);
  }

  /** The step record for `node` is written, consuming one fresh id. */
  function LogStep(s: State, iid: Guid, node: Step, now: Time): State
  {
    s.(steps := s.steps + [NewStepRecord(s.nextId, iid, node, now)], nextId := s.nextId + 1)
  }

  /** Instance row `i` moves onto node `nodeId`. */
  function Park(s: State, i: nat, nodeId: string): State
    requires i < |s.instances|
  {
    s.(instances := s.instances[i := s.instances[i].(currentStepId := nodeId)])
  }

  /** Instance row `i` is completed at `now`. */
  function Finish(s: State, i: nat, now: Time): State
    requires i < |s.instances|
  {
    s.(instances := s.instances[i := s.instances[i].(status := Completed, completedAt := Some(now))])
  }

  /** A user task: open an approval task and park the instance on the node. */
  function EnterUserTask(s: State, i: nat, node: Step, now: Time): State
    requires i < |s.instances|
  {
    var s1 := s.(tasks := s.tasks + [NewApprovalTask(s.nextId, s.instances[i], node, now)], nextId := s.nextId + 1);
    Park(s1, i, node.id)
  }

  /** An end event: the instance completes and its document, if it exists, is published. */
  function EnterEndEvent(s: State, i: nat, now: Time): State
    requires i < |s.instances|
  {
    var s1 := Finish(s, i, now);
    match IndexOfDocument(s1.documents, s.instances[i].documentId)
    case None => s1
    case Some(k) => s1.(documents := s1.documents[k := s1.documents[k].(status := Published, publishedAt := Some(now))])
  }

  // ---- Each write stays within `Extends` ----

  lemma LogStepExtends(s: State, iid: Guid, node: Step, now: Time)
    ensures Extends(s, iid, LogStep(s, iid, node, now))
  {
  }

  lemma ParkExtends(s: State, i: nat, nodeId: string)
    requires i < |s.instances|
    ensures Extends(s, s.instances[i].id, Park(s, i, nodeId))
  {
  }

  lemma FinishExtends(s: State, i: nat, now: Time)
    requires i < |s.instances|
    ensures Extends(s, s.instances[i].id, Finish(s, i, now))
  {
  }

  lemma EnterUserTaskExtends(s: State, i: nat, node: Step, now: Time)
    requires i < |s.instances|
    ensures Extends(s, s.instances[i].id, EnterUserTask(s, i, node, now))
  {
    var s1 := s.(tasks := s.tasks + [NewApprovalTask(s.nextId, s.instances[i], node, now)], nextId := s.nextId + 1);
    assert Extends(s, s.instances[i].id, s1);
    ParkExtends(s1, i, node.id);
    ExtendsTransitive(s, s.instances[i].id, s1, Park(s1, i, node.id));
  }

  /** Publishing is allowed because the published document is the instance's own. */
  lemma EnterEndEventExtends(s: State, i: nat, now: Time)
    requires i < |s.instances| && IndexOfInstance(s.instances, s.instances[i].id) == Some(i)
    ensures Extends(s, s.instances[i].id, EnterEndEvent(s, i, now))
  {
    var iid := s.instances[i].id;
    var s1 := Finish(s, i, now);
    FinishExtends(s, i, now);
    match IndexOfDocument(s1.documents, s.instances[i].documentId)
    case None =>
    case Some(k) =>
      var s2 := s1.(documents := s1.documents[k := s1.documents[k].(status := Published, publishedAt := Some(now))]);
      assert DocumentOf(s1, iid) == Some(s1.documents[k].id) by {
        SameIdsSameIndex(s.instances, s1.instances, iid);
      }
      assert Extends(s1, iid, s2);
      ExtendsTransitive(s, iid, s1, s2);
  }

  /**
   * `ExecuteServiceTaskAsync(taskName, inst)`: the instance's document is handed to the handler the
   * registry resolves for the task name, and its result replaces it. Nothing happens without a
   * document or a handler; a handler's exception is passed on.
   */
  function RunServiceTask(s: State, reg: Registry, taskName: string, inst: WorkflowInstance, now: Time): (r: Result<State, Error>)
    ensures r.Success? ==> r.value.(documents := s.documents) == s && |r.value.documents| == |s.documents|
    ensures r.Success? ==> forall j :: 0 <= j < |s.documents| && s.documents[j].id != inst.documentId ==>
              r.value.documents[j] == s.documents[j]
    ensures r.Success? ==> forall j :: 0 <= j < |s.documents| ==> StatusUpdate(s.documents[j], r.value.documents[j])
    ensures r.Failure? ==> exists k :: 0 <= k < |s.documents| && s.documents[k].id == inst.documentId
    ensures IndexOfDocument(s.documents, inst.documentId).None? || Resolve(reg, taskName).None? ==> r == Success(s)
  {
    match IndexOfDocument(s.documents, inst.documentId)
    case None => Success(s)
    case Some(k) =>
      match Resolve(reg, taskName)
      case None => Success(s)
      case Some(a) =>
        match Execute(a, Some(s.documents[k]), now)
        case Failure(e) => Failure(e)
        case Success(d) =>
          ExecuteKeepsIdentity(a, s.documents[k], now);
          Success(s.(documents := s.documents[k := d]))
  }

  /** A handler's run stays within `Extends` when the document it changes is the instance's own. */
  lemma RunServiceTaskExtends(s: State, reg: Registry, taskName: string, inst: WorkflowInstance, now: Time)
    requires RunServiceTask(s, reg, taskName, inst, now).Success?
    requires DocumentOf(s, inst.id) == Some(inst.documentId)
    ensures Extends(s, inst.id, RunServiceTask(s, reg, taskName, inst, now).value)
  {
  }

  /**
   * `ExecuteNextStepAsync(iid)` with `fuel` re-entries left. The answer is `Success(false)` when
   * the instance is missing, not running, or its definition is missing; otherwise the next node is
   * resolved from the instance's current node, and no next node completes the instance.
   */
  function Advance(s: State, reg: Registry, iid: Guid, now: Time, fuel: nat): (State, Result<bool, Error>)
    decreases fuel, 3
  {
    match IndexOfInstance(s.instances, iid)
    case None => (s, Success(false))
    case Some(i) =>
      var inst := s.instances[i];
      if inst.status != Running then (s, Success(false))
      else
        match IndexOfDefinition(s.definitions, inst.definitionId)
        case None => (s, Success(false))
        case Some(d) =>
          match FindNextStep(s.definitions[d].bpmnXml, inst.currentStepId)
          case None => (Finish(s, i, now), Success(true))
          case Some(node) => EnterNode(s, reg, i, node, now, fuel)
  }

  /**
   * Instance row `i` arrives at `node`: a step record is written and the node's kind, ignoring
   * case, decides. A user task opens an approval task and parks the instance there. A service task
   * runs its handler, moves the instance onto the node, saves, and advances again: the re-entry's
   * failure is the call's failure, any other answer of it becomes `true`, and running out of
   * re-entries stands for the unbounded recursion. If the handler throws, the unsaved step record
   * is lost with the request. An end event completes the instance and publishes its document. Any
   * other kind (a gateway, say) only leaves the step record, and the instance stays where it was.
   */
  function EnterNode(s: State, reg: Registry, i: nat, node: Step, now: Time, fuel: nat): (State, Result<bool, Error>)
    requires i < |s.instances| && IndexOfInstance(s.instances, s.instances[i].id) == Some(i)
    decreases fuel, 2
  {
    var s1 := LogStep(s, s.instances[i].id, node, now);
    var kind := Text.ToLower(node.kind);
    if kind == "usertask" then
      (EnterUserTask(s1, i, node, now), Success(true))
    else if kind == "servicetask" then
      EnterServiceTask(s, reg, i, node, now, fuel)
    else if kind == "endevent" then
      (EnterEndEvent(s1, i, now), Success(true))
    else
      (s1, Success(true))
  }

  /** A service task: its handler, the save, and the re-entry. */
  function EnterServiceTask(s: State, reg: Registry, i: nat, node: Step, now: Time, fuel: nat): (State, Result<bool, Error>)
    requires i < |s.instances|
    decreases fuel, 1
  {
    match HandleServiceTask(s, reg, i, node, now)
    case Failure(e) => (s, Failure(e))
    case Success(s3) => Reenter(s3, reg, s.instances[i].id, now, fuel)
  }

  /** The recursive call after a service task; its answer, unless a failure, becomes `true`. */
  function Reenter(s: State, reg: Registry, iid: Guid, now: Time, fuel: nat): (State, Result<bool, Error>)
    decreases fuel, 0
  {
    if fuel == 0 then (s, Failure(RecursionLimit))
    else
      var rest := Advance(s, reg, iid, now, fuel - 1);
      (rest.0, if rest.1.Failure? then rest.1 else Success(true))
  }

  /** The step record, the handler, and the instance moved onto the node: what is saved before re-entry. */
  function HandleServiceTask(s: State, reg: Registry, i: nat, node: Step, now: Time): Result<State, Error>
    requires i < |s.instances|
  {
    var s1 := LogStep(s, s.instances[i].id, node, now);
    match RunServiceTask(s1, reg, node.name, s.instances[i], now)
    case Failure(e) => Failure(e)
    case Success(s2) => Success(Park(s2, i, node.id))
  }

  /** Every advance, however far the chain of service tasks runs, stays within `Extends`. */
  lemma {:induction false} AdvanceExtends(s: State, reg: Registry, iid: Guid, now: Time, fuel: nat)
    ensures Extends(s, iid, Advance(s, reg, iid, now, fuel).0)
    decreases fuel, 3
  {
    match IndexOfInstance(s.instances, iid)
    case None =>
    case Some(i) =>
      var inst := s.instances[i];
      if inst.status == Running && IndexOfDefinition(s.definitions, inst.definitionId).Some? {
        var d := IndexOfDefinition(s.definitions, inst.definitionId).value;
        match FindNextStep(s.definitions[d].bpmnXml, inst.currentStepId)
        case None => FinishExtends(s, i, now);
        case Some(node) => EnterNodeExtends(s, reg, i, node, now, fuel);
      }
  }

  /** Entering a node stays within `Extends`, the re-entry after a service task included. */
  lemma {:induction false} EnterNodeExtends(s: State, reg: Registry, i: nat, node: Step, now: Time, fuel: nat)
    requires i < |s.instances| && IndexOfInstance(s.instances, s.instances[i].id) == Some(i)
    ensures Extends(s, s.instances[i].id, EnterNode(s, reg, i, node, now, fuel).0)
    decreases fuel, 2
  {
    var iid := s.instances[i].id;
    var s1 := LogStep(s, iid, node, now);
    LogStepExtends(s, iid, node, now);
    var kind := Text.ToLower(node.kind);
    if kind == "usertask" {
      EnterUserTaskExtends(s1, i, node, now);
      ExtendsTransitive(s, iid, s1, EnterUserTask(s1, i, node, now));
    } else if kind == "servicetask" {
      EnterServiceTaskExtends(s, reg, i, node, now, fuel);
    } else if kind == "endevent" {
      assert IndexOfInstance(s1.instances, iid) == Some(i);
      EnterEndEventExtends(s1, i, now);
      ExtendsTransitive(s, iid, s1, EnterEndEvent(s1, i, now));
    }
  }

  /** The service task's handler and re-entry stay within `Extends`. */
  lemma {:induction false} EnterServiceTaskExtends(s: State, reg: Registry, i: nat, node: Step, now: Time, fuel: nat)
    requires i < |s.instances| && IndexOfInstance(s.instances, s.instances[i].id) == Some(i)
    ensures Extends(s, s.instances[i].id, EnterServiceTask(s, reg, i, node, now, fuel).0)
    decreases fuel, 1
  {
    var iid := s.instances[i].id;
    var s1 := LogStep(s, iid, node, now);
    LogStepExtends(s, iid, node, now);
    match RunServiceTask(s1, reg, node.name, s.instances[i], now)
    case Failure(e) =>
    case Success(s2) =>
      RunServiceTaskExtends(s1, reg, node.name, s.instances[i], now);
      ExtendsTransitive(s, iid, s1, s2);
      var s3 := Park(s2, i, node.id);
      ParkExtends(s2, i, node.id);
      ExtendsTransitive(s, iid, s2, s3);
      ReenterExtends(s3, reg, iid, now, fuel);
      ExtendsTransitive(s, iid, s3, Reenter(s3, reg, iid, now, fuel).0);
  }

  /** The re-entry stays within `Extends`. */
  lemma {:induction false} ReenterExtends(s: State, reg: Registry, iid: Guid, now: Time, fuel: nat)
    ensures Extends(s, iid, Reenter(s, reg, iid, now, fuel).0)
    decreases fuel, 0
  {
    if fuel > 0 {
      AdvanceExtends(s, reg, iid, now, fuel - 1);
    }
  }

  // ---- The fuel bound only cuts the recursion off ----

  /** An advance that did not run out of re-entries answers the same with one more. */
  lemma {:induction false} AdvanceFuel(s: State, reg: Registry, iid: Guid, now: Time, fuel: nat)
    requires Advance(s, reg, iid, now, fuel).1 != Failure(RecursionLimit)
    ensures Advance(s, reg, iid, now, fuel + 1) == Advance(s, reg, iid, now, fuel)
    decreases fuel, 3
  {
    match IndexOfInstance(s.instances, iid)
    case None =>
    case Some(i) =>
      var inst := s.instances[i];
      if inst.status == Running && IndexOfDefinition(s.definitions, inst.definitionId).Some? {
        var d := IndexOfDefinition(s.definitions, inst.definitionId).value;
        match FindNextStep(s.definitions[d].bpmnXml, inst.currentStepId)
        case None =>
        case Some(node) => EnterNodeFuel(s, reg, i, node, now, fuel);
      }
  }

  lemma {:induction false} EnterNodeFuel(s: State, reg: Registry, i: nat, node: Step, now: Time, fuel: nat)
    requires i < |s.instances| && IndexOfInstance(s.instances, s.instances[i].id) == Some(i)
    requires EnterNode(s, reg, i, node, now, fuel).1 != Failure(RecursionLimit)
    ensures EnterNode(s, reg, i, node, now, fuel + 1) == EnterNode(s, reg, i, node, now, fuel)
    decreases fuel, 2
  {
    if Text.ToLower(node.kind) == "servicetask" {
      EnterServiceTaskFuel(s, reg, i, node, now, fuel);
    }
  }

  lemma {:induction false} EnterServiceTaskFuel(s: State, reg: Registry, i: nat, node: Step, now: Time, fuel: nat)
    requires i < |s.instances|
    requires EnterServiceTask(s, reg, i, node, now, fuel).1 != Failure(RecursionLimit)
    ensures EnterServiceTask(s, reg, i, node, now, fuel + 1) == EnterServiceTask(s, reg, i, node, now, fuel)
    decreases fuel, 1
  {
    match HandleServiceTask(s, reg, i, node, now)
    case Failure(_) =>
    case Success(s3) => ReenterFuel(s3, reg, s.instances[i].id, now, fuel);
  }

  lemma {:induction false} ReenterFuel(s: State, reg: Registry, iid: Guid, now: Time, fuel: nat)
    requires Reenter(s, reg, iid, now, fuel).1 != Failure(RecursionLimit)
    ensures Reenter(s, reg, iid, now, fuel + 1) == Reenter(s, reg, iid, now, fuel)
    decreases fuel, 0
  {
    if fuel > 0 {
      var less := fuel - 1;
      var rest := Advance(s, reg, iid, now, less);
      assert Reenter(s, reg, iid, now, fuel) == (rest.0, if rest.1.Failure? then rest.1 else Success(true));
      AdvanceFuel(s, reg, iid, now, less);
    }
  }

  /**
   * Any larger bound gives the same advance: RecursionLimit is the only effect of the bound, so an
   * answer other than RecursionLimit is the answer of the unbounded recursion.
   */
  lemma {:induction false} AdvanceFuelSettled(s: State, reg: Registry, iid: Guid, now: Time, fuel: nat, more: nat)
    requires fuel <= more
    requires Advance(s, reg, iid, now, fuel).1 != Failure(RecursionLimit)
    ensures Advance(s, reg, iid, now, more) == Advance(s, reg, iid, now, fuel)
    decreases more - fuel
  {
    if fuel < more {
      AdvanceFuel(s, reg, iid, now, fuel);
      AdvanceFuelSettled(s, reg, iid, now, fuel + 1, more);
    }
  }

  /**
   * What an advance does to the documents: none is added or removed, only the instance's own
   * document can change, and no document changes more than its status and publication time.
   */
  lemma AdvanceDocuments(s: State, reg: Registry, iid: Guid, now: Time, fuel: nat, documentId: Guid)
    requires DocumentOf(s, iid) == Some(documentId)
    ensures var t := Advance(s, reg, iid, now, fuel).0;
      && |t.documents| == |s.documents|
      && (forall j :: 0 <= j < |s.documents| && s.documents[j].id != documentId ==> t.documents[j] == s.documents[j])
      && (forall j :: 0 <= j < |s.documents| ==> StatusUpdate(s.documents[j], t.documents[j]))
  {
    AdvanceExtends(s, reg, iid, now, fuel);
  }

  /**
   * `StartWorkflowAsync(definitionId, documentId)`: a missing definition throws; otherwise a
   * running instance with an empty current node is added and saved, and advanced once. The
   * instance returned is the new row as it stands afterwards.
   */
  function StartInstance(s: State, reg: Registry, definitionId: Guid, documentId: Guid, now: Time, fuel: nat)
    : (res: (State, Result<WorkflowInstance, Error>))
    ensures IndexOfDefinition(s.definitions, definitionId).None? <==>
            res == (s, Failure(InvalidOperation("Workflow definition not found")))
    ensures IndexOfDefinition(s.definitions, definitionId).Some? ==>
              |res.0.instances| == |s.instances| + 1 && res.0.definitions == s.definitions
    ensures res.1.Success? ==> res.1.value == res.0.instances[|s.instances|]
  {
    match IndexOfDefinition(s.definitions, definitionId)
    case None => (s, Failure(InvalidOperation("Workflow definition not found")))
    case Some(_) =>
      var s1 := AddInstance(s, definitionId, documentId, now);
      var res := Advance(s1, reg, s.nextId, now, fuel);
      AdvanceExtends(s1, reg, s.nextId, now, fuel);
      (res.0, if res.1.Failure? then Failure(res.1.error) else Success(res.0.instances[|s.instances|]))
  }

  /** A new running instance, at no node yet, with a fresh id. */
  function AddInstance(s: State, definitionId: Guid, documentId: Guid, now: Time): State
  {
    s.(instances := s.instances + [WorkflowInstance(s.nextId, definitionId, documentId, "", Running, "{}", now, None)],
       nextId := s.nextId + 1)
  }

  // ---- What one advance does ----

  /** The instance `iid` is row `i`, it is running, and its definition is row `d`. */
  ghost predicate Advanceable(s: State, iid: Guid, i: nat, d: nat)
  {
    && IndexOfInstance(s.instances, iid) == Some(i)
    && s.instances[i].status == Running
    && IndexOfDefinition(s.definitions, s.instances[i].definitionId) == Some(d)
  }

  /** Entering a node never answers `false`: it answers `true` or fails. */
  lemma EnterNodeNeverFalse(s: State, reg: Registry, i: nat, node: Step, now: Time, fuel: nat)
    requires i < |s.instances| && IndexOfInstance(s.instances, s.instances[i].id) == Some(i)
    ensures EnterNode(s, reg, i, node, now, fuel).1 != Success(false)
  {
    if Text.ToLower(node.kind) == "servicetask" {
      assert EnterNode(s, reg, i, node, now, fuel) == EnterServiceTask(s, reg, i, node, now, fuel);
      match HandleServiceTask(s, reg, i, node, now)
      case Failure(e) =>
      case Success(s3) =>
        assert EnterServiceTask(s, reg, i, node, now, fuel) == Reenter(s3, reg, s.instances[i].id, now, fuel);
    }
  }

  /**
   * An advance answers `false` exactly when the instance is missing, not running, or has no
   * definition, and then nothing changes; every other advance answers `true` or fails.
   */
  lemma AdvanceRefusal(s: State, reg: Registry, iid: Guid, now: Time, fuel: nat)
    ensures Advance(s, reg, iid, now, fuel).1 == Success(false) <==>
            match IndexOfInstance(s.instances, iid)
            case None => true
            case Some(i) =>
              s.instances[i].status != Running || IndexOfDefinition(s.definitions, s.instances[i].definitionId).None?
    ensures Advance(s, reg, iid, now, fuel).1 == Success(false) ==> Advance(s, reg, iid, now, fuel).0 == s
  {
    match IndexOfInstance(s.instances, iid)
    case None =>
    case Some(i) =>
      var inst := s.instances[i];
      if inst.status == Running && IndexOfDefinition(s.definitions, inst.definitionId).Some? {
        var d := IndexOfDefinition(s.definitions, inst.definitionId).value;
        match FindNextStep(s.definitions[d].bpmnXml, inst.currentStepId)
        case None =>
        case Some(node) => EnterNodeNeverFalse(s, reg, i, node, now, fuel);
      }
  }

  /** An advanceable instance with a next node enters that node. */
  lemma AdvanceEnters(s: State, reg: Registry, iid: Guid, now: Time, fuel: nat, i: nat, d: nat, node: Step)
    requires Advanceable(s, iid, i, d)
    requires FindNextStep(s.definitions[d].bpmnXml, s.instances[i].currentStepId) == Some(node)
    ensures Advance(s, reg, iid, now, fuel) == EnterNode(s, reg, i, node, now, fuel)
  {
  }

  /** The service-task handling, once the handler `a` and the instance's document `k` are known. */
  lemma HandlerOutcome(s: State, reg: Registry, i: nat, node: Step, now: Time, k: nat, a: Activity)
    requires i < |s.instances|
    requires IndexOfDocument(s.documents, s.instances[i].documentId) == Some(k)
    requires Resolve(reg, node.name) == Some(a)
    ensures var out := Execute(a, Some(s.documents[k]), now);
      out.Failure? ==> HandleServiceTask(s, reg, i, node, now) == Failure(out.error)
    ensures var out := Execute(a, Some(s.documents[k]), now);
      out.Success? ==>
        HandleServiceTask(s, reg, i, node, now) ==
        Success(s.(steps := s.steps + [NewStepRecord(s.nextId, s.instances[i].id, node, now)],
                   documents := s.documents[k := out.value],
                   instances := s.instances[i := s.instances[i].(currentStepId := node.id)],
                   nextId := s.nextId + 1))
  {
    var s1 := LogStep(s, s.instances[i].id, node, now);
    assert IndexOfDocument(s1.documents, s.instances[i].documentId) == Some(k);
  }

  /** With no next node the instance completes at `now`; no step or task is written. */
  lemma NoNextNodeCompletes(s: State, reg: Registry, iid: Guid, now: Time, fuel: nat, i: nat, d: nat)
    requires Advanceable(s, iid, i, d)
    requires FindNextStep(s.definitions[d].bpmnXml, s.instances[i].currentStepId).None?
    ensures Advance(s, reg, iid, now, fuel) ==
            (s.(instances := s.instances[i := s.instances[i].(status := Completed, completedAt := Some(now))]), Success(true))
  {
  }

  /** The one step record a resolved node gets: its id, name and kind, completed when it starts. */
  lemma StepRecordOfNode(id: Guid, iid: Guid, node: Step, now: Time)
    ensures var r := NewStepRecord(id, iid, node, now);
      && r.instanceId == iid && r.stepId == node.id && r.stepName == node.name && r.stepType == node.kind
      && r.status == Completed && r.completedAt == Some(r.startedAt) && r.startedAt == now
  {
  }

  /**
   * A user task next: one step record and one pending approval task for the manager, due three
   * days later, are written; the instance stays running and is parked on the node.
   */
  lemma UserTaskParks(s: State, reg: Registry, iid: Guid, now: Time, fuel: nat, i: nat, d: nat, node: Step)
    requires Advanceable(s, iid, i, d)
    requires FindNextStep(s.definitions[d].bpmnXml, s.instances[i].currentStepId) == Some(node)
    requires Text.ToLower(node.kind) == "usertask"
    ensures var inst := s.instances[i];
      Advance(s, reg, iid, now, fuel) ==
      (s.(steps := s.steps + [NewStepRecord(s.nextId, iid, node, now)],
          tasks := s.tasks + [ApprovalTask(s.nextId + 1, iid, inst.documentId, node.name, "manager@company.com",
                                           Pending, "", now, None, Some(now + 3 * SecondsPerDay))],
          instances := s.instances[i := inst.(currentStepId := node.id)],
          nextId := s.nextId + 2),
       Success(true))
  {
    AdvanceEnters(s, reg, iid, now, fuel, i, d, node);
  }

  /** The writes of an end event reached from `s`, the step record included. */
  lemma EndEventWrites(s: State, iid: Guid, i: nat, node: Step, now: Time)
    requires i < |s.instances|
    ensures var inst := s.instances[i];
      var s1 := s.(steps := s.steps + [NewStepRecord(s.nextId, iid, node, now)],
                   instances := s.instances[i := inst.(status := Completed, completedAt := Some(now))],
                   nextId := s.nextId + 1);
      EnterEndEvent(LogStep(s, iid, node, now), i, now) ==
      match IndexOfDocument(s.documents, inst.documentId)
      case None => s1
      case Some(k) => s1.(documents := s.documents[k := s.documents[k].(status := Published, publishedAt := Some(now))])
  {
  }

  /**
   * An end event next: one step record is written, the instance completes at `now`, and its
   * document, if it exists, is published at `now`.
   */
  lemma EndEventCompletes(s: State, reg: Registry, iid: Guid, now: Time, fuel: nat, i: nat, d: nat, node: Step)
    requires Advanceable(s, iid, i, d)
    requires FindNextStep(s.definitions[d].bpmnXml, s.instances[i].currentStepId) == Some(node)
    requires Text.ToLower(node.kind) == "endevent"
    ensures var inst := s.instances[i];
      var s1 := s.(steps := s.steps + [NewStepRecord(s.nextId, iid, node, now)],
                   instances := s.instances[i := inst.(status := Completed, completedAt := Some(now))],
                   nextId := s.nextId + 1);
      Advance(s, reg, iid, now, fuel) ==
      (match IndexOfDocument(s.documents, inst.documentId)
       case None => s1
       case Some(k) => s1.(documents := s.documents[k := s.documents[k].(status := Published, publishedAt := Some(now))]),
       Success(true))
  {
    AdvanceEnters(s, reg, iid, now, fuel, i, d, node);
    assert EnterNode(s, reg, i, node, now, fuel) == (EnterEndEvent(LogStep(s, iid, node, now), i, now), Success(true));
    EndEventWrites(s, iid, i, node, now);
  }

  /** Any other kind of node next (a gateway, say) only gets its step record; the instance does not move. */
  lemma OtherNodeOnlyLogs(s: State, reg: Registry, iid: Guid, now: Time, fuel: nat, i: nat, d: nat, node: Step)
    requires Advanceable(s, iid, i, d)
    requires FindNextStep(s.definitions[d].bpmnXml, s.instances[i].currentStepId) == Some(node)
    requires Text.ToLower(node.kind) !in {"usertask", "servicetask", "endevent"}
    ensures Advance(s, reg, iid, now, fuel) ==
            (s.(steps := s.steps + [NewStepRecord(s.nextId, iid, node, now)], nextId := s.nextId + 1), Success(true))
  {
    AdvanceEnters(s, reg, iid, now, fuel, i, d, node);
  }

  /**
   * A service task next whose handler `a` throws on the instance's document `k`: the exception is
   * the answer and nothing is kept, not even the step record.
   */
  lemma ServiceTaskThrows(s: State, reg: Registry, iid: Guid, now: Time, fuel: nat, i: nat, d: nat, node: Step,
                          k: nat, a: Activity)
    requires Advanceable(s, iid, i, d)
    requires FindNextStep(s.definitions[d].bpmnXml, s.instances[i].currentStepId) == Some(node)
    requires Text.ToLower(node.kind) == "servicetask"
    requires IndexOfDocument(s.documents, s.instances[i].documentId) == Some(k)
    requires Resolve(reg, node.name) == Some(a) && Execute(a, Some(s.documents[k]), now).Failure?
    ensures Advance(s, reg, iid, now, fuel) == (s, Failure(Execute(a, Some(s.documents[k]), now).error))
  {
    AdvanceEnters(s, reg, iid, now, fuel, i, d, node);
    assert EnterNode(s, reg, i, node, now, fuel) == EnterServiceTask(s, reg, i, node, now, fuel);
    HandlerOutcome(s, reg, i, node, now, k, a);
  }

  /**
   * A service task next whose handler `a` updates the instance's document `k` to `doc`: the step
   * record, the updated document and the instance parked on the node are saved, and the instance
   * is advanced again from there; that advance's failure is the answer, and otherwise `true`.
   */
  lemma ServiceTaskReenters(s: State, reg: Registry, iid: Guid, now: Time, fuel: nat, i: nat, d: nat, node: Step,
                            k: nat, a: Activity, doc: Document)
    requires Advanceable(s, iid, i, d)
    requires FindNextStep(s.definitions[d].bpmnXml, s.instances[i].currentStepId) == Some(node)
    requires Text.ToLower(node.kind) == "servicetask"
    requires IndexOfDocument(s.documents, s.instances[i].documentId) == Some(k)
    requires Resolve(reg, node.name) == Some(a) && Execute(a, Some(s.documents[k]), now) == Success(doc)
    ensures var saved := s.(steps := s.steps + [NewStepRecord(s.nextId, iid, node, now)],
                            documents := s.documents[k := doc],
                            instances := s.instances[i := s.instances[i].(currentStepId := node.id)],
                            nextId := s.nextId + 1);
      var rest := Advance(saved, reg, iid, now, fuel);
      Advance(s, reg, iid, now, fuel + 1) == (rest.0, if rest.1.Failure? then rest.1 else Success(true))
  {
    var more := fuel + 1;
    var saved := s.(steps := s.steps + [NewStepRecord(s.nextId, iid, node, now)],
                    documents := s.documents[k := doc],
                    instances := s.instances[i := s.instances[i].(currentStepId := node.id)],
                    nextId := s.nextId + 1);
    AdvanceEnters(s, reg, iid, now, more, i, d, node);
    assert EnterNode(s, reg, i, node, now, more) == EnterServiceTask(s, reg, i, node, now, more);
    HandlerOutcome(s, reg, i, node, now, k, a);
    assert HandleServiceTask(s, reg, i, node, now) == Success(saved);
    assert EnterServiceTask(s, reg, i, node, now, more) == Reenter(saved, reg, iid, now, more);
  }

  /** Out of re-entries, a service task's saved work stays and the answer is the recursion failure. */
  lemma ServiceTaskOutOfFuel(s: State, reg: Registry, iid: Guid, now: Time, i: nat, d: nat, node: Step,
                             k: nat, a: Activity, doc: Document)
    requires Advanceable(s, iid, i, d)
    requires FindNextStep(s.definitions[d].bpmnXml, s.instances[i].currentStepId) == Some(node)
    requires Text.ToLower(node.kind) == "servicetask"
    requires IndexOfDocument(s.documents, s.instances[i].documentId) == Some(k)
    requires Resolve(reg, node.name) == Some(a) && Execute(a, Some(s.documents[k]), now) == Success(doc)
    ensures Advance(s, reg, iid, now, 0) ==
            (s.(steps := s.steps + [NewStepRecord(s.nextId, iid, node, now)],
                documents := s.documents[k := doc],
                instances := s.instances[i := s.instances[i].(currentStepId := node.id)],
                nextId := s.nextId + 1),
             Failure(RecursionLimit))
  {
    AdvanceEnters(s, reg, iid, now, 0, i, d, node);
    assert EnterNode(s, reg, i, node, now, 0) == EnterServiceTask(s, reg, i, node, now, 0);
    HandlerOutcome(s, reg, i, node, now, k, a);
  }

  /**
   * A service task next with no handler for its name, or no document for the instance: nothing is
   * run, yet the step record and the instance parked on the node are saved and the instance is
   * advanced again from there; that advance's failure is the answer, and otherwise `true`. Out of
   * re-entries, the saved work stays and the answer is the recursion failure.
   */
  lemma ServiceTaskWithoutHandlerReenters(s: State, reg: Registry, iid: Guid, now: Time, fuel: nat, i: nat, d: nat,
                                          node: Step)
    requires Advanceable(s, iid, i, d)
    requires FindNextStep(s.definitions[d].bpmnXml, s.instances[i].currentStepId) == Some(node)
    requires Text.ToLower(node.kind) == "servicetask"
    requires IndexOfDocument(s.documents, s.instances[i].documentId).None? || Resolve(reg, node.name).None?
    ensures var saved := s.(steps := s.steps + [NewStepRecord(s.nextId, iid, node, now)],
                            instances := s.instances[i := s.instances[i].(currentStepId := node.id)],
                            nextId := s.nextId + 1);
      var rest := Advance(saved, reg, iid, now, fuel);
      Advance(s, reg, iid, now, fuel + 1) == (rest.0, if rest.1.Failure? then rest.1 else Success(true))
    ensures Advance(s, reg, iid, now, 0) ==
            (s.(steps := s.steps + [NewStepRecord(s.nextId, iid, node, now)],
                instances := s.instances[i := s.instances[i].(currentStepId := node.id)],
                nextId := s.nextId + 1),
             Failure(RecursionLimit))
  {
    var more := fuel + 1;
    var saved := s.(steps := s.steps + [NewStepRecord(s.nextId, iid, node, now)],
                    instances := s.instances[i := s.instances[i].(currentStepId := node.id)],
                    nextId := s.nextId + 1);
    var s1 := LogStep(s, iid, node, now);
    assert s1.documents == s.documents;
    assert RunServiceTask(s1, reg, node.name, s.instances[i], now) == Success(s1);
    assert HandleServiceTask(s, reg, i, node, now) == Success(saved);
    AdvanceEnters(s, reg, iid, now, more, i, d, node);
    assert EnterNode(s, reg, i, node, now, more) == EnterServiceTask(s, reg, i, node, now, more);
    assert EnterServiceTask(s, reg, i, node, now, more) == Reenter(saved, reg, iid, now, more);
    AdvanceEnters(s, reg, iid, now, 0, i, d, node);
    assert EnterNode(s, reg, i, node, now, 0) == EnterServiceTask(s, reg, i, node, now, 0);
  }

  /**
   * Starting a workflow adds a running instance with a fresh id, at no node yet and with empty
   * variables, and advances that instance once.
   */
  lemma StartAddsThenAdvances(s: State, reg: Registry, definitionId: Guid, documentId: Guid, now: Time, fuel: nat)
    requires IndexOfDefinition(s.definitions, definitionId).Some?
    ensures var added := s.(instances := s.instances + [WorkflowInstance(s.nextId, definitionId, documentId, "", Running, "{}", now, None)],
                            nextId := s.nextId + 1);
      StartInstance(s, reg, definitionId, documentId, now, fuel).0 == Advance(added, reg, s.nextId, now, fuel).0
  {
    assert AddInstance(s, definitionId, documentId, now) ==
           s.(instances := s.instances + [WorkflowInstance(s.nextId, definitionId, documentId, "", Running, "{}", now, None)],
              nextId := s.nextId + 1);
  }

  /**
   * What starting a workflow on a document does to the documents, when instance ids are below the
   * counter: only that document can change, and no more than its status and publication time.
   */
  lemma StartInstanceDocuments(s: State, reg: Registry, definitionId: Guid, documentId: Guid, now: Time, fuel: nat)
    requires forall j :: 0 <= j < |s.instances| ==> s.instances[j].id < s.nextId
    ensures var t := StartInstance(s, reg, definitionId, documentId, now, fuel).0;
      && |t.documents| == |s.documents|
      && (forall j :: 0 <= j < |s.documents| && s.documents[j].id != documentId ==> t.documents[j] == s.documents[j])
      && (forall j :: 0 <= j < |s.documents| ==> StatusUpdate(s.documents[j], t.documents[j]))
  {
    if IndexOfDefinition(s.definitions, definitionId).Some? {
      var s1 := AddInstance(s, definitionId, documentId, now);
      assert IndexOfInstance(s1.instances, s.nextId) == Some(|s.instances|) by {
        assert s1.instances[|s.instances|].id == s.nextId;
        var i := IndexOfInstance(s1.instances, s.nextId).value;
        assert !(i < |s.instances|);
      }
      AdvanceDocuments(s1, reg, s.nextId, now, fuel, documentId);
    }
  }

  // ---- The service object ----

  /** `WorkflowEngineService`: the unit of work and the activity factory it was built with. */
  class WorkflowEngine {
    const store: UnitOfWork
    const factory: ActivityFactory

    constructor (store: UnitOfWork, factory: ActivityFactory)
      ensures this.store == store && this.factory == factory
    {
      this.store := store;
      this.factory := factory;
    }

    /**
     * `ExecuteNextStepAsync`. It is entered with nothing pending: every caller saves just before.
     * On return nothing is pending either, and the database holds what `Advance` describes.
     */
    method ExecuteNextStep(instanceId: Guid, now: Time, fuel: nat) returns (r: Result<bool, Error>)
      requires store.Clean()
      modifies store
      decreases fuel, 3
      ensures store.Clean()
      ensures (store.Snapshot(), r) == Advance(old(store.Snapshot()), old(factory.entries), instanceId, now, fuel)
    {
      var found := IndexOfInstance(store.instances, instanceId);
      if found.None? {
        return Success(false);
      }
      var i := found.value;
      var instance := store.instances[i];
      if instance.status != Running {
        return Success(false);
      }
      var definition := IndexOfDefinition(store.definitions, instance.definitionId);
      if definition.None? {
        return Success(false);
      }
      var nextStep := FindNextStep(store.definitions[definition.value].bpmnXml, instance.currentStepId);
      if nextStep.None? {
        instance := instance.(status := Completed, completedAt := Some(now));
        store.UpdateInstance(i, instance);
        store.SaveChanges();
        return Success(true);
      }
      r := ExecuteStep(i, nextStep.value, now, fuel);
    }

    /** The rest of `ExecuteNextStepAsync`, once the next node is known. */
    method ExecuteStep(i: nat, node: Step, now: Time, fuel: nat) returns (r: Result<bool, Error>)
      requires store.Clean()
      requires i < |store.instances| && IndexOfInstance(store.instances, store.instances[i].id) == Some(i)
      modifies store
      decreases fuel, 2
      ensures store.Clean()
      ensures (store.Snapshot(), r) == EnterNode(old(store.Snapshot()), old(factory.entries), i, node, now, fuel)
    {
      var stepType := Text.ToLower(node.kind);
      if stepType == "servicetask" {
        r := ExecuteServiceStep(i, node, now, fuel);
        return;
      }
      ghost var s := store.Snapshot();
      var instance := store.instances[i];
      var stepId := store.NewGuid();
      store.AddStep(NewStepRecord(stepId, instance.id, node, now));
      ghost var logged := LogStep(s, instance.id, node, now);
      assert store.Snapshot() == logged;
      if stepType == "usertask" {
        var taskId := store.NewGuid();
        store.AddTask(NewApprovalTask(taskId, instance, node, now));
        instance := instance.(currentStepId := node.id);
        store.UpdateInstance(i, instance);
        assert store.Snapshot() == EnterUserTask(logged, i, node, now);
      } else if stepType == "endevent" {
        instance := instance.(status := Completed, completedAt := Some(now));
        store.UpdateInstance(i, instance);
        var document := IndexOfDocument(store.documents, instance.documentId);
        if document.Some? {
          var k := document.value;
          store.UpdateDocument(k, store.documents[k].(status := Published, publishedAt := Some(now)));
        }
        assert store.Snapshot() == EnterEndEvent(logged, i, now);
      }
      store.SaveChanges();
      return Success(true);
    }

    /** A service task: handled and saved, then the instance is advanced again. */
    method ExecuteServiceStep(i: nat, node: Step, now: Time, fuel: nat) returns (r: Result<bool, Error>)
      requires store.Clean() && i < |store.instances|
      modifies store
      decreases fuel, 1
      ensures store.Clean()
      ensures (store.Snapshot(), r) == EnterServiceTask(old(store.Snapshot()), old(factory.entries), i, node, now, fuel)
    {
      var instanceId := store.instances[i].id;
      var handled := HandleStep(i, node, now);
      if handled.Failure? {
        return Failure(handled.error);
      }
      r := AutoAdvance(instanceId, now, fuel);
    }

    /** The auto-advance after a service task, on the saved state. */
    method AutoAdvance(instanceId: Guid, now: Time, fuel: nat) returns (r: Result<bool, Error>)
      requires store.Clean()
      modifies store
      decreases fuel, 0
      ensures store.Clean()
      ensures (store.Snapshot(), r) == Reenter(old(store.Snapshot()), old(factory.entries), instanceId, now, fuel)
    {
      if fuel == 0 {
        return Failure(RecursionLimit);
      }
      var rest := ExecuteNextStep(instanceId, now, fuel - 1);
      r := if rest.Failure? then rest else Success(true);
    }

    /** Logs a service task's step, runs its handler, moves the instance onto the node and saves. */
    method HandleStep(i: nat, node: Step, now: Time) returns (r: Result<(), Error>)
      requires store.Clean() && i < |store.instances|
      modifies store
      ensures store.Clean()
      ensures r.Success? <==> HandleServiceTask(old(store.Snapshot()), old(factory.entries), i, node, now).Success?
      ensures r.Success? ==> store.Snapshot() == HandleServiceTask(old(store.Snapshot()), old(factory.entries), i, node, now).value
      ensures r.Failure? ==> store.Snapshot() == old(store.Snapshot()) &&
                             r.error == HandleServiceTask(old(store.Snapshot()), old(factory.entries), i, node, now).error
    {
      ghost var s := store.Snapshot();
      var instance := store.instances[i];
      var stepId := store.NewGuid();
      store.AddStep(NewStepRecord(stepId, instance.id, node, now));
      ghost var logged := LogStep(s, instance.id, node, now);
      assert store.Snapshot() == logged;
      var outcome := ExecuteServiceTask(node.name, instance, now);
      if outcome.Failure? {
        // the exception leaves the request; the step record was never saved
        store.DiscardChanges();
        return Failure(outcome.error);
      }
      ghost var ran := RunServiceTask(logged, factory.entries, node.name, instance, now).value;
      instance := instance.(currentStepId := node.id);
      store.UpdateInstance(i, instance);
      assert store.Snapshot() == Park(ran, i, node.id);
      store.SaveChanges();
      return Success(());
    }

    /** `ExecuteServiceTaskAsync`: changes only the tracked document, and nothing when the handler throws. */
    method ExecuteServiceTask(taskName: string, instance: WorkflowInstance, now: Time) returns (r: Result<(), Error>)
      modifies store
      ensures store.saved == old(store.saved)
      ensures r.Success? <==> RunServiceTask(old(store.Snapshot()), old(factory.entries), taskName, instance, now).Success?
      ensures r.Success? ==> store.Snapshot() == RunServiceTask(old(store.Snapshot()), old(factory.entries), taskName, instance, now).value
      ensures r.Failure? ==> store.Snapshot() == old(store.Snapshot()) &&
                             r.error == RunServiceTask(old(store.Snapshot()), old(factory.entries), taskName, instance, now).error
    {
      var found := IndexOfDocument(store.documents, instance.documentId);
      if found.None? {
        return Success(());
      }
      var k := found.value;
      var document := store.documents[k];
      var activity := factory.CreateActivity(taskName);
      if activity.Some? {
        var outcome := Execute(activity.value, Some(document), now);
        if outcome.Failure? {
          return Failure(outcome.error);
        }
        document := outcome.value;
      }
      store.UpdateDocument(k, document);
      return Success(());
    }

    /**
     * `StartWorkflowAsync`. Unless the definition is missing, the new instance is saved before it
     * is advanced, so nothing is pending afterwards.
     */
    method StartWorkflow(definitionId: Guid, documentId: Guid, now: Time, fuel: nat)
      returns (r: Result<WorkflowInstance, Error>)
      modifies store
      ensures (store.Snapshot(), r) == StartInstance(old(store.Snapshot()), old(factory.entries), definitionId, documentId, now, fuel)
      ensures IndexOfDefinition(old(store.definitions), definitionId).None? ==> store.saved == old(store.saved)
      ensures IndexOfDefinition(old(store.definitions), definitionId).Some? ==> store.Clean()
    {
      ghost var s := store.Snapshot();
      var definition := IndexOfDefinition(store.definitions, definitionId);
      if definition.None? {
        return Failure(InvalidOperation("Workflow definition not found"));
      }
      var id := store.NewGuid();
      var instance := WorkflowInstance(id, definitionId, documentId, "", Running, "{}", now, None);
      var row := |store.instances|;
      store.AddInstance(instance);
      store.SaveChanges();
      assert store.Snapshot() == AddInstance(s, definitionId, documentId, now);
      var advanced := ExecuteNextStep(id, now, fuel);
      AdvanceExtends(AddInstance(s, definitionId, documentId, now), factory.entries, id, now, fuel);
      if advanced.Failure? {
        return Failure(advanced.error);
      }
      return Success(store.instances[row]);
    }

    /** `GetWorkflowInstanceAsync`: the first instance with that id, if any. */
    method GetWorkflowInstance(instanceId: Guid) returns (r: Option<WorkflowInstance>)
      ensures r.None? <==> forall j :: 0 <= j < |store.instances| ==> store.instances[j].id != instanceId
      ensures r.Some? ==> r.value in store.instances && r.value.id == instanceId
    {
      var found := IndexOfInstance(store.instances, instanceId);
      if found.None? {
        return None;
      }
      return Some(store.instances[found.value]);
    }
  }
}
