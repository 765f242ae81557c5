/**
 * The approval decision of ApprovalService.cs (`CompleteApprovalTaskAsync`): a pending task is
 * decided once, its document's status follows the decision, and an approval moves the instance on.
 */
module Approvals {
  import opened Wrappers
  import opened Entities
  import opened Repositories
  import opened Activities
  import opened Store
  import opened Engine

  /** The task's new status: "approve" approves, "reject" rejects, anything else asks for changes. */
  function DecisionTaskStatus(decision: string): (status: string)
    ensures status != Pending
    ensures status == Approved <==> decision == "approve"
    ensures status == Rejected <==> decision == "reject"
    ensures status == ChangesRequested <==> decision != "approve" && decision != "reject"
  {
    if decision == "approve" then Approved
    else if decision == "reject" then Rejected
    else ChangesRequested
  }

  /** The document's new status: only the three known decisions change it. */
  function DecisionDocumentStatus(decision: string, current: string): (status: string)
    ensures decision == "reject" ==> status == Rejected
    ensures decision == "changes" ==> status == ChangesRequested
    ensures decision == "approve" ==> status == Approved
    ensures decision != "reject" && decision != "changes" && decision != "approve" ==> status == current
  {
    if decision == "reject" then Rejected
    else if decision == "changes" then ChangesRequested
    else if decision == "approve" then Approved
    else current
  }

  /** The writes before the save: the task row `t` is decided, and its document, if any, follows. */
  function Decide(s: State, t: nat, decision: string, comments: string, now: Time): State
    requires t < |s.tasks|
  {
    var task := s.tasks[t].(status := DecisionTaskStatus(decision), comments := comments, completedAt := Some(now));
    var s1 := s.(tasks := s.tasks[t := task]);
    match IndexOfDocument(s1.documents, task.documentId)
    case None => s1
    case Some(k) =>
      var doc := s1.documents[k];
      s1.(documents := s1.documents[k := doc.(status := DecisionDocumentStatus(decision, doc.status))])
  }

  /**
   * `CompleteApprovalTaskAsync(taskId, decision, comments)`: `false` for a missing task or one that
   * is no longer pending; otherwise the decision is saved and, for "approve", the task's instance,
   * if it exists, is advanced; the engine's answer is not used, its exception is passed on.
   */
  function CompleteTask(s: State, reg: Registry, taskId: Guid, decision: string, comments: string,
                        now: Time, fuel: nat): (res: (State, Result<bool, Error>))
    ensures res.1 == Success(false) <==> res == (s, Success(false))
    ensures res.1 == Success(false) <==>
            match IndexOfTask(s.tasks, taskId)
            case None => true
            case Some(t) => s.tasks[t].status != Pending
  {
    match IndexOfTask(s.tasks, taskId)
    case None => (s, Success(false))
    case Some(t) =>
      if s.tasks[t].status != Pending then (s, Success(false))
      else
        var s1 := Decide(s, t, decision, comments, now);
        var iid := s.tasks[t].instanceId;
        if decision == "approve" && IndexOfInstance(s1.instances, iid).Some? then
          var adv := Advance(s1, reg, iid, now, fuel);
          (adv.0, if adv.1.Failure? then Failure(adv.1.error) else Success(true))
        else (s1, Success(true))
  }

  // ---- Properties of a decision ----

  /** A prefix of the task table keeps every first hit it already had. */
  lemma TaskIndexInPrefix(a: seq<ApprovalTask>, b: seq<ApprovalTask>, id: Guid)
    requires a <= b && IndexOfTask(a, id).Some?
    ensures IndexOfTask(b, id) == IndexOfTask(a, id)
  {
    var i := IndexOfTask(a, id).value;
    assert b[i] == a[i];
    var k := IndexOfTask(b, id).value;
    assert !(k < i);
  }

  /**
   * Deciding a pending task: it leaves Pending with the mapped status, the comments and the
   * completion time, whatever the engine does afterwards, and the document's status follows the
   * decision before the engine runs.
   */
  lemma {:induction false} DecisionRecorded(s: State, reg: Registry, taskId: Guid, decision: string, comments: string,
                                            now: Time, fuel: nat)
    requires IndexOfTask(s.tasks, taskId).Some? && s.tasks[IndexOfTask(s.tasks, taskId).value].status == Pending
    ensures var t := IndexOfTask(s.tasks, taskId).value;
      var res := CompleteTask(s, reg, taskId, decision, comments, now, fuel);
      && IndexOfTask(res.0.tasks, taskId) == Some(t)
      && res.0.tasks[t] == s.tasks[t].(status := DecisionTaskStatus(decision), comments := comments, completedAt := Some(now))
  {
    var t := IndexOfTask(s.tasks, taskId).value;
    var s1 := Decide(s, t, decision, comments, now);
    assert IndexOfTask(s1.tasks, taskId) == Some(t) by {
      assert s1.tasks[t].id == taskId;
      var k := IndexOfTask(s1.tasks, taskId).value;
      assert !(k < t);
    }
    var iid := s.tasks[t].instanceId;
    if decision == "approve" && IndexOfInstance(s1.instances, iid).Some? {
      AdvanceExtends(s1, reg, iid, now, fuel);
      TaskIndexInPrefix(s1.tasks, Advance(s1, reg, iid, now, fuel).0.tasks, taskId);
    }
  }

  /** A task is decided once: after any completion of a pending task, completing it again is refused. */
  lemma {:induction false} SecondCompletionRefused(s: State, reg: Registry, taskId: Guid, decision: string,
                                                   comments: string, now: Time, fuel: nat,
                                                   decision2: string, comments2: string, now2: Time, fuel2: nat)
    requires IndexOfTask(s.tasks, taskId).Some? && s.tasks[IndexOfTask(s.tasks, taskId).value].status == Pending
    ensures var s' := CompleteTask(s, reg, taskId, decision, comments, now, fuel).0;
      CompleteTask(s', reg, taskId, decision2, comments2, now2, fuel2) == (s', Success(false))
  {
    DecisionRecorded(s, reg, taskId, decision, comments, now, fuel);
  }

  /**
   * Only "approve" can move the workflow: any other decision on a pending task changes the task and
   * its document and nothing else; no instance moves and no step or task is added.
   */
  lemma NonApprovalDoesNotAdvance(s: State, reg: Registry, taskId: Guid, decision: string, comments: string,
                                  now: Time, fuel: nat)
    requires decision != "approve"
    requires IndexOfTask(s.tasks, taskId).Some? && s.tasks[IndexOfTask(s.tasks, taskId).value].status == Pending
    ensures var res := CompleteTask(s, reg, taskId, decision, comments, now, fuel);
      && res.1 == Success(true)
      && res.0.instances == s.instances && res.0.steps == s.steps && res.0.definitions == s.definitions
      && res.0.nextId == s.nextId && |res.0.tasks| == |s.tasks|
      && res.0 == Decide(s, IndexOfTask(s.tasks, taskId).value, decision, comments, now)
  {
  }

  /**
   * The document follows the decision: it is found by the task's document id, its status is the
   * mapped one, and every other document is untouched.
   */
  lemma DocumentFollowsDecision(s: State, t: nat, decision: string, comments: string, now: Time)
    requires t < |s.tasks|
    ensures var s' := Decide(s, t, decision, comments, now);
      && |s'.documents| == |s.documents|
      && (forall j :: 0 <= j < |s.documents| && s.documents[j].id != s.tasks[t].documentId ==>
            s'.documents[j] == s.documents[j])
      && match IndexOfDocument(s.documents, s.tasks[t].documentId)
         case None => s'.documents == s.documents
         case Some(k) => s'.documents[k] == s.documents[k].(status := DecisionDocumentStatus(decision, s.documents[k].status))
  {
  }

  /**
   * An approval continues the workflow: once the decision is written, the task's instance, if it
   * exists, is advanced, and the engine's failure is the answer, otherwise `true`; without the
   * instance the decision alone is kept and the answer is `true`.
   */
  lemma ApprovalContinuesWorkflow(s: State, reg: Registry, taskId: Guid, comments: string, now: Time, fuel: nat)
    requires IndexOfTask(s.tasks, taskId).Some? && s.tasks[IndexOfTask(s.tasks, taskId).value].status == Pending
    ensures var t := IndexOfTask(s.tasks, taskId).value;
      var decided := Decide(s, t, "approve", comments, now);
      var iid := s.tasks[t].instanceId;
      var adv := Advance(decided, reg, iid, now, fuel);
      CompleteTask(s, reg, taskId, "approve", comments, now, fuel) ==
        if IndexOfInstance(decided.instances, iid).Some? then
          (adv.0, if adv.1.Failure? then Failure(adv.1.error) else Success(true))
        else (decided, Success(true))
  {
  }

  /**
   * After an approval the engine works on the task's own instance only: beyond the decision, only
   * that instance and its document change, and every added step and task belongs to it.
   */
  lemma {:induction false} ApprovalAdvancesOwnInstance(s: State, reg: Registry, taskId: Guid, comments: string,
                                                       now: Time, fuel: nat)
    requires IndexOfTask(s.tasks, taskId).Some? && s.tasks[IndexOfTask(s.tasks, taskId).value].status == Pending
    ensures var t := IndexOfTask(s.tasks, taskId).value;
      Extends(Decide(s, t, "approve", comments, now), s.tasks[t].instanceId,
              CompleteTask(s, reg, taskId, "approve", comments, now, fuel).0)
  {
    var t := IndexOfTask(s.tasks, taskId).value;
    var s1 := Decide(s, t, "approve", comments, now);
    var iid := s.tasks[t].instanceId;
    if IndexOfInstance(s1.instances, iid).Some? {
      AdvanceExtends(s1, reg, iid, now, fuel);
    }
  }

  // ---- The service object ----

  /** `ApprovalService`: the unit of work, and the engine that shares it. */
  class ApprovalService {
    const store: UnitOfWork
    const engine: WorkflowEngine

    constructor (store: UnitOfWork, engine: WorkflowEngine)
      requires engine.store == store
      ensures this.store == store && this.engine == engine
    {
      this.store := store;
      this.engine := engine;
    }

    /** `CompleteApprovalTaskAsync`. The decision is saved before the engine sees it. */
    method CompleteApprovalTask(taskId: Guid, decision: string, comments: string, now: Time, fuel: nat)
      returns (r: Result<bool, Error>)
      requires engine.store == store
      modifies store
      ensures (store.Snapshot(), r) ==
              CompleteTask(old(store.Snapshot()), old(engine.factory.entries), taskId, decision, comments, now, fuel)
    {
      var found := IndexOfTask(store.tasks, taskId);
      if found.None? || store.tasks[found.value].status != Pending {
        return Success(false);
      }
      var t := found.value;
      r := Conclude(t, decision, comments, now, fuel);
    }

    /** The decided task, its document, the save, and for an approval the advance. */
    method Conclude(t: nat, decision: string, comments: string, now: Time, fuel: nat)
      returns (r: Result<bool, Error>)
      requires engine.store == store && t < |store.tasks|
      modifies store
      ensures var s := old(store.Snapshot());
        var s1 := Decide(s, t, decision, comments, now);
        var iid := s.tasks[t].instanceId;
        (store.Snapshot(), r) ==
          if decision == "approve" && IndexOfInstance(s1.instances, iid).Some? then
            var adv := Advance(s1, old(engine.factory.entries), iid, now, fuel);
            (adv.0, if adv.1.Failure? then Failure(adv.1.error) else Success(true))
          else (s1, Success(true))
    {
      ghost var s := store.Snapshot();
      var task := store.tasks[t];
      task := task.(status := DecisionTaskStatus(decision), comments := comments, completedAt := Some(now));
      store.UpdateTask(t, task);
      var document := IndexOfDocument(store.documents, task.documentId);
      if document.Some? {
        var k := document.value;
        var doc := store.documents[k];
        store.UpdateDocument(k, doc.(status := DecisionDocumentStatus(decision, doc.status)));
      }
      assert store.Snapshot() == Decide(s, t, decision, comments, now);
      store.SaveChanges();
      if decision == "approve" {
        var instance := IndexOfInstance(store.instances, task.instanceId);
        if instance.Some? {
          var advanced := engine.ExecuteNextStep(store.instances[instance.value].id, now, fuel);
          if advanced.Failure? {
            return Failure(advanced.error);
          }
        }
      }
      return Success(true);
    }
  }
}
