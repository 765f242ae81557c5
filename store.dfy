/**
 * The unit of work (Domain/Interfaces/IUnitOfWork, Infrastructure/Repositories/UnitOfWork.cs): one
 * table per repository, in storage order, and a counter standing for `Guid.NewGuid`.
 * The tables are what the request's DbContext tracks; `saved` is what the database holds after the
 * last `SaveChangesAsync`. An exception ends the request scope, and with it every change that was
 * not saved.
 */
module Store {
  import opened Entities

  /** The contents of every table at one moment. */
  datatype State = State(
    documents: seq<Document>,
    definitions: seq<WorkflowDefinition>,
    instances: seq<WorkflowInstance>,
    steps: seq<WorkflowStep>,
    tasks: seq<ApprovalTask>,
    policies: seq<ApprovalPolicy>,
    nextId: nat)

  class UnitOfWork {
    var documents: seq<Document>
    var definitions: seq<WorkflowDefinition>
    var instances: seq<WorkflowInstance>
    var steps: seq<WorkflowStep>
    var tasks: seq<ApprovalTask>
    var policies: seq<ApprovalPolicy>
    var nextId: nat
    /** The database contents as of the last `SaveChangesAsync`. */
    var saved: State

    /** The tables as one value. */
    function Snapshot(): State
      reads this
    {
      State(documents, definitions, instances, steps, tasks, policies, nextId)
    }

    /** No change is pending: the tracked tables are what the database holds. */
    predicate Clean()
      reads this
    {
      saved == Snapshot()
    }

    /** A unit of work over the given database contents, with nothing pending. */
    constructor (s: State)
      ensures Snapshot() == s && Clean()
    {
      documents, definitions, instances := s.documents, s.definitions, s.instances;
      steps, tasks, policies, nextId := s.steps, s.tasks, s.policies, s.nextId;
      saved := s;
    }

    /** `SaveChangesAsync`: the database takes every pending change. */
    method SaveChanges()
      modifies this`saved
      ensures saved == Snapshot()
    {
      saved := Snapshot();
    }

    /** The end of a request scope after an exception: unsaved changes are lost. */
    method DiscardChanges()
      modifies this
      ensures Snapshot() == old(saved) && saved == old(saved)
    {
      documents, definitions, instances := saved.documents, saved.definitions, saved.instances;
      steps, tasks, policies, nextId := saved.steps, saved.tasks, saved.policies, saved.nextId;
    }

    /** `Guid.NewGuid()`: an identifier never handed out before. */
    method NewGuid() returns (id: Guid)
      modifies this`nextId
      ensures id == old(nextId) && Snapshot() == old(Snapshot()).(nextId := old(nextId) + 1)
    {
      id := nextId;
      nextId := nextId + 1;
    }

    // The repositories' writes (`AddAsync`, `UpdateAsync`, `DeleteAsync`) on the tracked tables.

    method AddDocument(d: Document)
      modifies this`documents
      ensures Snapshot() == old(Snapshot()).(documents := old(documents) + [d])
    {
      documents := documents + [d];
    }

    method UpdateDocument(k: nat, d: Document)
      requires k < |documents|
      modifies this`documents
      ensures Snapshot() == old(Snapshot()).(documents := old(documents)[k := d])
    {
      documents := documents[k := d];
    }

    method AddDefinition(d: WorkflowDefinition)
      modifies this`definitions
      ensures Snapshot() == old(Snapshot()).(definitions := old(definitions) + [d])
    {
      definitions := definitions + [d];
    }

    method UpdateDefinition(k: nat, d: WorkflowDefinition)
      requires k < |definitions|
      modifies this`definitions
      ensures Snapshot() == old(Snapshot()).(definitions := old(definitions)[k := d])
    {
      definitions := definitions[k := d];
    }

    method RemoveDefinition(k: nat)
      requires k < |definitions|
      modifies this`definitions
      ensures Snapshot() == old(Snapshot()).(definitions := old(definitions)[..k] + old(definitions)[k + 1..])
    {
      definitions := definitions[..k] + definitions[k + 1..];
    }

    method AddInstance(w: WorkflowInstance)
      modifies this`instances
      ensures Snapshot() == old(Snapshot()).(instances := old(instances) + [w])
    {
      instances := instances + [w];
    }

    method UpdateInstance(k: nat, w: WorkflowInstance)
      requires k < |instances|
      modifies this`instances
      ensures Snapshot() == old(Snapshot()).(instances := old(instances)[k := w])
    {
      instances := instances[k := w];
    }

    method AddStep(st: WorkflowStep)
      modifies this`steps
      ensures Snapshot() == old(Snapshot()).(steps := old(steps) + [st])
    {
      steps := steps + [st];
    }

    method AddTask(a: ApprovalTask)
      modifies this`tasks
      ensures Snapshot() == old(Snapshot()).(tasks := old(tasks) + [a])
    {
      tasks := tasks + [a];
    }

    method UpdateTask(k: nat, a: ApprovalTask)
      requires k < |tasks|
      modifies this`tasks
      ensures Snapshot() == old(Snapshot()).(tasks := old(tasks)[k := a])
    {
      tasks := tasks[k := a];
    }
  }
}
