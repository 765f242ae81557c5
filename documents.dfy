/**
 * Document creation and submission (DocumentService.cs): a submitted document starts the active
 * workflow of its type, which the engine then drives.
 */
module Documents {
  import opened Wrappers
  import opened Entities
  import opened Repositories
  import opened Activities
  import opened Store
  import opened Engine

  /** The fields a caller supplies for a new document (`CreateDocumentDto`). */
  datatype DocumentRequest = DocumentRequest(
    title: string,
    fileName: string,
    filePath: string,
    documentType: string,
    department: string,
    amount: Option<real>,
    submittedBy: string)

  /** `CreateDocumentAsync`: a draft document with a fresh id, created at `now`, is added and saved. */
  function DocumentCreated(s: State, req: DocumentRequest, now: Time): (res: (State, Document))
    ensures res.1.status == Draft && res.1.id == s.nextId && res.1.createdAt == now
    ensures res.1.submittedAt.None? && res.1.publishedAt.None?
    ensures res.1.title == req.title && res.1.documentType == req.documentType && res.1.submittedBy == req.submittedBy
    ensures res.0 == s.(documents := s.documents + [res.1], nextId := s.nextId + 1)
  {
    var d := Document(s.nextId, req.title, req.fileName, req.filePath, req.documentType, req.department,
                      req.amount, Draft, req.submittedBy, now, None, None, "{}");
    (s.(documents := s.documents + [d], nextId := s.nextId + 1), d)
  }

  /** When every document id is below the counter, the new document is the one its id finds. */
  lemma CreatedIsFound(s: State, req: DocumentRequest, now: Time)
    requires forall j :: 0 <= j < |s.documents| ==> s.documents[j].id < s.nextId
    ensures var res := DocumentCreated(s, req, now);
      IndexOfDocument(res.0.documents, res.1.id) == Some(|s.documents|) &&
      res.0.documents[|s.documents|] == res.1
  {
    var res := DocumentCreated(s, req, now);
    assert res.0.documents[|s.documents|] == res.1;
    var k := IndexOfDocument(res.0.documents, res.1.id).value;
    assert !(k < |s.documents|);
  }

  /** The message of the exception for a document type without an active workflow. */
  function NoActiveWorkflow(documentType: string): (message: string)
    ensures |message| > |documentType|
    ensures message[|message| - |documentType|..] == documentType
  {
    "No active workflow found for document type: " + documentType
  }

  /** Document row `k` is marked submitted at `now`. */
  function MarkSubmitted(s: State, k: nat, now: Time): State
    requires k < |s.documents|
  {
    s.(documents := s.documents[k := s.documents[k].(status := Submitted, submittedAt := Some(now))])
  }

  /**
   * `SubmitDocumentForApprovalAsync(documentId)`: `false` for a missing document; a type without an
   * active workflow throws before anything changes; otherwise the document is marked submitted at
   * `now` and the type's active workflow is started on it; that start's exception is passed on.
   */
  function SubmitDocument(s: State, reg: Registry, documentId: Guid, now: Time, fuel: nat)
    : (res: (State, Result<bool, Error>))
    ensures res.1 == Success(false) <==> IndexOfDocument(s.documents, documentId).None?
    ensures res.1 == Success(false) ==> res.0 == s
  {
    match IndexOfDocument(s.documents, documentId)
    case None => (s, Success(false))
    case Some(k) =>
      var doc := s.documents[k];
      match ActiveByDocumentType(s.definitions, doc.documentType)
      case None => (s, Failure(InvalidOperation(NoActiveWorkflow(doc.documentType))))
      case Some(w) =>
        var started := StartInstance(MarkSubmitted(s, k, now), reg, w.id, documentId, now, fuel);
        (started.0, if started.1.Failure? then Failure(started.1.error) else Success(true))
  }

  /** Without an active workflow for the document's type, submission throws and changes nothing. */
  lemma NoActiveWorkflowRefused(s: State, reg: Registry, documentId: Guid, now: Time, fuel: nat)
    requires IndexOfDocument(s.documents, documentId).Some?
    requires var d := s.documents[IndexOfDocument(s.documents, documentId).value];
      forall w :: w in s.definitions ==> !(w.documentType == d.documentType && w.isActive)
    ensures var d := s.documents[IndexOfDocument(s.documents, documentId).value];
      SubmitDocument(s, reg, documentId, now, fuel) == (s, Failure(InvalidOperation(NoActiveWorkflow(d.documentType))))
  {
  }

  /** A started instance is the new last row, attached to the given definition and document. */
  lemma {:induction false} StartInstanceAttaches(s: State, reg: Registry, definitionId: Guid, documentId: Guid,
                                                 now: Time, fuel: nat)
    requires IndexOfDefinition(s.definitions, definitionId).Some?
    ensures var res := StartInstance(s, reg, definitionId, documentId, now, fuel).0;
      && |res.instances| == |s.instances| + 1
      && res.instances[|s.instances|].id == s.nextId
      && res.instances[|s.instances|].definitionId == definitionId
      && res.instances[|s.instances|].documentId == documentId
      && s.steps <= res.steps && s.tasks <= res.tasks
  {
    var s1 := AddInstance(s, definitionId, documentId, now);
    AdvanceExtends(s1, reg, s.nextId, now, fuel);
  }

  /**
   * Submitting a document whose type has an active workflow starts one new instance of a
   * highest-version active definition of that type, attached to the document.
   */
  lemma {:induction false} SubmitStartsActiveWorkflow(s: State, reg: Registry, documentId: Guid, now: Time, fuel: nat)
    requires IndexOfDocument(s.documents, documentId).Some?
    requires ActiveByDocumentType(s.definitions, s.documents[IndexOfDocument(s.documents, documentId).value].documentType).Some?
    ensures var d := s.documents[IndexOfDocument(s.documents, documentId).value];
      var res := SubmitDocument(s, reg, documentId, now, fuel).0;
      && |res.instances| == |s.instances| + 1
      && var inst := res.instances[|s.instances|];
      && inst.documentId == documentId
      && exists w :: w in s.definitions && w.id == inst.definitionId && w.documentType == d.documentType && w.isActive &&
           forall v :: v in s.definitions && v.documentType == d.documentType && v.isActive ==> v.version <= w.version
  {
    var k := IndexOfDocument(s.documents, documentId).value;
    var doc := s.documents[k];
    var w := ActiveByDocumentType(s.definitions, doc.documentType).value;
    var s1 := MarkSubmitted(s, k, now);
    assert IndexOfDefinition(s1.definitions, w.id).Some? by {
      var j :| 0 <= j < |s.definitions| && s.definitions[j] == w;
    }
    StartInstanceAttaches(s1, reg, w.id, documentId, now, fuel);
  }

  /** Looking a document up only depends on the documents' ids. */
  lemma SameIdsSameDocumentIndex(a: seq<Document>, b: seq<Document>, id: Guid)
    requires |a| == |b| && forall j :: 0 <= j < |a| ==> a[j].id == b[j].id
    ensures IndexOfDocument(a, id) == IndexOfDocument(b, id)
  {
    match IndexOfDocument(a, id)
    case None =>
    case Some(i) =>
      assert IndexOfDocument(b, id).Some?;
      var k := IndexOfDocument(b, id).value;
      assert !(k < i) && !(i < k);
  }

  /**
   * A submission marks the document submitted at `now` before its workflow starts, and the workflow
   * changes no more than its status and publication time: whatever the start answers, the row its
   * id finds carries that submission time and otherwise differs from the marked row at most in
   * those two fields, and every document with another id is untouched. Instance ids below the
   * counter stand for the uniqueness of `Guid.NewGuid`.
   */
  lemma {:induction false} SubmitMarksDocument(s: State, reg: Registry, documentId: Guid, now: Time, fuel: nat)
    requires IndexOfDocument(s.documents, documentId).Some?
    requires ActiveByDocumentType(s.definitions, s.documents[IndexOfDocument(s.documents, documentId).value].documentType).Some?
    requires forall j :: 0 <= j < |s.instances| ==> s.instances[j].id < s.nextId
    ensures var k := IndexOfDocument(s.documents, documentId).value;
      var res := SubmitDocument(s, reg, documentId, now, fuel).0;
      && |res.documents| == |s.documents|
      && IndexOfDocument(res.documents, documentId) == Some(k)
      && res.documents[k].submittedAt == Some(now)
      && StatusUpdate(s.documents[k].(status := Submitted, submittedAt := Some(now)), res.documents[k])
      && forall j :: 0 <= j < |s.documents| && s.documents[j].id != documentId ==> res.documents[j] == s.documents[j]
  {
    var k := IndexOfDocument(s.documents, documentId).value;
    var w := ActiveByDocumentType(s.definitions, s.documents[k].documentType).value;
    var s1 := MarkSubmitted(s, k, now);
    assert SubmitDocument(s, reg, documentId, now, fuel).0 == StartInstance(s1, reg, w.id, documentId, now, fuel).0;
    StartInstanceDocuments(s1, reg, w.id, documentId, now, fuel);
    assert forall j :: 0 <= j < |s.documents| && j != k ==> s1.documents[j] == s.documents[j];
    MarkedDocuments(s.documents, k, now, StartInstance(s1, reg, w.id, documentId, now, fuel).0.documents);
  }

  /**
   * The documents after a submission, given what the start may do to the marked table `after`:
   * the submitted row keeps its place, its submission time and all but two of its fields.
   */
  lemma MarkedDocuments(docs: seq<Document>, k: nat, now: Time, after: seq<Document>)
    requires k < |docs| && IndexOfDocument(docs, docs[k].id) == Some(k)
    requires |after| == |docs|
    requires forall j :: 0 <= j < |docs| && j != k && docs[j].id != docs[k].id ==> after[j] == docs[j]
    requires forall j :: 0 <= j < |docs| && j != k ==> StatusUpdate(docs[j], after[j])
    requires StatusUpdate(docs[k].(status := Submitted, submittedAt := Some(now)), after[k])
    ensures IndexOfDocument(after, docs[k].id) == Some(k)
    ensures after[k].submittedAt == Some(now)
    ensures forall j :: 0 <= j < |docs| && docs[j].id != docs[k].id ==> after[j] == docs[j]
  {
    assert after[k].id == docs[k].id;
    assert forall j :: 0 <= j < |docs| ==> after[j].id == docs[j].id;
    SameIdsSameDocumentIndex(docs, after, docs[k].id);
  }

  // ---- The service object ----

  /** `DocumentService`: the unit of work, and the engine that shares it. */
  class DocumentService {
    const store: UnitOfWork
    const engine: WorkflowEngine

    constructor (store: UnitOfWork, engine: WorkflowEngine)
      requires engine.store == store
      ensures this.store == store && this.engine == engine
    {
      this.store := store;
      this.engine := engine;
    }

    /** `CreateDocumentAsync`. */
    method CreateDocument(req: DocumentRequest, now: Time) returns (d: Document)
      modifies store
      ensures (store.Snapshot(), d) == DocumentCreated(old(store.Snapshot()), req, now)
      ensures store.Clean()
    {
      var id := store.NewGuid();
      d := Document(id, req.title, req.fileName, req.filePath, req.documentType, req.department,
                    req.amount, Draft, req.submittedBy, now, None, None, "{}");
      store.AddDocument(d);
      store.SaveChanges();
    }

    /** `GetDocumentByIdAsync`: the first document with that id. */
    method GetDocumentById(id: Guid) returns (r: Option<Document>)
      ensures r.None? <==> forall j :: 0 <= j < |store.documents| ==> store.documents[j].id != id
      ensures r.Some? ==> r.value in store.documents && r.value.id == id
    {
      var found := IndexOfDocument(store.documents, id);
      if found.None? {
        return None;
      }
      return Some(store.documents[found.value]);
    }

    /** `GetDocumentsByStatusAsync`: exactly the documents with that status. */
    method GetDocumentsByStatus(status: string) returns (r: seq<Document>)
      ensures forall d :: d in r <==> d in store.documents && d.status == status
    {
      r := DocumentsWhere(store.documents, StatusColumn, status);
      forall d | true ensures d in r <==> d in store.documents && d.status == status {
        assert d in r <==> multiset(r)[d] > 0;
        assert d in store.documents <==> multiset(store.documents)[d] > 0;
      }
    }

    /** `SubmitDocumentForApprovalAsync`. */
    method SubmitDocumentForApproval(documentId: Guid, now: Time, fuel: nat) returns (r: Result<bool, Error>)
      requires engine.store == store
      modifies store
      ensures (store.Snapshot(), r) ==
              SubmitDocument(old(store.Snapshot()), old(engine.factory.entries), documentId, now, fuel)
    {
      var found := IndexOfDocument(store.documents, documentId);
      if found.None? {
        return Success(false);
      }
      var k := found.value;
      var document := store.documents[k];
      var workflow := ActiveByDocumentType(store.definitions, document.documentType);
      if workflow.None? {
        return Failure(InvalidOperation(NoActiveWorkflow(document.documentType)));
      }
      store.UpdateDocument(k, document.(status := Submitted, submittedAt := Some(now)));
      var started := engine.StartWorkflow(workflow.value.id, documentId, now, fuel);
      if started.Failure? {
        return Failure(started.error);
      }
      store.SaveChanges();
      return Success(true);
    }
  }
}
