/**
 * Workflow definitions (WorkflowService.cs): BPMN validation, versioned saving, deletion, listing,
 * and the structure query.
 */
module Definitions {
  import opened Wrappers
  import opened Seqs
  import opened Entities
  import opened Repositories
  import opened Bpmn
  import opened Store
  import Text

  // ---- ValidateBpmnAsync ----

  /** `BpmnValidationResult`. */
  datatype ValidationResult = ValidationResult(isValid: bool, errors: seq<string>, warnings: seq<string>)

  const NoProcess := "BPMN must contain at least one process"
  const NoStartEvent := "No start event found"
  const NoEndEvent := "No end event found"

  /** The entry for a document the parser rejects. */
  function ParseError(message: string): string
  {
    "XML parsing error: " + message
  }

  /**
   * What validation reports. Only a parse failure or a missing BPMN `process` element makes a
   * document invalid, and each of those is its one error; a missing start or end event is only a
   * warning. The element names are looked up in the BPMN namespace itself.
   */
  function Validation(xml: Xml): (r: ValidationResult)
    ensures r.isValid <==> xml.Parsed? && HasElement(xml.elements, BpmnNamespace, "process")
    ensures r.isValid <==> r.errors == []
    ensures xml.Malformed? ==> r.errors == [ParseError(xml.message)] && r.warnings == []
    ensures xml.Parsed? && !r.isValid ==> r.errors == [NoProcess]
    ensures NoStartEvent in r.warnings <==> xml.Parsed? && !HasElement(xml.elements, BpmnNamespace, "startEvent")
    ensures NoEndEvent in r.warnings <==> xml.Parsed? && !HasElement(xml.elements, BpmnNamespace, "endEvent")
    ensures |r.warnings| <= 2
  {
    match xml
    case Malformed(message) => ValidationResult(false, [ParseError(message)], [])
    case Parsed(es, _) =>
      var hasProcess := HasElement(es, BpmnNamespace, "process");
      ValidationResult(hasProcess, if hasProcess then [] else [NoProcess],
        (if HasElement(es, BpmnNamespace, "startEvent") then [] else [NoStartEvent]) +
        (if HasElement(es, BpmnNamespace, "endEvent") then [] else [NoEndEvent]))
  }

  /** Warnings never decide validity: with a process present, a document without events is valid. */
  lemma WarningsDoNotInvalidate(es: seq<Element>, ns: string)
    requires HasElement(es, BpmnNamespace, "process")
    requires !HasElement(es, BpmnNamespace, "startEvent") && !HasElement(es, BpmnNamespace, "endEvent")
    ensures Validation(Parsed(es, ns)) == ValidationResult(true, [], [NoStartEvent, NoEndEvent])
  {
  }

  // ---- SaveWorkflowDefinitionAsync ----

  /** The fields a caller supplies for a definition (`CreateWorkflowDefinitionDto`). */
  datatype DefinitionRequest = DefinitionRequest(name: string, description: string, documentType: string, bpmnXml: Xml)

  /** The message of the exception for a document that fails validation. */
  function InvalidBpmn(errors: seq<string>): string
  {
    "Invalid BPMN: " + Text.Join(errors, ", ")
  }

  /** The version a new definition named `name` gets: one past the latest of that name, or 1. */
  function NextVersion(defs: seq<WorkflowDefinition>, name: string): (v: int)
    ensures forall d :: d in defs && d.name == name ==> d.version < v
    ensures (forall d :: d in defs ==> d.name != name) ==> v == 1
    ensures (exists d :: d in defs && d.name == name) ==> exists d :: d in defs && d.name == name && v == d.version + 1
  {
    match LatestVersion(defs, name)
    case None => 1
    case Some(e) => e.version + 1
  }

  /** Turns off the definition `e` (the row carrying its id), leaving every other row alone. */
  function Deactivate(defs: seq<WorkflowDefinition>, e: WorkflowDefinition): seq<WorkflowDefinition>
  {
    match IndexOfDefinition(defs, e.id)
    case None => defs
    case Some(k) => defs[k := e.(isActive := false)]
  }

  /** The table once the latest definition named `name`, if any, is turned off. */
  function Retire(defs: seq<WorkflowDefinition>, name: string): seq<WorkflowDefinition>
  {
    match LatestVersion(defs, name)
    case None => defs
    case Some(e) => Deactivate(defs, e)
  }

  /** The definition a save adds: a fresh id, the next version of its name, active. */
  function NewDefinition(s: State, req: DefinitionRequest, now: Time): WorkflowDefinition
  {
    WorkflowDefinition(s.nextId, req.name, req.description, req.documentType,
                       NextVersion(s.definitions, req.name), true, req.bpmnXml, "{}", now, None, "system")
  }

  /**
   * `SaveWorkflowDefinitionAsync`: a document that fails validation throws and nothing is stored;
   * otherwise the latest definition of the same name, if any, is turned off, and an active
   * definition with a fresh id and the next version is added and saved.
   */
  function SaveDefinition(s: State, req: DefinitionRequest, now: Time): (res: (State, Result<WorkflowDefinition, Error>))
  {
    var validation := Validation(req.bpmnXml);
    if !validation.isValid then (s, Failure(InvalidOperation(InvalidBpmn(validation.errors))))
    else
      var w := NewDefinition(s, req, now);
      (s.(definitions := Retire(s.definitions, req.name) + [w], nextId := s.nextId + 1), Success(w))
  }

  /** The two outcomes of a save, given the document's validation result `v`. */
  lemma SaveDefinitionCases(s: State, req: DefinitionRequest, now: Time, v: ValidationResult)
    requires v == Validation(req.bpmnXml)
    ensures !v.isValid ==> SaveDefinition(s, req, now) == (s, Failure(InvalidOperation(InvalidBpmn(v.errors))))
    ensures v.isValid ==>
      var w := NewDefinition(s, req, now);
      SaveDefinition(s, req, now) == (s.(definitions := Retire(s.definitions, req.name) + [w], nextId := s.nextId + 1), Success(w))
  {
  }

  /** Saving fails exactly for a document validation rejects, and then nothing changes. */
  lemma SaveRejectsInvalid(s: State, req: DefinitionRequest, now: Time)
    ensures var res := SaveDefinition(s, req, now);
      res.1.Failure? <==> !(req.bpmnXml.Parsed? && HasElement(req.bpmnXml.elements, BpmnNamespace, "process"))
    ensures var res := SaveDefinition(s, req, now);
      res.1.Failure? ==> res == (s, Failure(InvalidOperation(InvalidBpmn(Validation(req.bpmnXml).errors))))
  {
  }

  /** Turning off the latest version keeps the table's length. */
  lemma RetireKeepsLength(defs: seq<WorkflowDefinition>, name: string)
    ensures |Retire(defs, name)| == |defs|
  {
  }

  /**
   * With distinct ids, turning off the latest version changes no row's id, name, type or version,
   * and activates nothing.
   */
  lemma RetireKeepsRows(defs: seq<WorkflowDefinition>, name: string)
    requires DistinctIds(defs)
    ensures var kept := Retire(defs, name);
      && |kept| == |defs|
      && forall i :: 0 <= i < |defs| ==>
           && kept[i].id == defs[i].id && kept[i].name == defs[i].name
           && kept[i].documentType == defs[i].documentType && kept[i].version == defs[i].version
           && (kept[i].isActive ==> defs[i].isActive)
  {
    match LatestVersion(defs, name)
    case None =>
    case Some(e) =>
      IndexOfMember(defs, e);
  }

  /**
   * A saved definition is active, is the new last row, and outranks every earlier version of its
   * name by exactly one past the highest; the first of a name is version 1.
   */
  lemma SaveVersioning(s: State, req: DefinitionRequest, now: Time)
    requires SaveDefinition(s, req, now).1.Success?
    ensures var res := SaveDefinition(s, req, now);
      var w := res.1.value;
      && w.isActive && w.name == req.name && w.id == s.nextId
      && |res.0.definitions| == |s.definitions| + 1 && res.0.definitions[|s.definitions|] == w
      && (forall d :: d in s.definitions && d.name == req.name ==> d.version < w.version)
      && ((forall d :: d in s.definitions ==> d.name != req.name) ==> w.version == 1)
      && ((exists d :: d in s.definitions && d.name == req.name) ==>
            exists d :: d in s.definitions && d.name == req.name && w.version == d.version + 1)
  {
    RetireKeepsLength(s.definitions, req.name);
  }

  /** Definition ids are distinct. */
  ghost predicate DistinctIds(defs: seq<WorkflowDefinition>)
  {
    forall i, j :: 0 <= i < j < |defs| ==> defs[i].id != defs[j].id
  }

  /** An active definition outranks every other definition of its name. */
  ghost predicate ActiveOutranks(defs: seq<WorkflowDefinition>)
  {
    forall i, j :: 0 <= i < |defs| && 0 <= j < |defs| && i != j && defs[i].isActive && defs[j].name == defs[i].name
      ==> defs[j].version < defs[i].version
  }

  /**
   * The definitions table is consistent: ids are distinct and below the id counter, and an active
   * definition outranks every other definition of its name.
   */
  ghost predicate VersionsConsistent(s: State)
  {
    && DistinctIds(s.definitions)
    && (forall i :: 0 <= i < |s.definitions| ==> s.definitions[i].id < s.nextId)
    && ActiveOutranks(s.definitions)
  }

  /** In a consistent table at most one definition per name is active. */
  lemma OneActivePerName(s: State, i: nat, j: nat)
    requires VersionsConsistent(s)
    requires i < |s.definitions| && j < |s.definitions| && i != j
    requires s.definitions[i].name == s.definitions[j].name
    ensures !(s.definitions[i].isActive && s.definitions[j].isActive)
  {
  }

  /** With distinct ids, the row found by a definition's id is that definition. */
  lemma IndexOfMember(defs: seq<WorkflowDefinition>, e: WorkflowDefinition)
    requires DistinctIds(defs)
    requires e in defs
    ensures IndexOfDefinition(defs, e.id).Some? && defs[IndexOfDefinition(defs, e.id).value] == e
  {
    var j :| 0 <= j < |defs| && defs[j] == e;
    var k := IndexOfDefinition(defs, e.id).value;
    assert !(k < j) && !(j < k);
  }

  /** In a consistent table, turning off the latest version of a name leaves no version of it active. */
  lemma RetireTurnsOffName(defs: seq<WorkflowDefinition>, name: string)
    requires DistinctIds(defs) && ActiveOutranks(defs)
    ensures forall i :: 0 <= i < |defs| && defs[i].name == name ==> !Retire(defs, name)[i].isActive
  {
    match LatestVersion(defs, name)
    case None =>
    case Some(e) =>
      IndexOfMember(defs, e);
      var k := IndexOfDefinition(defs, e.id).value;
      assert Retire(defs, name) == defs[k := e.(isActive := false)];
      forall i | 0 <= i < |defs| && i != k && defs[i].name == name ensures !defs[i].isActive {
        assert defs[i] in defs;
        assert defs[k].version >= defs[i].version;
      }
  }

  /** Appending a definition that outranks its whole name keeps `ActiveOutranks`, once the name is off. */
  lemma AppendOutranking(kept: seq<WorkflowDefinition>, w: WorkflowDefinition)
    requires ActiveOutranks(kept)
    requires forall i :: 0 <= i < |kept| && kept[i].name == w.name ==> !kept[i].isActive && kept[i].version < w.version
    ensures ActiveOutranks(kept + [w])
  {
    var r := kept + [w];
    forall i, j | 0 <= i < |r| && 0 <= j < |r| && i != j && r[i].isActive && r[j].name == r[i].name
      ensures r[j].version < r[i].version
    {
      if i == |kept| {
        assert r[j] == kept[j];
      } else if j == |kept| {
        assert false;
      } else {
        assert r[i] == kept[i] && r[j] == kept[j];
      }
    }
  }

  /** Saving keeps the table consistent: the old latest version is off and the new one outranks all. */
  lemma {:induction false} SaveKeepsVersionsConsistent(s: State, req: DefinitionRequest, now: Time)
    requires VersionsConsistent(s)
    ensures VersionsConsistent(SaveDefinition(s, req, now).0)
  {
    if Validation(req.bpmnXml).isValid {
      var defs := s.definitions;
      var kept := Retire(defs, req.name);
      var w := NewDefinition(s, req, now);
      RetireKeepsRows(defs, req.name);
      RetireTurnsOffName(defs, req.name);
      KeptOutranks(kept, defs);
      forall i | 0 <= i < |kept| && kept[i].name == w.name ensures kept[i].version < w.version {
        assert defs[i] in defs;
      }
      AppendOutranking(kept, w);
      AppendFresh(kept, w);
      assert SaveDefinition(s, req, now).0.definitions == kept + [w];
    }
  }

  /** A table with the same rows, fewer of them active, keeps the consistency of the original. */
  lemma KeptOutranks(kept: seq<WorkflowDefinition>, defs: seq<WorkflowDefinition>)
    requires DistinctIds(defs) && ActiveOutranks(defs) && |kept| == |defs|
    requires forall i :: 0 <= i < |defs| ==>
               && kept[i].id == defs[i].id && kept[i].name == defs[i].name && kept[i].version == defs[i].version
               && (kept[i].isActive ==> defs[i].isActive)
    ensures DistinctIds(kept) && ActiveOutranks(kept)
  {
  }

  /** A row whose id is above every id in the table keeps the ids distinct. */
  lemma AppendFresh(kept: seq<WorkflowDefinition>, w: WorkflowDefinition)
    requires DistinctIds(kept) && forall i :: 0 <= i < |kept| ==> kept[i].id < w.id
    ensures DistinctIds(kept + [w]) && forall i :: 0 <= i < |kept| + 1 ==> (kept + [w])[i].id < w.id + 1
  {
    var r := kept + [w];
    forall i, j | 0 <= i < j < |r| ensures r[i].id != r[j].id {
      assert r[i] == kept[i];
    }
  }

  /** Saving turns off only by name: two differently named definitions for one type both stay active. */
  lemma TwoActiveForOneType(s: State, req: DefinitionRequest, now: Time, i: nat)
    requires DistinctIds(s.definitions)
    requires i < |s.definitions| && s.definitions[i].isActive
    requires s.definitions[i].documentType == req.documentType && s.definitions[i].name != req.name
    requires SaveDefinition(s, req, now).1.Success?
    ensures var defs := SaveDefinition(s, req, now).0.definitions;
      defs[i].isActive && defs[|defs| - 1].isActive &&
      defs[i].documentType == defs[|defs| - 1].documentType
  {
    var defs := s.definitions;
    var kept := Retire(defs, req.name);
    RetireKeepsLength(defs, req.name);
    assert SaveDefinition(s, req, now).0.definitions == kept + [NewDefinition(s, req, now)];
    match LatestVersion(defs, req.name)
    case None =>
    case Some(e) =>
      IndexOfMember(defs, e);
      var k := IndexOfDefinition(defs, e.id).value;
      assert k != i;
      assert kept[i] == defs[i];
  }

  // ---- DeleteWorkflowAsync ----

  /**
   * `DeleteWorkflowAsync(id)`: `false` when missing; a definition some instance still refers to is
   * protected by the database (the restricted foreign key), so the save throws; otherwise the row
   * is removed and saved.
   */
  function DeleteDefinition(s: State, id: Guid): (res: (State, Result<bool, Error>))
    ensures res.1 == Success(false) <==> IndexOfDefinition(s.definitions, id).None?
    ensures res.1 == Failure(ForeignKeyViolation) <==>
            IndexOfDefinition(s.definitions, id).Some? && exists j :: 0 <= j < |s.instances| && s.instances[j].definitionId == id
    ensures res.1.Failure? ==> res.1 == Failure(ForeignKeyViolation) && res.0 == s
    ensures res.1 != Success(true) ==> res.0 == s
    ensures res.0.(definitions := s.definitions) == s
  {
    match IndexOfDefinition(s.definitions, id)
    case None => (s, Success(false))
    case Some(k) =>
      if exists j :: 0 <= j < |s.instances| && s.instances[j].definitionId == id then (s, Failure(ForeignKeyViolation))
      else (s.(definitions := s.definitions[..k] + s.definitions[k + 1..]), Success(true))
  }

  /** With distinct ids, removing the row `k` removes exactly the rows with its id. */
  lemma RemoveRow(defs: seq<WorkflowDefinition>, k: nat)
    requires k < |defs| && DistinctIds(defs)
    ensures var r := defs[..k] + defs[k + 1..];
      && |r| == |defs| - 1
      && (forall j :: 0 <= j < |r| ==> r[j].id != defs[k].id)
      && forall d :: d in r <==> d in defs && d.id != defs[k].id
  {
    var r := defs[..k] + defs[k + 1..];
    assert forall j :: 0 <= j < |r| ==> r[j] == defs[if j < k then j else j + 1];
    forall d | d in defs && d.id != defs[k].id ensures d in r {
      var j :| 0 <= j < |defs| && defs[j] == d;
      assert r[if j < k then j else j - 1] == d;
    }
  }

  /** With distinct ids, a deletion removes exactly the definition with that id and keeps the rest. */
  lemma DeleteRemovesOnlyThatRow(s: State, id: Guid)
    requires DistinctIds(s.definitions)
    requires DeleteDefinition(s, id).1 == Success(true)
    ensures var defs := DeleteDefinition(s, id).0.definitions;
      && |defs| == |s.definitions| - 1
      && IndexOfDefinition(defs, id).None?
      && forall d :: d in defs <==> d in s.definitions && d.id != id
  {
    var k := IndexOfDefinition(s.definitions, id).value;
    assert DeleteDefinition(s, id).0.definitions == s.definitions[..k] + s.definitions[k + 1..];
    RemoveRow(s.definitions, k);
  }

  /** Removing row `k` keeps ids distinct and active definitions outranking. */
  lemma RemoveKeepsOrder(defs: seq<WorkflowDefinition>, k: nat)
    requires k < |defs| && DistinctIds(defs) && ActiveOutranks(defs)
    ensures DistinctIds(defs[..k] + defs[k + 1..]) && ActiveOutranks(defs[..k] + defs[k + 1..])
  {
    var r := defs[..k] + defs[k + 1..];
    assert forall j :: 0 <= j < |r| ==> r[j] == defs[if j < k then j else j + 1];
    forall i, j | 0 <= i < j < |r| ensures r[i].id != r[j].id {
      assert r[i] == defs[if i < k then i else i + 1] && r[j] == defs[if j < k then j else j + 1];
    }
    forall i, j | 0 <= i < |r| && 0 <= j < |r| && i != j && r[i].isActive && r[j].name == r[i].name
      ensures r[j].version < r[i].version
    {
      assert r[i] == defs[if i < k then i else i + 1] && r[j] == defs[if j < k then j else j + 1];
    }
  }

  /** Deleting keeps the table consistent. */
  lemma DeleteKeepsVersionsConsistent(s: State, id: Guid)
    requires VersionsConsistent(s)
    ensures VersionsConsistent(DeleteDefinition(s, id).0)
  {
    var res := DeleteDefinition(s, id);
    if res.1 == Success(true) {
      var k := IndexOfDefinition(s.definitions, id).value;
      var r := s.definitions[..k] + s.definitions[k + 1..];
      assert res.0.definitions == r;
      RemoveKeepsOrder(s.definitions, k);
      assert forall j :: 0 <= j < |r| ==> r[j] == s.definitions[if j < k then j else j + 1];
    }
  }

  // ---- ParseBpmnStructureAsync ----

  /** The structure query as written: element names are taken in the root's default namespace. */
  function ParseStructureAsWritten(xml: Xml): (r: Structure)
    ensures xml.Malformed? <==> r.StructureError?
    ensures xml.Parsed? ==>
      var ix := ProcessIndices(xml.elements, 0, xml.rootDefaultNamespace);
      && |r.processes| == |ix| == CountNamed(xml.elements, xml.rootDefaultNamespace, "process")
      && forall k :: 0 <= k < |ix| ==> r.processes[k] == Summary(xml.elements, ix[k], xml.rootDefaultNamespace)
  {
    match xml
    case Malformed(_) => StructureIn(xml, "")
    case Parsed(_, ns) => StructureIn(xml, ns)
  }

  /** The structure query in the BPMN namespace, as validation looks names up. */
  function ParseStructure(xml: Xml): (r: Structure)
    ensures xml.Malformed? <==> r.StructureError?
    ensures xml.Parsed? ==>
      var ix := ProcessIndices(xml.elements, 0, BpmnNamespace);
      && |r.processes| == |ix| == CountNamed(xml.elements, BpmnNamespace, "process")
      && forall k :: 0 <= k < |ix| ==> r.processes[k] == Summary(xml.elements, ix[k], BpmnNamespace)
  {
    StructureIn(xml, BpmnNamespace)
  }

  /** Every document validation accepts has a process in its structure, and the converse. */
  lemma StructureAgreesWithValidation(xml: Xml)
    ensures Validation(xml).isValid <==> ParseStructure(xml).Processes? && |ParseStructure(xml).processes| > 0
  {
  }

  /**
   * A document that binds the BPMN namespace to a prefix, and declares no default namespace in
   * which an element lives, is valid, yet the structure query as written lists no process.
   */
  lemma {:induction false} PrefixedDocumentLosesProcesses(es: seq<Element>, rootNs: string)
    requires HasElement(es, BpmnNamespace, "process")
    requires forall j :: 0 <= j < |es| ==> es[j].ns != rootNs
    ensures Validation(Parsed(es, rootNs)).isValid
    ensures ParseStructureAsWritten(Parsed(es, rootNs)) == Processes([])
    ensures |ParseStructure(Parsed(es, rootNs)).processes| > 0
  {
    assert !HasElement(es, rootNs, "process");
    assert CountNamed(es, rootNs, "process") == 0;
  }

  // ---- The service object ----

  /** `WorkflowService`: the unit of work. */
  class WorkflowService {
    const store: UnitOfWork

    constructor (store: UnitOfWork)
      ensures this.store == store
    {
      this.store := store;
    }

    /** `ValidateBpmnAsync`: one pass, adding errors and warnings as each check fails. */
    method ValidateBpmn(xml: Xml) returns (r: ValidationResult)
      ensures r == Validation(xml)
    {
      var isValid := true;
      var errors: seq<string> := [];
      var warnings: seq<string> := [];
      if xml.Malformed? {
        isValid := false;
        errors := errors + [ParseError(xml.message)];
      } else {
        var es := xml.elements;
        if !HasElement(es, BpmnNamespace, "process") {
          isValid := false;
          errors := errors + [NoProcess];
        }
        if !HasElement(es, BpmnNamespace, "startEvent") {
          warnings := warnings + [NoStartEvent];
        }
        if !HasElement(es, BpmnNamespace, "endEvent") {
          warnings := warnings + [NoEndEvent];
        }
      }
      return ValidationResult(isValid, errors, warnings);
    }

    /** `SaveWorkflowDefinitionAsync`. */
    method SaveWorkflowDefinition(req: DefinitionRequest, now: Time) returns (r: Result<WorkflowDefinition, Error>)
      modifies store
      ensures (store.Snapshot(), r) == SaveDefinition(old(store.Snapshot()), req, now)
      ensures r.Success? ==> store.Clean()
    {
      ghost var s := store.Snapshot();
      var validation := ValidateBpmn(req.bpmnXml);
      assert store.Snapshot() == s;
      SaveDefinitionCases(s, req, now, validation);
      if !validation.isValid {
        return Failure(InvalidOperation(InvalidBpmn(validation.errors)));
      }
      var workflow := AddVersion(req, now);
      return Success(workflow);
    }

    /** The save proper: the latest version of the name is turned off and the new one added. */
    method AddVersion(req: DefinitionRequest, now: Time) returns (w: WorkflowDefinition)
      modifies store
      ensures var s := old(store.Snapshot());
        w == NewDefinition(s, req, now) &&
        store.Snapshot() == s.(definitions := Retire(s.definitions, req.name) + [w], nextId := s.nextId + 1)
      ensures store.Clean()
    {
      ghost var s := store.Snapshot();
      var existing := LatestVersion(store.definitions, req.name);
      var version := if existing.Some? then existing.value.version + 1 else 1;
      var id := store.NewGuid();
      w := WorkflowDefinition(id, req.name, req.description, req.documentType, version, true,
                              req.bpmnXml, "{}", now, None, "system");
      ghost var s1 := store.Snapshot();
      assert s1 == s.(nextId := s.nextId + 1);
      if existing.Some? {
        var found := IndexOfDefinition(store.definitions, existing.value.id);
        if found.Some? {
          store.UpdateDefinition(found.value, existing.value.(isActive := false));
        }
      }
      assert store.Snapshot() == s1.(definitions := Retire(s.definitions, req.name));
      store.AddDefinition(w);
      store.SaveChanges();
    }

    /** `GetAllWorkflowsAsync`: every definition, newest first. */
    method GetAllWorkflows() returns (r: seq<WorkflowDefinition>)
      ensures multiset(r) == multiset(store.definitions)
      ensures forall i, j :: 0 <= i < j < |r| ==> r[i].createdAt >= r[j].createdAt
    {
      r := SortDesc(store.definitions, (w: WorkflowDefinition) => w.createdAt);
    }

    /** `DeleteWorkflowAsync`. */
    method DeleteWorkflow(id: Guid) returns (r: Result<bool, Error>)
      modifies store
      ensures (store.Snapshot(), r) == DeleteDefinition(old(store.Snapshot()), id)
      ensures r == Success(true) ==> store.Clean()
    {
      var found := IndexOfDefinition(store.definitions, id);
      if found.None? {
        return Success(false);
      }
      var referenced := exists j :: 0 <= j < |store.instances| && store.instances[j].definitionId == id;
      if referenced {
        return Failure(ForeignKeyViolation);
      }
      store.RemoveDefinition(found.value);
      store.SaveChanges();
      return Success(true);
    }
  }
}
