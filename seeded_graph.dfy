/**
 * The workflow definition DataSeeder.cs installs ("Simple Document Approval"): its BPMN document
 * as the parser's element list, and the path the resolver finds through it.
 */
module SeededGraph {
  import opened Wrappers
  import opened Bpmn
  import opened Definitions

  const BpmnDiNamespace := "http://www.omg.org/spec/BPMN/20100524/DI"
  const DcNamespace := "http://www.omg.org/spec/DD/20100524/DC"
  const DiNamespace := "http://www.omg.org/spec/DD/20100524/DI"

  /** The process element, its nodes with their `incoming`/`outgoing` children, and its flows, in document order. */
  const ProcessPart: seq<Element> := [
    Element(BpmnNamespace, "definitions", 0, Some("Definitions_Simple"), None, None, None),
    Element(BpmnNamespace, "process", 1, Some("SimpleApprovalProcess"), Some("Simple Document Approval"), None, None),
    Element(BpmnNamespace, "startEvent", 2, Some("StartEvent_1"), Some("Submit"), None, None),
    Element(BpmnNamespace, "outgoing", 3, None, None, None, None),
    Element(BpmnNamespace, "serviceTask", 2, Some("Task_Validate"), Some("Validate Document"), None, None),
    Element(BpmnNamespace, "incoming", 3, None, None, None, None),
    Element(BpmnNamespace, "outgoing", 3, None, None, None, None),
    Element(BpmnNamespace, "userTask", 2, Some("Task_Approve"), Some("Manager Approval"), None, None),
    Element(BpmnNamespace, "incoming", 3, None, None, None, None),
    Element(BpmnNamespace, "outgoing", 3, None, None, None, None),
    Element(BpmnNamespace, "serviceTask", 2, Some("Task_Publish"), Some("Publish Document"), None, None),
    Element(BpmnNamespace, "incoming", 3, None, None, None, None),
    Element(BpmnNamespace, "outgoing", 3, None, None, None, None),
    Element(BpmnNamespace, "endEvent", 2, Some("EndEvent_1"), Some("Complete"), None, None),
    Element(BpmnNamespace, "incoming", 3, None, None, None, None),
    Element(BpmnNamespace, "sequenceFlow", 2, Some("Flow_1"), None, Some("StartEvent_1"), Some("Task_Validate")),
    Element(BpmnNamespace, "sequenceFlow", 2, Some("Flow_2"), None, Some("Task_Validate"), Some("Task_Approve")),
    Element(BpmnNamespace, "sequenceFlow", 2, Some("Flow_3"), None, Some("Task_Approve"), Some("Task_Publish")),
    Element(BpmnNamespace, "sequenceFlow", 2, Some("Flow_4"), None, Some("Task_Publish"), Some("EndEvent_1"))]
  const Diagram: seq<Element> := [
    Element(BpmnDiNamespace, "BPMNDiagram", 1, Some("BPMNDiagram_1"), None, None, None),
    Element(BpmnDiNamespace, "BPMNPlane", 2, Some("BPMNPlane_1"), None, None, None),
    Element(BpmnDiNamespace, "BPMNShape", 3, Some("StartEvent_1_di"), None, None, None),
    Element(DcNamespace, "Bounds", 4, None, None, None, None),
    Element(BpmnDiNamespace, "BPMNLabel", 4, None, None, None, None),
    Element(DcNamespace, "Bounds", 5, None, None, None, None),
    Element(BpmnDiNamespace, "BPMNShape", 3, Some("Task_Validate_di"), None, None, None),
    Element(DcNamespace, "Bounds", 4, None, None, None, None),
    Element(BpmnDiNamespace, "BPMNShape", 3, Some("Task_Approve_di"), None, None, None),
    Element(DcNamespace, "Bounds", 4, None, None, None, None),
    Element(BpmnDiNamespace, "BPMNShape", 3, Some("Task_Publish_di"), None, None, None),
    Element(DcNamespace, "Bounds", 4, None, None, None, None),
    Element(BpmnDiNamespace, "BPMNShape", 3, Some("EndEvent_1_di"), None, None, None),
    Element(DcNamespace, "Bounds", 4, None, None, None, None),
    Element(BpmnDiNamespace, "BPMNLabel", 4, None, None, None, None),
    Element(DcNamespace, "Bounds", 5, None, None, None, None),
    Element(BpmnDiNamespace, "BPMNEdge", 3, Some("Flow_1_di"), None, None, None),
    Element(DiNamespace, "waypoint", 4, None, None, None, None),
    Element(DiNamespace, "waypoint", 4, None, None, None, None),
    Element(BpmnDiNamespace, "BPMNEdge", 3, Some("Flow_2_di"), None, None, None),
    Element(DiNamespace, "waypoint", 4, None, None, None, None),
    Element(DiNamespace, "waypoint", 4, None, None, None, None),
    Element(BpmnDiNamespace, "BPMNEdge", 3, Some("Flow_3_di"), None, None, None),
    Element(DiNamespace, "waypoint", 4, None, None, None, None),
    Element(DiNamespace, "waypoint", 4, None, None, None, None),
    Element(BpmnDiNamespace, "BPMNEdge", 3, Some("Flow_4_di"), None, None, None),
    Element(DiNamespace, "waypoint", 4, None, None, None, None),
    Element(DiNamespace, "waypoint", 4, None, None, None, None)]

  const SeededElements: seq<Element> := ProcessPart + Diagram
  const SeededXml: Xml := Parsed(SeededElements, "")

  const ValidateStep := Step("Task_Validate", "Validate Document", "serviceTask")
  const ApproveStep := Step("Task_Approve", "Manager Approval", "userTask")
  const PublishStep := Step("Task_Publish", "Publish Document", "serviceTask")
  const EndStep := Step("EndEvent_1", "Complete", "endEvent")

  // ---- The lookups in the seeded process ----

  lemma StartInProcess()
    ensures FirstStartEvent(ProcessPart) == Some(2) && ProcessPart[2].id == Some("StartEvent_1")
  {
    var es := ProcessPart;
    assert IsBpmn(es[2], "startEvent");
    assert !IsBpmn(es[0], "startEvent") && !IsBpmn(es[1], "startEvent");
  }

  lemma ValidateInProcess()
    ensures FirstWithId(ProcessPart, "Task_Validate") == Some(4)
    ensures ProcessPart[4].name == Some("Validate Document") && ProcessPart[4].localName == "serviceTask"
  {
    var es := ProcessPart;
    assert es[4].id == Some("Task_Validate");
    assert forall j :: 0 <= j < 4 ==> es[j].id != Some("Task_Validate");
  }

  lemma ApproveInProcess()
    ensures FirstWithId(ProcessPart, "Task_Approve") == Some(7)
    ensures ProcessPart[7].name == Some("Manager Approval") && ProcessPart[7].localName == "userTask"
  {
    var es := ProcessPart;
    assert es[7].id == Some("Task_Approve");
    assert forall j :: 0 <= j < 7 ==> es[j].id != Some("Task_Approve");
  }

  lemma PublishInProcess()
    ensures FirstWithId(ProcessPart, "Task_Publish") == Some(10)
    ensures ProcessPart[10].name == Some("Publish Document") && ProcessPart[10].localName == "serviceTask"
  {
    var es := ProcessPart;
    assert es[10].id == Some("Task_Publish");
    assert forall j :: 0 <= j < 10 ==> es[j].id != Some("Task_Publish");
  }

  lemma EndInProcess()
    ensures FirstWithId(ProcessPart, "EndEvent_1") == Some(13)
    ensures ProcessPart[13].name == Some("Complete") && ProcessPart[13].localName == "endEvent"
  {
    var es := ProcessPart;
    assert es[13].id == Some("EndEvent_1");
    assert forall j :: 0 <= j < 13 ==> es[j].id != Some("EndEvent_1");
  }

  lemma FlowFromStart()
    ensures FirstFlowFrom(ProcessPart, Some("StartEvent_1")) == Some(15)
    ensures ProcessPart[15].targetRef == Some("Task_Validate")
  {
    var es := ProcessPart;
    assert forall j :: 0 <= j < 15 ==> !IsBpmn(es[j], "sequenceFlow");
    assert IsFlowFrom(es[15], Some("StartEvent_1"));
  }

  lemma FlowFromValidate()
    ensures FirstFlowFrom(ProcessPart, Some("Task_Validate")) == Some(16)
    ensures ProcessPart[16].targetRef == Some("Task_Approve")
  {
    var es := ProcessPart;
    assert forall j :: 0 <= j < 15 ==> !IsBpmn(es[j], "sequenceFlow");
    assert !IsFlowFrom(es[15], Some("Task_Validate"));
    assert IsFlowFrom(es[16], Some("Task_Validate"));
  }

  lemma FlowFromApprove()
    ensures FirstFlowFrom(ProcessPart, Some("Task_Approve")) == Some(17)
    ensures ProcessPart[17].targetRef == Some("Task_Publish")
  {
    var es := ProcessPart;
    assert forall j :: 0 <= j < 15 ==> !IsBpmn(es[j], "sequenceFlow");
    assert !IsFlowFrom(es[15], Some("Task_Approve")) && !IsFlowFrom(es[16], Some("Task_Approve"));
    assert IsFlowFrom(es[17], Some("Task_Approve"));
  }

  lemma FlowFromPublish()
    ensures FirstFlowFrom(ProcessPart, Some("Task_Publish")) == Some(18)
    ensures ProcessPart[18].targetRef == Some("EndEvent_1")
  {
    var es := ProcessPart;
    assert forall j :: 0 <= j < 15 ==> !IsBpmn(es[j], "sequenceFlow");
    assert forall j :: 15 <= j < 18 ==> es[j].sourceRef != Some("Task_Publish");
    assert IsFlowFrom(es[18], Some("Task_Publish"));
  }

  lemma NoFlowFromEnd()
    ensures FirstFlowFrom(ProcessPart, Some("EndEvent_1")) == None
    ensures FirstFlowFrom(Diagram, Some("EndEvent_1")) == None
  {
    var es := ProcessPart;
    assert forall j :: 0 <= j < 15 ==> !IsBpmn(es[j], "sequenceFlow");
    assert forall j :: 15 <= j < 19 ==> es[j].sourceRef != Some("EndEvent_1");
    assert forall j :: 0 <= j < |Diagram| ==> Diagram[j].ns != BpmnNamespace;
  }

  // ---- The seeded graph, node by node ----

  lemma StartNextInProcess()
    ensures FindNextStep(Parsed(ProcessPart, ""), "") == Some(ValidateStep)
  {
    StartInProcess();
    FlowFromStart();
    ValidateInProcess();
    StartVia(ProcessPart, "", 2, 15, 4, ValidateStep);
  }

  /** A submitted document enters the graph at the validation service task. */
  lemma FromStart()
    ensures FindNextStep(SeededXml, "") == Some(ValidateStep)
  {
    StartNextInProcess();
    StartInProcess();
    NextInPrefix(ProcessPart, Diagram, "", "");
  }

  lemma ValidateNextInProcess()
    ensures FindNextStep(Parsed(ProcessPart, ""), "Task_Validate") == Some(ApproveStep)
  {
    ValidateInProcess();
    FlowFromValidate();
    ApproveInProcess();
    NextVia(ProcessPart, "", "Task_Validate", 16, 7, ApproveStep);
  }

  /** After validation comes the manager's approval. */
  lemma FromValidate()
    ensures FindNextStep(SeededXml, "Task_Validate") == Some(ApproveStep)
  {
    ValidateNextInProcess();
    ValidateInProcess();
    NextInPrefix(ProcessPart, Diagram, "", "Task_Validate");
  }

  lemma ApproveNextInProcess()
    ensures FindNextStep(Parsed(ProcessPart, ""), "Task_Approve") == Some(PublishStep)
  {
    ApproveInProcess();
    FlowFromApprove();
    PublishInProcess();
    NextVia(ProcessPart, "", "Task_Approve", 17, 10, PublishStep);
  }

  /** After the approval comes publication. */
  lemma FromApprove()
    ensures FindNextStep(SeededXml, "Task_Approve") == Some(PublishStep)
  {
    ApproveNextInProcess();
    ApproveInProcess();
    NextInPrefix(ProcessPart, Diagram, "", "Task_Approve");
  }

  lemma PublishNextInProcess()
    ensures FindNextStep(Parsed(ProcessPart, ""), "Task_Publish") == Some(EndStep)
  {
    PublishInProcess();
    FlowFromPublish();
    EndInProcess();
    NextVia(ProcessPart, "", "Task_Publish", 18, 13, EndStep);
  }

  /** After publication comes the end event. */
  lemma FromPublish()
    ensures FindNextStep(SeededXml, "Task_Publish") == Some(EndStep)
  {
    PublishNextInProcess();
    PublishInProcess();
    NextInPrefix(ProcessPart, Diagram, "", "Task_Publish");
  }

  /** The end event has no outgoing flow: nothing follows it. */
  lemma FromEnd()
    ensures FindNextStep(SeededXml, "EndEvent_1") == None
  {
    EndInProcess();
    FirstIdPrefix(ProcessPart, Diagram, "EndEvent_1");
    NoFlowFromEnd();
    FirstFlowPrefix(ProcessPart, Diagram, Some("EndEvent_1"));
  }

  // ---- The seeded document and the structure query ----

  /** Every element of the seeded document lives in a namespace bound to a prefix. */
  lemma NoUnprefixedElement()
    ensures forall j :: 0 <= j < |SeededElements| ==> SeededElements[j].ns != ""
  {
    assert forall j :: 0 <= j < |ProcessPart| ==> ProcessPart[j].ns == BpmnNamespace;
    assert forall j :: 0 <= j < |Diagram| ==> Diagram[j].ns != "";
    forall j | 0 <= j < |SeededElements| ensures SeededElements[j].ns != "" {
      if j < |ProcessPart| {
        assert SeededElements[j] == ProcessPart[j];
      } else {
        assert SeededElements[j] == Diagram[j - |ProcessPart|];
      }
    }
  }

  /**
   * The seeded document declares no default namespace: validation accepts it, the structure query
   * as written lists no process in it, and the corrected query lists its process.
   */
  lemma SeededStructure()
    ensures Validation(SeededXml).isValid
    ensures ParseStructureAsWritten(SeededXml) == Processes([])
    ensures |ParseStructure(SeededXml).processes| > 0
  {
    assert SeededElements[1] == ProcessPart[1];
    assert IsNamed(SeededElements[1], BpmnNamespace, "process");
    NoUnprefixedElement();
    PrefixedDocumentLosesProcesses(SeededElements, "");
  }
}
