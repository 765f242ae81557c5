/**
 * The BPMN 2.0 process graph as the engine sees it after `XDocument.Parse`, and the graph
 * resolver `FindNextStepAsync` of WorkflowEngineService.
 *
 * A parsed document is its elements in document order (what `Descendants()` enumerates); each
 * element carries its namespace, local name, nesting depth (the root has depth 0) and the
 * unqualified attributes the engine reads. Every "first" below is `FirstOrDefault` over that order.
 */
module Bpmn {
  import opened Wrappers
  import opened Seqs

  /** OMG BPMN 2.0 model namespace. */
  const BpmnNamespace := "http://www.omg.org/spec/BPMN/20100524/MODEL"
  /** The placeholder name of a node without a `name` attribute. */
  const Unnamed := "Unnamed"

  datatype Element = Element(
    ns: string,
    localName: string,
    depth: nat,
    id: Option<string>,
    name: Option<string>,
    sourceRef: Option<string>,
    targetRef: Option<string>)

  /** Result of `XDocument.Parse`: the elements, or the message of the exception it throws. */
  datatype Xml =
    | Parsed(elements: seq<Element>, rootDefaultNamespace: string)
    | Malformed(message: string)

  /** The `BpmnStep` the resolver returns: node id, display name and element local name. */
  datatype Step = Step(id: string, name: string, kind: string)

  /** `e` is the element `ns + local`. */
  predicate IsNamed(e: Element, ns: string, local: string)
  {
    e.ns == ns && e.localName == local
  }

  /** `e` is the BPMN element `local`. */
  predicate IsBpmn(e: Element, local: string)
  {
    IsNamed(e, BpmnNamespace, local)
  }

  /** `e` is a `sequenceFlow` whose `sourceRef` is `src` (both possibly absent). */
  predicate IsFlowFrom(e: Element, src: Option<string>)
  {
    IsBpmn(e, "sequenceFlow") && e.sourceRef == src
  }

  /** `name` attribute, or the placeholder. */
  function NameOf(e: Element): string
  {
    match e.name
    case Some(n) => n
    case None => Unnamed
  }

  /** First `startEvent` in document order. */
  function FirstStartEvent(es: seq<Element>): (r: Option<nat>)
    ensures r.Some? ==> r.value < |es| && IsBpmn(es[r.value], "startEvent")
    ensures r.Some? ==> forall j :: 0 <= j < r.value ==> !IsBpmn(es[j], "startEvent")
    ensures r.None? <==> forall j :: 0 <= j < |es| ==> !IsBpmn(es[j], "startEvent")
  {
    if es == [] then None
    else if IsBpmn(es[0], "startEvent") then Some(0)
    else match FirstStartEvent(es[1..])
      case None => None
      case Some(k) => Some(k + 1)
  }

  /** First `sequenceFlow` whose `sourceRef` equals `src` (both possibly absent). */
  function FirstFlowFrom(es: seq<Element>, src: Option<string>): (r: Option<nat>)
    ensures r.Some? ==> r.value < |es| && IsFlowFrom(es[r.value], src)
    ensures r.Some? ==> forall j :: 0 <= j < r.value ==> !IsFlowFrom(es[j], src)
    ensures r.None? <==> forall j :: 0 <= j < |es| ==> !IsFlowFrom(es[j], src)
  {
    if es == [] then None
    else if IsFlowFrom(es[0], src) then Some(0)
    else match FirstFlowFrom(es[1..], src)
      case None => None
      case Some(k) => Some(k + 1)
  }

  /** First element of any kind whose `id` attribute is `id`. */
  function FirstWithId(es: seq<Element>, id: string): (r: Option<nat>)
    ensures r.Some? ==> r.value < |es| && es[r.value].id == Some(id)
    ensures r.Some? ==> forall j :: 0 <= j < r.value ==> es[j].id != Some(id)
    ensures r.None? <==> forall j :: 0 <= j < |es| ==> es[j].id != Some(id)
  {
    if es == [] then None
    else if es[0].id == Some(id) then Some(0)
    else match FirstWithId(es[1..], id)
      case None => None
      case Some(k) => Some(k + 1)
  }

  /** The step for the first element carrying the flow target `target`; None if absent or unresolved. */
  function TargetStep(es: seq<Element>, target: Option<string>): Option<Step>
  {
    match target
    case None => None
    case Some(t) =>
      match FirstWithId(es, t)
      case None => None
      case Some(k) => Some(Step(t, NameOf(es[k]), es[k].localName))
  }

  /** Some sequence flow targets `st`, and `st` is what the first element carrying its id stands for. */
  ghost predicate LeadsTo(es: seq<Element>, st: Step)
  {
    (exists f :: 0 <= f < |es| && IsBpmn(es[f], "sequenceFlow") && es[f].targetRef == Some(st.id)) &&
    exists k :: Denotes(es, st.id, k, st)
  }

  /** Resolution from the start: target of the first flow leaving the first start event. */
  function StartStep(es: seq<Element>): Option<Step>
  {
    match FirstStartEvent(es)
    case None => None
    case Some(i) =>
      match FirstFlowFrom(es, es[i].id)
      case None => None
      case Some(f) => TargetStep(es, es[f].targetRef)
  }

  /**
   * `FindNextStepAsync(bpmnXml, currentStepId)`: the node reached by the first outgoing flow of
   * the current node, the start resolution when the current id is empty or unknown, and None on a
   * parse failure, a missing flow or an unresolved target.
   */
  function FindNextStep(xml: Xml, current: string): Option<Step>
  {
    match xml
    case Malformed(_) => None
    case Parsed(es, _) =>
      if current == "" then StartStep(es)
      else match FirstWithId(es, current)
        case None => StartStep(es)
        case Some(_) =>
          match FirstFlowFrom(es, Some(current))
          case None => None
          case Some(f) => TargetStep(es, es[f].targetRef)
  }

  // ---- Relational description of the resolver ----

  /** A resolved target is the step of the first element carrying the target id. */
  lemma TargetStepDenotes(es: seq<Element>, target: Option<string>)
    ensures var r := TargetStep(es, target);
      r.Some? ==> target == Some(r.value.id) && exists k :: Denotes(es, r.value.id, k, r.value)
  {
    if target.Some? && FirstWithId(es, target.value).Some? {
      var k := FirstWithId(es, target.value).value;
      assert Denotes(es, target.value, k, TargetStep(es, target).value);
    }
  }

  /**
   * Whatever the resolver returns is the target of some sequence flow, and is what the first
   * element carrying that id stands for; an unparsable document resolves to nothing.
   */
  lemma NextStepLeadsTo(xml: Xml, current: string)
    ensures xml.Malformed? ==> FindNextStep(xml, current).None?
    ensures FindNextStep(xml, current).Some? ==> xml.Parsed? && LeadsTo(xml.elements, FindNextStep(xml, current).value)
  {
    if xml.Parsed? {
      var es := xml.elements;
      if current == "" || FirstWithId(es, current).None? {
        StartStepLeadsTo(es);
      } else if FirstFlowFrom(es, Some(current)).Some? {
        var f := FirstFlowFrom(es, Some(current)).value;
        TargetStepDenotes(es, es[f].targetRef);
      }
    }
  }

  /** The start resolution leads to a flow target too. */
  lemma StartStepLeadsTo(es: seq<Element>)
    ensures StartStep(es).Some? ==> LeadsTo(es, StartStep(es).value)
  {
    match FirstStartEvent(es)
    case None =>
    case Some(i) =>
      match FirstFlowFrom(es, es[i].id)
      case None =>
      case Some(f) => TargetStepDenotes(es, es[f].targetRef);
  }

  /** `i` is the first start event of `es`. */
  ghost predicate FirstStartAt(es: seq<Element>, i: int)
  {
    0 <= i < |es| && IsBpmn(es[i], "startEvent") && forall j :: 0 <= j < i ==> !IsBpmn(es[j], "startEvent")
  }

  /** `f` is the first flow of `es` leaving `src`. */
  ghost predicate FirstFlowAt(es: seq<Element>, f: int, src: Option<string>)
  {
    0 <= f < |es| && IsFlowFrom(es[f], src) && forall j :: 0 <= j < f ==> !IsFlowFrom(es[j], src)
  }

  /** `k` is the first element of `es` carrying id `t`. */
  ghost predicate FirstIdAt(es: seq<Element>, k: int, t: string)
  {
    0 <= k < |es| && es[k].id == Some(t) && forall j :: 0 <= j < k ==> es[j].id != Some(t)
  }

  /** The three lookups are determined by where their first hit is. */
  lemma FirstStartIs(es: seq<Element>, i: int)
    requires FirstStartAt(es, i)
    ensures FirstStartEvent(es) == Some(i)
  {
  }

  lemma FirstFlowIs(es: seq<Element>, f: int, src: Option<string>)
    requires FirstFlowAt(es, f, src)
    ensures FirstFlowFrom(es, src) == Some(f)
  {
  }

  lemma FirstIdIs(es: seq<Element>, k: int, t: string)
    requires FirstIdAt(es, k, t)
    ensures FirstWithId(es, t) == Some(k)
  {
  }

  /** The step that the first element carrying id `t`, at index `k`, stands for. */
  ghost predicate Denotes(es: seq<Element>, t: string, k: int, st: Step)
  {
    FirstIdAt(es, k, t) && st == Step(t, NameOf(es[k]), es[k].localName)
  }

  /** An empty current id resolves to the target of the first flow leaving the first start event. */
  lemma StartResolution(es: seq<Element>, ns: string, i: int, f: int, t: string, k: int, st: Step)
    requires FirstStartAt(es, i)
    requires FirstFlowAt(es, f, es[i].id)
    requires es[f].targetRef == Some(t)
    requires Denotes(es, t, k, st)
    ensures FindNextStep(Parsed(es, ns), "") == Some(st)
  {
    FirstStartIs(es, i);
    FirstFlowIs(es, f, es[i].id);
    FirstIdIs(es, k, t);
  }

  /** Without a start event, or without a flow leaving it, the start resolution finds nothing. */
  lemma NoStartNoStep(es: seq<Element>, ns: string)
    requires (forall j :: 0 <= j < |es| ==> !IsBpmn(es[j], "startEvent")) ||
             (exists i :: FirstStartAt(es, i) &&
                forall j :: 0 <= j < |es| ==> !IsFlowFrom(es[j], es[i].id))
    ensures FindNextStep(Parsed(es, ns), "") == None
  {
    if !(forall j :: 0 <= j < |es| ==> !IsBpmn(es[j], "startEvent")) {
      var i :| FirstStartAt(es, i) &&
        forall j :: 0 <= j < |es| ==> !IsFlowFrom(es[j], es[i].id);
      FirstStartIs(es, i);
    }
  }

  /**
   * The start route's first flow without `targetRef`, or with a target no element carries, gives
   * no first node.
   */
  lemma UnresolvedStartTargetNoStep(es: seq<Element>, ns: string, i: int, f: int)
    requires FirstStartAt(es, i)
    requires FirstFlowAt(es, f, es[i].id)
    requires es[f].targetRef.None? ||
             forall j :: 0 <= j < |es| ==> es[j].id != es[f].targetRef
    ensures FindNextStep(Parsed(es, ns), "") == None
  {
    FirstStartIs(es, i);
    FirstFlowIs(es, f, es[i].id);
  }

  /** A current id that no element carries falls back to the start resolution. */
  lemma UnknownIdRestarts(es: seq<Element>, ns: string, current: string)
    requires forall j :: 0 <= j < |es| ==> es[j].id != Some(current)
    ensures FindNextStep(Parsed(es, ns), current) == FindNextStep(Parsed(es, ns), "")
  {
  }

  /** From a known node, the resolver follows the first flow whose `sourceRef` is that node. */
  lemma NextFromKnownNode(es: seq<Element>, ns: string, current: string, f: int, t: string, k: int, st: Step)
    requires current != ""
    requires exists j :: 0 <= j < |es| && es[j].id == Some(current)
    requires FirstFlowAt(es, f, Some(current))
    requires es[f].targetRef == Some(t)
    requires Denotes(es, t, k, st)
    ensures FindNextStep(Parsed(es, ns), current) == Some(st)
  {
    FirstFlowIs(es, f, Some(current));
    FirstIdIs(es, k, t);
  }

  /** A known node with no outgoing flow has no next node: the instance is at its end. */
  lemma NoOutgoingFlowNoStep(es: seq<Element>, ns: string, current: string)
    requires current != ""
    requires exists j :: 0 <= j < |es| && es[j].id == Some(current)
    requires forall j :: 0 <= j < |es| ==> !IsFlowFrom(es[j], Some(current))
    ensures FindNextStep(Parsed(es, ns), current) == None
  {
  }

  /** A first outgoing flow without `targetRef`, or with a target no element carries, yields None. */
  lemma UnresolvedTargetNoStep(es: seq<Element>, ns: string, current: string, f: int)
    requires current != ""
    requires exists j :: 0 <= j < |es| && es[j].id == Some(current)
    requires FirstFlowAt(es, f, Some(current))
    requires es[f].targetRef.None? ||
             forall j :: 0 <= j < |es| ==> es[j].id != es[f].targetRef
    ensures FindNextStep(Parsed(es, ns), current) == None
  {
    FirstFlowIs(es, f, Some(current));
  }

  /** A start event without `id` is left by a flow without `sourceRef` (absent equals absent). */
  lemma StartWithoutIdUsesFlowWithoutSource(es: seq<Element>, ns: string, i: int, f: int)
    requires FirstStartAt(es, i) && es[i].id.None?
    requires FirstFlowAt(es, f, None)
    ensures FindNextStep(Parsed(es, ns), "") == TargetStep(es, es[f].targetRef)
  {
    FirstStartIs(es, i);
    FirstFlowIs(es, f, None);
  }

  /** The resolver's answer from no node: the target of the first start event's first outgoing flow. */
  lemma StartVia(es: seq<Element>, ns: string, i: nat, f: nat, k: nat, st: Step)
    requires FirstStartEvent(es) == Some(i)
    requires FirstFlowFrom(es, es[i].id) == Some(f) && es[f].targetRef == Some(st.id)
    requires FirstWithId(es, st.id) == Some(k) && NameOf(es[k]) == st.name && es[k].localName == st.kind
    ensures FindNextStep(Parsed(es, ns), "") == Some(st)
  {
  }

  /**
   * The resolver's answer from a known node: the target of its first outgoing flow, named by the
   * first element that carries the target's id.
   */
  lemma NextVia(es: seq<Element>, ns: string, current: string, f: nat, k: nat, st: Step)
    requires current != "" && FirstWithId(es, current).Some?
    requires FirstFlowFrom(es, Some(current)) == Some(f) && es[f].targetRef == Some(st.id)
    requires FirstWithId(es, st.id) == Some(k) && NameOf(es[k]) == st.name && es[k].localName == st.kind
    ensures FindNextStep(Parsed(es, ns), current) == Some(st)
  {
  }

  // ---- A document split in two parts ----

  /** A first hit in the first part of a document is the first hit in the whole. */
  lemma FirstIdPrefix(a: seq<Element>, b: seq<Element>, t: string)
    requires FirstWithId(a, t).Some?
    ensures FirstWithId(a + b, t) == FirstWithId(a, t)
  {
    var k := FirstWithId(a, t).value;
    assert (a + b)[k] == a[k];
    assert forall j :: 0 <= j < k ==> (a + b)[j] == a[j];
    FirstIdIs(a + b, k, t);
  }

  /** The first start event of the first part of a document is the first of the whole. */
  lemma FirstStartPrefix(a: seq<Element>, b: seq<Element>)
    requires FirstStartEvent(a).Some?
    ensures FirstStartEvent(a + b) == FirstStartEvent(a)
  {
    var k := FirstStartEvent(a).value;
    assert (a + b)[k] == a[k];
    assert forall j :: 0 <= j < k ==> (a + b)[j] == a[j];
    FirstStartIs(a + b, k);
  }

  /** So is the first flow from `src`, and no such flow in either part means none in the whole. */
  lemma FirstFlowPrefix(a: seq<Element>, b: seq<Element>, src: Option<string>)
    requires FirstFlowFrom(a, src).Some? || FirstFlowFrom(b, src).None?
    ensures FirstFlowFrom(a + b, src) == FirstFlowFrom(a, src)
  {
    match FirstFlowFrom(a, src)
    case Some(k) =>
      assert (a + b)[k] == a[k];
      assert forall j :: 0 <= j < k ==> (a + b)[j] == a[j];
      FirstFlowIs(a + b, k, src);
    case None =>
      forall j | 0 <= j < |a + b| ensures !IsFlowFrom((a + b)[j], src) {
        if j < |a| { assert (a + b)[j] == a[j]; } else { assert (a + b)[j] == b[j - |a|]; }
      }
  }

  /**
   * A resolution that the first part of a document already settles is the resolution in the whole
   * document, provided the current node, if any, is found in that part.
   */
  lemma NextInPrefix(a: seq<Element>, b: seq<Element>, ns: string, current: string)
    requires FindNextStep(Parsed(a, ns), current).Some?
    requires current == "" || FirstWithId(a, current).Some?
    ensures FindNextStep(Parsed(a + b, ns), current) == FindNextStep(Parsed(a, ns), current)
  {
    if current == "" {
      FirstStartPrefix(a, b);
      var i := FirstStartEvent(a).value;
      assert (a + b)[i] == a[i];
      FirstFlowPrefix(a, b, a[i].id);
      var f := FirstFlowFrom(a, a[i].id).value;
      assert (a + b)[f] == a[f];
      FirstIdPrefix(a, b, a[f].targetRef.value);
      assert (a + b)[FirstWithId(a, a[f].targetRef.value).value] == a[FirstWithId(a, a[f].targetRef.value).value];
    } else {
      FirstIdPrefix(a, b, current);
      FirstFlowPrefix(a, b, Some(current));
      var f := FirstFlowFrom(a, Some(current)).value;
      assert (a + b)[f] == a[f];
      FirstIdPrefix(a, b, a[f].targetRef.value);
      assert (a + b)[FirstWithId(a, a[f].targetRef.value).value] == a[FirstWithId(a, a[f].targetRef.value).value];
    }
  }

  // ---- Element counting for validation and the structure query ----

  /** `Descendants(ns + local).Any()` over the whole document. */
  predicate HasElement(es: seq<Element>, ns: string, local: string)
  {
    exists j | 0 <= j < |es| :: IsNamed(es[j], ns, local)
  }

  /** `Count()` of the elements named `ns + local`. */
  function CountNamed(es: seq<Element>, ns: string, local: string): (n: nat)
    ensures n <= |es|
    ensures n == 0 <==> !HasElement(es, ns, local)
  {
    var hits := Filter(es, (e: Element) => IsNamed(e, ns, local));
    assert hits != [] ==> hits[0] in hits;
    assert forall j :: 0 <= j < |es| && IsNamed(es[j], ns, local) ==> es[j] in hits;
    |hits|
  }

  /** Counting element by element: the first element adds one exactly when it has the name. */
  lemma CountNamedCons(e: Element, es: seq<Element>, ns: string, local: string)
    ensures CountNamed([e] + es, ns, local) == (if IsNamed(e, ns, local) then 1 else 0) + CountNamed(es, ns, local)
  {
    assert ([e] + es)[0] == e && ([e] + es)[1..] == es;
  }

  /** Index one past the subtree rooted at `i`: the next element not nested deeper than `es[i]`. */
  function SubtreeEnd(es: seq<Element>, i: nat): (r: nat)
    requires i < |es|
    ensures i < r <= |es|
    ensures forall j :: i < j < r ==> es[j].depth > es[i].depth
    ensures r < |es| ==> es[r].depth <= es[i].depth
  {
    var d := es[i].depth;
    match FirstIndex(es[i + 1..], (e: Element) => e.depth <= d)
    case None => |es|
    case Some(k) =>
      assert forall j :: i < j < i + 1 + k ==> es[j] == es[i + 1..][j - i - 1];
      i + 1 + k
  }

  /** `p.Descendants()` of the element at `i`, in document order. */
  function DescendantsOf(es: seq<Element>, i: nat): (r: seq<Element>)
    requires i < |es|
    ensures forall e :: e in r ==> e.depth > es[i].depth
  {
    es[i + 1..SubtreeEnd(es, i)]
  }

  /** One entry of the structure query. */
  datatype ProcessSummary = ProcessSummary(
    id: Option<string>,
    name: Option<string>,
    startEvents: nat,
    endEvents: nat,
    tasks: nat,
    gateways: nat)

  /** Result of `ParseBpmnStructureAsync`: the process list, or `{ error = message }`. */
  datatype Structure = Processes(processes: seq<ProcessSummary>) | StructureError(error: string)

  /** Counts below the process element at `i`, looking for element names in namespace `ns`. */
  function Summary(es: seq<Element>, i: nat, ns: string): (r: ProcessSummary)
    requires i < |es|
    ensures r.id == es[i].id && r.name == es[i].name
    ensures r.tasks == CountNamed(DescendantsOf(es, i), ns, "serviceTask") +
                       CountNamed(DescendantsOf(es, i), ns, "userTask")
  {
    var d := DescendantsOf(es, i);
    ProcessSummary(es[i].id, es[i].name,
      CountNamed(d, ns, "startEvent"), CountNamed(d, ns, "endEvent"),
      CountNamed(d, ns, "serviceTask") + CountNamed(d, ns, "userTask"),
      CountNamed(d, ns, "exclusiveGateway"))
  }

  /** The indices, at `from` or later, of the elements named `ns + "process"`, in document order. */
  function ProcessIndices(es: seq<Element>, from: nat, ns: string): (r: seq<nat>)
    requires from <= |es|
    ensures forall k :: 0 <= k < |r| ==> from <= r[k] < |es| && IsNamed(es[r[k]], ns, "process")
    ensures forall k, l :: 0 <= k < l < |r| ==> r[k] < r[l]
    decreases |es| - from
  {
    if from == |es| then []
    else
      var rest := ProcessIndices(es, from + 1, ns);
      if IsNamed(es[from], ns, "process") then [from] + rest else rest
  }

  /** Every process element at `from` or later has its index listed. */
  lemma {:induction false} ProcessIndicesComplete(es: seq<Element>, from: nat, ns: string, j: nat)
    requires from <= j < |es| && IsNamed(es[j], ns, "process")
    ensures j in ProcessIndices(es, from, ns)
    decreases |es| - from
  {
    if from < j {
      ProcessIndicesComplete(es, from + 1, ns, j);
    }
  }

  /** There are as many process indices as `Count()` finds process elements. */
  lemma {:induction false} ProcessIndicesCount(es: seq<Element>, from: nat, ns: string)
    requires from <= |es|
    ensures |ProcessIndices(es, from, ns)| == CountNamed(es[from..], ns, "process")
    decreases |es| - from
  {
    if from < |es| {
      ProcessIndicesCount(es, from + 1, ns);
      assert es[from..][1..] == es[from + 1..];
    }
  }

  /**
   * The structure query looking for process elements in namespace `ns`: an error exactly for an
   * unparsable document, otherwise one summary per process element, in document order.
   */
  function StructureIn(xml: Xml, ns: string): (r: Structure)
    ensures xml.Malformed? <==> r.StructureError?
    ensures xml.Parsed? ==>
      var ix := ProcessIndices(xml.elements, 0, ns);
      && |r.processes| == |ix| == CountNamed(xml.elements, ns, "process")
      && forall k :: 0 <= k < |ix| ==> r.processes[k] == Summary(xml.elements, ix[k], ns)
  {
    match xml
    case Malformed(msg) => StructureError(msg)
    case Parsed(es, _) =>
      assert es[0..] == es;
      ProcessIndicesCount(es, 0, ns);
      var ix := ProcessIndices(es, 0, ns);
      Processes(seq(|ix|, k requires 0 <= k < |ix| => Summary(es, ix[k], ns)))
  }
}
