/**
 * The service-task handlers (ValidateDocumentActivity, PublishDocumentActivity) and the activity
 * registry (ActivityFactory).
 *
 * A handler is a guard-and-assign update of the Document it is given: here it returns the updated
 * record, or the exception it throws; the engine stores the record back in the document table.
 */
module Activities {
  import opened Wrappers
  import opened Seqs
  import opened Entities
  import Text

  /** The registered `IWorkflowActivity` implementations. */
  datatype Activity = ValidateDocument | PublishDocument

  /** `IWorkflowActivity.ActivityName`, the one name a handler is registered under. */
  function ActivityName(a: Activity): (name: string)
    ensures name != ""
  {
    match a
    case ValidateDocument => "Validate Document"
    case PublishDocument => "Publish Document"
  }

  // ---- Handlers ----

  /** `ValidateDocumentActivity.ExecuteAsync`: checks presence, title, then type; marks "InApproval". */
  function Validate(doc: Option<Document>): (r: Result<Document, Error>)
    ensures doc.None? ==> r == Failure(InvalidOperation("Document not found"))
    ensures doc.Some? && doc.value.title == "" ==> r == Failure(InvalidOperation("Document title is required"))
    ensures doc.Some? && doc.value.title != "" && doc.value.documentType == "" ==>
              r == Failure(InvalidOperation("Document type is required"))
    ensures r.Success? <==> doc.Some? && doc.value.title != "" && doc.value.documentType != ""
    ensures r.Success? ==> r.value.status == InApproval && r.value.(status := doc.value.status) == doc.value
  {
    match doc
    case None => Failure(InvalidOperation("Document not found"))
    case Some(d) =>
      if d.title == "" then Failure(InvalidOperation("Document title is required"))
      else if d.documentType == "" then Failure(InvalidOperation("Document type is required"))
      else Success(d.(status := InApproval))
  }

  /** `PublishDocumentActivity.ExecuteAsync`: marks the document "Published" at `now`. */
  function Publish(doc: Option<Document>, now: Time): (r: Result<Document, Error>)
    ensures doc.None? <==> r == Failure(InvalidOperation("Document not found"))
    ensures r.Success? ==> r.value.status == Published && r.value.publishedAt == Some(now)
    ensures r.Success? ==> r.value.(status := doc.value.status, publishedAt := doc.value.publishedAt) == doc.value
  {
    match doc
    case None => Failure(InvalidOperation("Document not found"))
    case Some(d) => Success(d.(status := Published, publishedAt := Some(now)))
  }

  /** `activity.ExecuteAsync(instance, document)`; no handler reads or writes the instance. */
  function Execute(a: Activity, doc: Option<Document>, now: Time): Result<Document, Error>
  {
    match a
    case ValidateDocument => Validate(doc)
    case PublishDocument => Publish(doc, now)
  }

  /** Validating a validated document changes nothing more. */
  lemma ValidateIdempotent(d: Document)
    requires Validate(Some(d)).Success?
    ensures Validate(Some(Validate(Some(d)).value)) == Validate(Some(d))
  {
  }

  /** A successful handler changes at most the document's status and its publication time. */
  lemma {:induction false} ExecuteKeepsIdentity(a: Activity, d: Document, now: Time)
    requires Execute(a, Some(d), now).Success?
    ensures StatusUpdate(d, Execute(a, Some(d), now).value)
  {
    match a
    case ValidateDocument =>
      assert Execute(a, Some(d), now) == Validate(Some(d));
    case PublishDocument =>
      assert Execute(a, Some(d), now) == Publish(Some(d), now);
  }

  // ---- Registry ----

  /** The `_activityTypes` dictionary: entries in insertion order, each name with its handler. */
  type Registry = seq<(string, Activity)>

  /** Dictionary keys are distinct. */
  ghost predicate DistinctKeys(reg: Registry)
  {
    forall i, j :: 0 <= i < j < |reg| ==> reg[i].0 != reg[j].0
  }

  /** Index of the entry whose key is exactly `key` (case-sensitive). */
  function KeyIndex(reg: Registry, key: string): (r: Option<nat>)
    ensures r.Some? ==> r.value < |reg| && reg[r.value].0 == key
    ensures r.Some? ==> forall j :: 0 <= j < r.value ==> reg[j].0 != key
    ensures r.None? <==> forall j :: 0 <= j < |reg| ==> reg[j].0 != key
  {
    if reg == [] then None
    else if reg[0].0 == key then Some(0)
    else match KeyIndex(reg[1..], key)
      case None => None
      case Some(k) => Some(k + 1)
  }

  /** KeyIndex is determined by where the first hit is. */
  lemma KeyIndexIs(reg: Registry, key: string, k: nat)
    requires k < |reg| && reg[k].0 == key
    requires forall j :: 0 <= j < k ==> reg[j].0 != key
    ensures KeyIndex(reg, key) == Some(k)
  {
  }

  /** `TryGetValue(key)`. */
  function Lookup(reg: Registry, key: string): (r: Option<Activity>)
    ensures r.Some? <==> exists j :: 0 <= j < |reg| && reg[j].0 == key
  {
    match KeyIndex(reg, key)
    case None => None
    case Some(i) => Some(reg[i].1)
  }

  /** `_activityTypes[key] = value`: overwrite in place when present, append otherwise. */
  function Upsert(reg: Registry, key: string, a: Activity): (r: Registry)
    ensures DistinctKeys(reg) ==> DistinctKeys(r)
    ensures Lookup(r, key) == Some(a)
    ensures forall k :: k != key ==> Lookup(r, k) == Lookup(reg, k)
    ensures |r| == if Lookup(reg, key).Some? then |reg| else |reg| + 1
    ensures forall j :: 0 <= j < |reg| ==> r[j].0 == reg[j].0
  {
    match KeyIndex(reg, key)
    case Some(i) =>
      OverwriteKeepsOtherKeys(reg, i, key, a);
      reg[i := (key, a)]
    case None =>
      AppendKeepsOtherKeys(reg, key, a);
      reg + [(key, a)]
  }

  /** Overwriting the value at the first index of `key` leaves every other key's lookup alone. */
  lemma OverwriteKeepsOtherKeys(reg: Registry, i: nat, key: string, a: Activity)
    requires KeyIndex(reg, key) == Some(i)
    ensures KeyIndex(reg[i := (key, a)], key) == Some(i)
    ensures forall k :: k != key ==> KeyIndex(reg[i := (key, a)], k) == KeyIndex(reg, k)
  {
    var r := reg[i := (key, a)];
    KeyIndexIs(r, key, i);
    forall k | k != key ensures KeyIndex(r, k) == KeyIndex(reg, k) {
      var m := KeyIndex(reg, k);
      if m.Some? {
        KeyIndexIs(r, k, m.value);
      }
    }
  }

  /** Appending a new key leaves every other key's lookup alone. */
  lemma AppendKeepsOtherKeys(reg: Registry, key: string, a: Activity)
    requires KeyIndex(reg, key) == None
    ensures KeyIndex(reg + [(key, a)], key) == Some(|reg|)
    ensures forall k :: k != key ==> KeyIndex(reg + [(key, a)], k) == KeyIndex(reg, k)
  {
    var r := reg + [(key, a)];
    KeyIndexIs(r, key, |reg|);
    forall k | k != key ensures KeyIndex(r, k) == KeyIndex(reg, k) {
      var m := KeyIndex(reg, k);
      if m.Some? {
        KeyIndexIs(r, k, m.value);
      }
    }
  }

  /** Index of the first entry whose key occurs in `taskName`, ignoring case. */
  function FuzzyIndex(reg: Registry, taskName: string): (r: Option<nat>)
    ensures r.Some? ==> r.value < |reg| && Text.ContainsIgnoreCase(taskName, reg[r.value].0)
    ensures r.Some? ==> forall j :: 0 <= j < r.value ==> !Text.ContainsIgnoreCase(taskName, reg[j].0)
    ensures r.None? <==> forall j :: 0 <= j < |reg| ==> !Text.ContainsIgnoreCase(taskName, reg[j].0)
  {
    if reg == [] then None
    else if Text.ContainsIgnoreCase(taskName, reg[0].0) then Some(0)
    else match FuzzyIndex(reg[1..], taskName)
      case None => None
      case Some(k) => Some(k + 1)
  }

  /**
   * `CreateActivity(taskName)`: the exact entry if there is one; otherwise the first entry, in
   * registration order, whose key occurs in the name ignoring case, unless that key is empty.
   */
  function Resolve(reg: Registry, taskName: string): Option<Activity>
  {
    match Lookup(reg, taskName)
    case Some(a) => Some(a)
    case None =>
      match FuzzyIndex(reg, taskName)
      case None => None
      case Some(i) => if reg[i].0 == "" then None else Some(reg[i].1)
  }

  /** The constructor's two registrations, in order. */
  const DefaultRegistry: Registry := [("Validate Document", ValidateDocument), ("Publish Document", PublishDocument)]

  /** A case-sensitive exact key wins over every substring match, even an earlier one. */
  lemma ExactMatchWins(reg: Registry, taskName: string, i: int)
    requires DistinctKeys(reg)
    requires 0 <= i < |reg| && reg[i].0 == taskName
    ensures Resolve(reg, taskName) == Some(reg[i].1)
  {
    var k := KeyIndex(reg, taskName);
    assert k.Some?;
    assert k.value == i;
  }

  /** Without an exact key, the first registered key contained in the name (ignoring case) decides. */
  lemma FirstFuzzyMatchWins(reg: Registry, taskName: string, i: int)
    requires forall j :: 0 <= j < |reg| ==> reg[j].0 != taskName
    requires 0 <= i < |reg| && Text.ContainsIgnoreCase(taskName, reg[i].0) && reg[i].0 != ""
    requires forall j :: 0 <= j < i ==> !Text.ContainsIgnoreCase(taskName, reg[j].0)
    ensures Resolve(reg, taskName) == Some(reg[i].1)
  {
  }

  /** A registered empty key matches every name, and that first hit counts as no match. */
  lemma {:induction false} EmptyKeyHitIsNoMatch(reg: Registry, taskName: string, i: int)
    requires forall j :: 0 <= j < |reg| ==> reg[j].0 != taskName
    requires 0 <= i < |reg| && reg[i].0 == ""
    requires forall j :: 0 <= j < i ==> !Text.ContainsIgnoreCase(taskName, reg[j].0)
    ensures Resolve(reg, taskName) == None
  {
    Text.EmptyContained(Text.ToLower(taskName));
    assert Text.ToLower(reg[i].0) == [];
  }

  /** Whatever is resolved is registered under the name itself or under a non-empty part of it. */
  lemma ResolvedIsRegistered(reg: Registry, taskName: string)
    requires Resolve(reg, taskName).Some?
    ensures exists j :: (0 <= j < |reg| && reg[j].1 == Resolve(reg, taskName).value &&
                         (reg[j].0 == taskName || (reg[j].0 != "" && Text.ContainsIgnoreCase(taskName, reg[j].0))))
  {
    match KeyIndex(reg, taskName)
    case Some(i) =>
      assert reg[i].1 == Resolve(reg, taskName).value;
    case None =>
      var i := FuzzyIndex(reg, taskName).value;
      assert reg[i].1 == Resolve(reg, taskName).value;
  }

  /** Nothing is resolved when no key matches exactly and none occurs in the name. */
  lemma NoMatchResolvesNothing(reg: Registry, taskName: string)
    requires forall j :: 0 <= j < |reg| ==> reg[j].0 != taskName && !Text.ContainsIgnoreCase(taskName, reg[j].0)
    ensures Resolve(reg, taskName) == None
  {
  }

  // ---- The factory object ----

  class ActivityFactory {
    /** `_activityTypes`. */
    var entries: Registry

    ghost predicate Valid()
      reads this
    {
      DistinctKeys(entries)
    }

    /** Registers the two handlers, Validate first. */
    constructor ()
      ensures Valid() && entries == DefaultRegistry
    {
      entries := [];
      new;
      RegisterActivity(ValidateDocument);
      RegisterActivity(PublishDocument);
      assert entries == DefaultRegistry;
    }

    /** `RegisterActivity<T>()`: keyed by the handler's `ActivityName`, overwriting an existing entry. */
    method RegisterActivity(a: Activity)
      requires Valid()
      modifies this
      ensures Valid()
      ensures entries == Upsert(old(entries), ActivityName(a), a)
    {
      entries := Upsert(entries, ActivityName(a), a);
    }

    /** `CreateActivity(taskName)`: exact lookup, then a scan for the first fuzzy hit. */
    method CreateActivity(taskName: string) returns (r: Option<Activity>)
      ensures r == Resolve(entries, taskName)
    {
      var exact := Lookup(entries, taskName);
      if exact.Some? {
        return exact;
      }
      var i := 0;
      while i < |entries| && !Text.ContainsIgnoreCase(taskName, entries[i].0)
        invariant 0 <= i <= |entries|
        invariant forall j :: 0 <= j < i ==> !Text.ContainsIgnoreCase(taskName, entries[j].0)
      {
        i := i + 1;
      }
      if i == |entries| || entries[i].0 == "" {
        r := None;
      } else {
        r := Some(entries[i].1);
      }
    }
  }
}
