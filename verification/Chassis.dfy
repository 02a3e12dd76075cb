/** Removing a stale chassis annotation from the host's node object. The removal is a JSON merge patch
    sent under an optimistic lock, while other writers change the same object. */
module Chassis {
  import opened Wrappers
  import opened Text
  import opened Decimal
  import OvsListing
  import opened Json

  const CHASSIS_KEY := "k8s.ovn.org/node-chassis-id"

  /** A node object: its annotations and version, and the rest of its metadata and body. */
  datatype HostNode = HostNode(
    annotations: map<string, string>,
    version: nat,
    metadata: map<string, JSON>,
    body: map<string, JSON>)

  const ANNOTATIONS := "annotations"
  const VERSION := "resourceVersion"
  const METADATA := "metadata"

  predicate WellFormed(n: HostNode) {
    && ANNOTATIONS !in n.metadata && VERSION !in n.metadata && METADATA !in n.body
    && (forall k | k in n.metadata :: NullFree(n.metadata[k]))
    && (forall k | k in n.body :: NullFree(n.body[k]))
  }

  function Scalars(m: map<string, string>): map<string, JSON> {
    map k | k in m :: Scalar(m[k])
  }

  /** How metadata is serialised: an empty annotation map is left out. */
  function MetadataJSON(n: HostNode, withVersion: bool): JSON {
    Obj(n.metadata
        + (if n.annotations == map[] then map[] else map[ANNOTATIONS := Obj(Scalars(n.annotations))])
        + (if withVersion then map[VERSION := Scalar(Itoa(n.version))] else map[]))
  }

  function NodeJSON(n: HostNode, withVersion: bool): JSON {
    Obj(n.body[METADATA := MetadataJSON(n, withVersion)])
  }

  /** The patch from `base` to `modified`, carrying the version it was computed from. */
  function LockedPatch(base: HostNode, modified: HostNode): JSON {
    Diff(NodeJSON(base, false), NodeJSON(modified.(version := base.version), true))
  }

  function Member(j: JSON, name: string): JSON {
    if j.Obj? && name in j.members then j.members[name] else Null
  }

  function ReadScalars(j: JSON): map<string, string> {
    if j.Obj? then map k | k in j.members && j.members[k].Scalar? :: j.members[k].text else map[]
  }

  function ReadNode(j: JSON, version: nat): HostNode {
    var meta := Member(j, METADATA);
    HostNode(ReadScalars(Member(meta, ANNOTATIONS)), version,
             if meta.Obj? then meta.members - {ANNOTATIONS, VERSION} else map[],
             if j.Obj? then j.members - {METADATA} else map[])
  }

  /** The API server: a patch that carries another version than the current one is a conflict. */
  function ServePatch(current: HostNode, patch: JSON): Option<HostNode> {
    var wanted := Member(Member(patch, METADATA), VERSION);
    if wanted != Null && wanted != Scalar(Itoa(current.version)) then None
    else Some(ReadNode(Merge(NodeJSON(current, true), patch), current.version + 1))
  }

  // ----------------------------------------------------------------------- the clean-up

  function ChassisOf(n: HostNode): string {
    if CHASSIS_KEY in n.annotations then TrimSpace(n.annotations[CHASSIS_KEY]) else ""
  }

  predicate NeedsCleanup(n: HostNode, systemID: string) {
    ChassisOf(n) != "" && ChassisOf(n) != systemID
  }

  /** The node with the annotation deleted and nothing else changed. */
  function WithoutChassis(n: HostNode): HostNode {
    n.(annotations := n.annotations - {CHASSIS_KEY}, version := n.version + 1)
  }

  function CleanupPatch(n: HostNode): JSON {
    LockedPatch(n, n.(annotations := n.annotations - {CHASSIS_KEY}))
  }

  lemma MetadataNullFree(n: HostNode, withVersion: bool)
    requires WellFormed(n)
    ensures NullFree(MetadataJSON(n, withVersion))
  {
    assert NullFree(Obj(Scalars(n.annotations)));
  }

  /** A metadata-only change is a patch of the metadata alone. */
  lemma LockedPatchShape(base: HostNode, annotations: map<string, string>)
    requires WellFormed(base)
    ensures var modified := base.(annotations := annotations);
            LockedPatch(base, modified) ==
            Obj(map[METADATA := Diff(MetadataJSON(base, false), MetadataJSON(modified, true))])
  {
    var modified := base.(annotations := annotations);
    var a, b := MetadataJSON(base, false), MetadataJSON(modified, true);
    assert VERSION in b.members && VERSION !in a.members;
    DiffOneMember(base.body, METADATA, a, b);
  }

  lemma ReadWritten(n: HostNode, version: nat)
    requires WellFormed(n)
    ensures ReadNode(NodeJSON(n, true), version) == n.(version := version)
  {
    var meta := MetadataJSON(n, true);
    assert meta.members - {ANNOTATIONS, VERSION} == n.metadata;
    assert ReadScalars(Member(meta, ANNOTATIONS)) == n.annotations;
    assert n.body[METADATA := meta] - {METADATA} == n.body;
  }

  /** The version a patch carries is the one it was computed from. */
  lemma LockedPatchVersion(base: HostNode, annotations: map<string, string>)
    requires WellFormed(base)
    ensures Member(Member(LockedPatch(base, base.(annotations := annotations)), METADATA), VERSION) ==
              Scalar(Itoa(base.version))
  {
    LockedPatchShape(base, annotations);
  }

  lemma MetadataMerges(base: HostNode, annotations: map<string, string>)
    requires WellFormed(base)
    ensures var modified := base.(annotations := annotations);
            Merge(MetadataJSON(base, true), Diff(MetadataJSON(base, false), MetadataJSON(modified, true))) ==
              MetadataJSON(modified, true)
  {
    var modified := base.(annotations := annotations);
    MetadataNullFree(modified, true);
    MergeDiff(MetadataJSON(base, true), MetadataJSON(base, false), MetadataJSON(modified, true));
  }

  /** A locked patch served at the version it was computed from makes exactly the intended change. */
  lemma LockedPatchApplies(base: HostNode, annotations: map<string, string>)
    requires WellFormed(base)
    ensures var modified := base.(annotations := annotations);
            ServePatch(base, LockedPatch(base, modified)) == Some(modified.(version := base.version + 1))
  {
    var modified := base.(annotations := annotations);
    var a, b := MetadataJSON(base, false), MetadataJSON(modified, true);
    LockedPatchShape(base, annotations);
    MetadataMerges(base, annotations);
    MergeOneMember(base.body, METADATA, MetadataJSON(base, true), Diff(a, b));
    ReadWritten(modified, base.version + 1);
    LockedPatchVersion(base, annotations);
  }

  lemma PrintedVersionsDiffer(m: nat, n: nat)
    requires m != n
    ensures Itoa(m) != Itoa(n)
  {
    AtoiItoa(m);
    AtoiItoa(n);
  }

  /** The clean-up patch is served exactly at the version it was computed from, and then it deletes
      the one annotation. */
  lemma CleanupServed(fetched: HostNode, current: HostNode)
    requires WellFormed(fetched)
    requires fetched.version == current.version ==> fetched == current
    ensures ServePatch(current, CleanupPatch(fetched)) ==
            if fetched.version == current.version then Some(WithoutChassis(current)) else None
  {
    if fetched.version == current.version {
      LockedPatchApplies(fetched, fetched.annotations - {CHASSIS_KEY});
    } else {
      PrintedVersionsDiffer(fetched.version, current.version);
      LockedPatchVersion(fetched, fetched.annotations - {CHASSIS_KEY});
    }
  }

  /** Why the lock matters: when the chassis annotation is the only one, the patch deletes the whole
      annotation map, so served at a later version it would erase what others wrote meanwhile. */
  lemma UnlockedCleanupErasesAll(fetched: HostNode, current: HostNode)
    requires WellFormed(fetched) && fetched.annotations.Keys == {CHASSIS_KEY}
    ensures ReadNode(Merge(NodeJSON(current, true), CleanupPatch(fetched)), current.version + 1).annotations == map[]
  {
    var emptied := fetched.annotations - {CHASSIS_KEY};
    assert emptied == map[] by { assert emptied.Keys == {}; }
    LockedPatchShape(fetched, emptied);
    var d := Diff(MetadataJSON(fetched, false), MetadataJSON(fetched.(annotations := emptied), true));
    assert fetched.annotations != map[] by { assert CHASSIS_KEY in fetched.annotations; }
    assert ANNOTATIONS in d.members && d.members[ANNOTATIONS] == Null;
    MergeOneMember(current.body, METADATA, MetadataJSON(current, true), d);
    var meta := Merge(MetadataJSON(current, true), d);
    assert ANNOTATIONS !in meta.members;
  }

  // --------------------------------------------------------------- interleaved execution

  /** Where one reconciliation is: between ticks, or holding the node it read. */
  datatype Progress = Idle | Holding(fetched: HostNode, systemID: string)

  datatype State = State(node: HostNode, progress: Progress)

  /** One atomic step: the read of a reconciliation, its patch (which the server may never see), or a
      write by someone else. */
  datatype Event = Read(systemID: string) | Patch(arrives: bool) | Write(written: HostNode)

  predicate Enabled(s: State, e: Event) {
    match e
    case Read(_) => s.progress.Idle?
    case Patch(_) => s.progress.Holding?
    case Write(n) => WellFormed(n) && n.version > s.node.version
  }

  function Step(s: State, e: Event): State
    requires Enabled(s, e)
  {
    match e
    case Read(systemID) =>
      if NeedsCleanup(s.node, systemID) then s.(progress := Holding(s.node, systemID)) else s
    case Patch(arrives) =>
      var served := ServePatch(s.node, CleanupPatch(s.progress.fetched));
      State(if arrives && served.Some? then served.value else s.node, Idle)
    case Write(n) => s.(node := n)
  }

  /** One step: the event can happen and leads from one state to the other. */
  ghost predicate Steps(s: State, e: Event, t: State) {
    Enabled(s, e) && t == Step(s, e)
  }

  /** All states of an execution, one more than there are events. */
  ghost predicate Execution(states: seq<State>, events: seq<Event>) {
    && |states| == |events| + 1
    && WellFormed(states[0].node) && states[0].progress.Idle?
    && forall i | 0 <= i < |events| :: Steps(states[i], events[i], states[i + 1])
  }

  /** What every reachable state satisfies: versions only grow, so a held node of the current version
      is the current node. */
  ghost predicate Inv(s: State) {
    && WellFormed(s.node)
    && (s.progress.Holding? ==>
          && WellFormed(s.progress.fetched)
          && NeedsCleanup(s.progress.fetched, s.progress.systemID)
          && s.progress.fetched.version <= s.node.version
          && (s.progress.fetched.version == s.node.version ==> s.progress.fetched == s.node))
  }

  lemma StepKeepsInv(s: State, e: Event)
    requires Inv(s) && Enabled(s, e)
    ensures Inv(Step(s, e))
  {
    if e.Patch? {
      CleanupServed(s.progress.fetched, s.node);
    }
  }

  lemma {:induction false} Reachable(states: seq<State>, events: seq<Event>, i: nat)
    requires Execution(states, events) && i < |states|
    ensures Inv(states[i])
    decreases i
  {
    if i > 0 {
      Reachable(states, events, i - 1);
      assert Steps(states[i - 1], events[i - 1], states[i - 1 + 1]);
      StepKeepsInv(states[i - 1], events[i - 1]);
    }
  }

  /** The node carries exactly this text as its chassis annotation. */
  predicate Carries(n: HostNode, id: string) {
    CHASSIS_KEY in n.annotations && n.annotations[CHASSIS_KEY] == id
  }

  /** An identifier that the comparison with a trimmed annotation can match, or that counts as blank. */
  predicate Comparable(id: string) {
    TrimSpace(id) == id || TrimSpace(id) == ""
  }

  /** The annotation is trimmed before it is compared and the identifier is not, so an annotation equal to
      the identifier is taken for a stale one exactly when the identifier has white space at an end. */
  lemma EqualAnnotationIsStale(n: HostNode, id: string)
    requires Carries(n, id)
    ensures NeedsCleanup(n, id) <==> !Comparable(id)
  {
  }

  /** In every interleaving with other writers, a patch that changes the node deletes an annotation whose
      trimmed text is neither blank nor the identifier, and changes nothing else; an annotation equal to
      an identifier without white space at its ends is never deleted. */
  lemma SuccessfulPatchIsSafe(states: seq<State>, events: seq<Event>, i: nat)
    requires Execution(states, events) && i < |events| && events[i].Patch?
    ensures states[i + 1].node != states[i].node ==>
              && NeedsCleanup(states[i].node, states[i].progress.systemID)
              && CHASSIS_KEY in states[i].node.annotations
              && states[i + 1].node == WithoutChassis(states[i].node)
              && (Carries(states[i].node, states[i].progress.systemID) ==> !Comparable(states[i].progress.systemID))
  {
    Reachable(states, events, i);
    assert Steps(states[i], events[i], states[i + 1]);
    CleanupServed(states[i].progress.fetched, states[i].node);
  }

  /** An annotation whose trimmed text is the identifier survives a reconciliation that read it. */
  lemma MatchingAnnotationSurvives(states: seq<State>, events: seq<Event>, i: nat, fetched: HostNode, systemID: string)
    requires Execution(states, events) && i < |events| && events[i].Patch?
    requires states[i].progress == Holding(fetched, systemID) && ChassisOf(states[i].node) == systemID
    ensures states[i + 1].node == states[i].node
  {
    SuccessfulPatchIsSafe(states, events, i);
  }

  /** A reconciliation deletes an annotation equal to the very identifier it read. */
  ghost predicate LosesEqual(states: seq<State>, events: seq<Event>, i: nat, id: string) {
    && Execution(states, events) && i < |events| && events[i].Patch?
    && states[i].progress.Holding? && states[i].progress.systemID == id
    && Carries(states[i].node, id) && states[i + 1].node != states[i].node
  }

  /** Exactly when an annotation equal to the identifier survives in every interleaving: when the
      identifier has no white space at its ends, or is nothing else. */
  lemma EqualAnnotationSurvivesExactly(id: string)
    ensures (forall states, events, i :: !LosesEqual(states, events, i, id)) <==> Comparable(id)
  {
    forall states, events, i | LosesEqual(states, events, i, id) ensures !Comparable(id) {
      LostIsUntrimmed(states, events, i, id);
    }
    if !Comparable(id) {
      UntrimmedIsLost(id);
    }
  }

  lemma LostIsUntrimmed(states: seq<State>, events: seq<Event>, i: nat, id: string)
    requires LosesEqual(states, events, i, id)
    ensures !Comparable(id)
  {
    SuccessfulPatchIsSafe(states, events, i);
  }

  lemma UntrimmedIsLost(id: string)
    requires !Comparable(id)
    ensures exists states, events, i :: LosesEqual(states, events, i, id)
  {
    DeletesEqualAnnotation(HostNode(map[CHASSIS_KEY := id], 0, map[], map[]), id);
  }

  /** Otherwise it is deleted from any node, even with nobody else writing. */
  lemma DeletesEqualAnnotation(n: HostNode, id: string)
    requires WellFormed(n) && Carries(n, id) && !Comparable(id)
    ensures var events := [Read(id), Patch(true)];
            var states := [State(n, Idle), State(n, Holding(n, id)), State(WithoutChassis(n), Idle)];
            LosesEqual(states, events, 1, id)
  {
    var events := [Read(id), Patch(true)];
    var states := [State(n, Idle), State(n, Holding(n, id)), State(WithoutChassis(n), Idle)];
    EqualAnnotationIsStale(n, id);
    CleanupServed(n, n);
    assert Steps(states[0], events[0], states[1]) && Steps(states[1], events[1], states[2]);
  }

  /** Quotes are removed after trimming, so a system identifier printed as " x" is one. */
  lemma PaddedIdentifierIsDeleted(n: HostNode)
    requires WellFormed(n) && Carries(n, " x")
    ensures OvsListing.SystemID("\" x\"\n") == " x" && !Comparable(" x")
    ensures NeedsCleanup(n, OvsListing.SystemID("\" x\"\n"))
  {
    OvsListing.SystemIDRoundTrip(" x");
    assert "\"" + " x" + "\"" + "\n" == "\" x\"\n";
    TrimPadded(" ", "x", "");
    assert " " + "x" + "" == " x";
  }

  // -------------------------------------------------------------- without other writers

  ghost predicate Quiet(events: seq<Event>, systemID: string) {
    forall i | 0 <= i < |events| :: !events[i].Write? && (events[i].Read? ==> events[i].systemID == systemID)
  }

  predicate Settled(n: HostNode, systemID: string) {
    ChassisOf(n) == "" || ChassisOf(n) == systemID
  }

  lemma WithoutChassisSettled(n: HostNode, systemID: string)
    ensures Settled(WithoutChassis(n), systemID)
  {
  }

  /** Without other writers the node is either untouched or cleaned once, so at most one deletion ever
      happens. */
  lemma {:induction false} QuietDeletesAtMostOnce(states: seq<State>, events: seq<Event>, systemID: string, i: nat)
    requires Execution(states, events) && Quiet(events, systemID) && i < |states|
    ensures states[i].node == states[0].node
            || (NeedsCleanup(states[0].node, systemID) && states[i].node == WithoutChassis(states[0].node))
    ensures states[i].progress.Holding? ==> states[i].progress.systemID == systemID
    decreases i
  {
    if i > 0 {
      QuietDeletesAtMostOnce(states, events, systemID, i - 1);
      Reachable(states, events, i - 1);
      assert Steps(states[i - 1], events[i - 1], states[i - 1 + 1]);
      if events[i - 1].Patch? {
        CleanupServed(states[i - 1].progress.fetched, states[i - 1].node);
        WithoutChassisSettled(states[0].node, systemID);
      }
    }
  }

  /** A tick ends the reconciliation when the read finds nothing to do or the patch arrives. */
  predicate EndsTick(s: State, e: Event, t: State) {
    (e.Read? && t.progress.Idle?) || e == Patch(true)
  }

  lemma QuietReadSettled(states: seq<State>, events: seq<Event>, systemID: string, i: nat)
    requires Execution(states, events) && Quiet(events, systemID) && i < |events|
    requires events[i].Read? && states[i + 1].progress.Idle?
    ensures Settled(states[i + 1].node, systemID)
  {
    assert Steps(states[i], events[i], states[i + 1]);
  }

  lemma QuietTickSettles(states: seq<State>, events: seq<Event>, systemID: string, i: nat)
    requires Execution(states, events) && Quiet(events, systemID) && i < |events|
    requires EndsTick(states[i], events[i], states[i + 1])
    ensures Settled(states[i + 1].node, systemID)
  {
    if events[i].Patch? {
      QuietPatchSettles(states, events, systemID, i);
    } else {
      QuietReadSettled(states, events, systemID, i);
    }
  }

  lemma {:induction false} QuietStaysSettled(states: seq<State>, events: seq<Event>, systemID: string, i: nat, j: nat)
    requires Execution(states, events) && Quiet(events, systemID) && i <= j < |states|
    requires Settled(states[i].node, systemID)
    ensures Settled(states[j].node, systemID)
    decreases j
  {
    if i < j {
      QuietStaysSettled(states, events, systemID, i, j - 1);
      QuietStepStaysSettled(states, events, systemID, j - 1);
    }
  }

  /** From the end of a tick on, without other writers, the trimmed annotation is empty or the local
      identifier. */
  lemma QuietEndsSettled(states: seq<State>, events: seq<Event>, systemID: string, tick: nat, i: nat)
    requires Execution(states, events) && Quiet(events, systemID) && tick < i < |states|
    requires EndsTick(states[tick], events[tick], states[tick + 1])
    ensures Settled(states[i].node, systemID)
  {
    QuietTickSettles(states, events, systemID, tick);
    QuietStaysSettled(states, events, systemID, tick + 1, i);
  }

  lemma QuietPatchSettles(states: seq<State>, events: seq<Event>, systemID: string, i: nat)
    requires Execution(states, events) && Quiet(events, systemID) && i < |events| && events[i] == Patch(true)
    ensures Settled(states[i + 1].node, systemID)
  {
    assert Steps(states[i], events[i], states[i + 1]);
    QuietHoldsCurrent(states, events, systemID, i);
    Reachable(states, events, i);
    CleanupServed(states[i].progress.fetched, states[i].node);
    WithoutChassisSettled(states[i].node, systemID);
  }

  lemma QuietStepStaysSettled(states: seq<State>, events: seq<Event>, systemID: string, i: nat)
    requires Execution(states, events) && Quiet(events, systemID) && i < |events|
    requires Settled(states[i].node, systemID)
    ensures Settled(states[i + 1].node, systemID)
  {
    assert Steps(states[i], events[i], states[i + 1]);
    if events[i].Patch? {
      SuccessfulPatchIsSafe(states, events, i);
      WithoutChassisSettled(states[i].node, systemID);
    }
  }

  /** Without other writers the held node is always the current one, so an arriving patch is served. */
  lemma QuietHoldsCurrent(states: seq<State>, events: seq<Event>, systemID: string, i: nat)
    requires Execution(states, events) && Quiet(events, systemID) && i < |states| && states[i].progress.Holding?
    ensures states[i].progress.fetched == states[i].node
  {
    assert i > 0;
    assert Steps(states[i - 1], events[i - 1], states[i - 1 + 1]);
  }
}
