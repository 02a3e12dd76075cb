/** The admission webhook that gives a pod a virtual function (VF) when it may land on a node with
    a DPU, or keeps it away from such nodes. The pod is updated in place; every method is tied to a
    function on the pod's value, about which InjectorTheorems proves what the webhook is for. */
module Injector {
  import opened Wrappers
  import opened Scheduling

  const RESOURCE_NAME_ANNOTATION := "k8s.v1.cni.cncf.io/resourceName"
  const DEFAULT_NETWORK_ANNOTATION := "v1.multus-cni.io/default-network"

  datatype Settings = Settings(
    nadName: string,
    nadNamespace: string,
    dpuKey: string,
    dpuValue: string,
    prioritizeOffloading: bool)

  datatype Container = Container(requests: map<string, int>, limits: map<string, int>, rest: string)

  datatype NodeAffinity = NodeAffinity(required: Option<seq<Term>>, preferred: string)

  datatype Affinity = Affinity(nodeAffinity: Option<NodeAffinity>, podAffinities: string)

  /** The part of a pod the webhook reads or writes. */
  datatype PodValue = PodValue(
    hostNetwork: bool,
    nodeSelector: map<string, string>,
    affinity: Option<Affinity>,
    containers: seq<Container>,
    annotations: map<string, string>)

  datatype Error = NetworkUnavailable | NoResourceName | ListFailed | BadAffinity

  /** Indexing the first container of a pod that has none panics in the program. */
  datatype Outcome = Admitted | Rejected(error: Error) | Panicked

  /** What the API server answers: the cluster's nodes, and the annotations of the network
      attachment definition. Either request can fail. */
  datatype API = API(nodes: Result<seq<Node>, ()>, networkAnnotations: Result<map<string, string>, ()>)

  // ---------------------------------------------------------------------- specification

  function RequiredTerms(affinity: Option<Affinity>): Option<seq<Term>> {
    if affinity.Some? && affinity.value.nodeAffinity.Some? then affinity.value.nodeAffinity.value.required
    else None
  }

  function MatchPod(pod: PodValue, node: Node): Verdict {
    MatchNode(pod.nodeSelector, RequiredTerms(pod.affinity), node)
  }

  predicate IsDPU(s: Settings, node: Node) {
    s.dpuKey in node.labels && node.labels[s.dpuKey] == s.dpuValue
  }

  /** The nodes a list request with a label selector returns, in order. */
  function ListNodes(selector: map<string, string>, nodes: seq<Node>): seq<Node> {
    if nodes == [] then []
    else
      var last := nodes[|nodes| - 1];
      ListNodes(selector, nodes[..|nodes| - 1]) + if SelectorMatches(selector, last) then [last] else []
  }

  /** The nodes a pod may be scheduled on, in order. */
  function Matching(pod: PodValue, nodes: seq<Node>): seq<Node> {
    if nodes == [] then []
    else
      var last := nodes[|nodes| - 1];
      Matching(pod, nodes[..|nodes| - 1]) + if MatchPod(pod, last).Yes? then [last] else []
  }

  predicate SomeNodeFails(pod: PodValue, nodes: seq<Node>) {
    exists i | 0 <= i < |nodes| :: MatchPod(pod, nodes[i]).Malformed?
  }

  function Scan(pod: PodValue, nodes: seq<Node>): Result<seq<Node>, Error> {
    if SomeNodeFails(pod, nodes) then Err(BadAffinity) else Ok(Matching(pod, nodes))
  }

  predicate SomeDPU(s: Settings, nodes: seq<Node>) {
    exists i | 0 <= i < |nodes| :: IsDPU(s, nodes[i])
  }

  predicate SomePlain(s: Settings, nodes: seq<Node>) {
    exists i | 0 <= i < |nodes| :: !IsDPU(s, nodes[i])
  }

  datatype Decision = Inject | Skip | SkipAndExclude

  /** What to do with a pod whose possible nodes are `matching`. */
  function Decide(s: Settings, matching: seq<Node>): Decision {
    if matching == [] then Inject
    else if s.prioritizeOffloading then if SomeDPU(s, matching) then Inject else Skip
    else if !SomePlain(s, matching) then Inject
    else if SomeDPU(s, matching) then SkipAndExclude
    else Skip
  }

  function DecideFor(s: Settings, nodes: Result<seq<Node>, ()>, pod: PodValue): Result<Decision, Error> {
    match nodes
    case Err(_) => Err(ListFailed)
    case Ok(all) =>
      match Scan(pod, all)
      case Err(e) => Err(e)
      case Ok(matching) => Ok(Decide(s, matching))
  }

  function Exclusion(key: string, value: string): Requirement {
    Requirement(key, NotIn, [value])
  }

  /** Does this expression by itself keep every node with key=value out? */
  predicate Excludes(r: Requirement, key: string, value: string) {
    r.key == key && (r.op.DoesNotExist? || (r.op.NotIn? && value in r.values))
  }

  predicate HasExclusion(t: Term, key: string, value: string) {
    exists i | 0 <= i < |t.expressions| :: Excludes(t.expressions[i], key, value)
  }

  function ExcludeInTerm(t: Term, key: string, value: string): Term {
    if HasExclusion(t, key, value) then t
    else t.(expressions := t.expressions + [Exclusion(key, value)])
  }

  function ExcludeInTerms(terms: seq<Term>, key: string, value: string): seq<Term> {
    if terms == [] then [Term([Exclusion(key, value)], [])]
    else seq(|terms|, i requires 0 <= i < |terms| => ExcludeInTerm(terms[i], key, value))
  }

  function WithRequired(affinity: Option<Affinity>, terms: seq<Term>): Option<Affinity> {
    var a := if affinity.Some? then affinity.value else Affinity(None, "");
    var n := if a.nodeAffinity.Some? then a.nodeAffinity.value else NodeAffinity(None, "");
    Some(a.(nodeAffinity := Some(n.(required := Some(terms)))))
  }

  function ExcludeInAffinity(affinity: Option<Affinity>, key: string, value: string): Option<Affinity> {
    var required := RequiredTerms(affinity);
    WithRequired(affinity, ExcludeInTerms(if required.Some? then required.value else [], key, value))
  }

  function Rewritten(s: Settings, pod: PodValue): PodValue {
    pod.(affinity := ExcludeInAffinity(pod.affinity, s.dpuKey, s.dpuValue))
  }

  predicate HasVF(pod: PodValue, vf: string) {
    pod.containers != [] && (vf in pod.containers[0].requests || vf in pod.containers[0].limits)
  }

  /** How much of a resource a list holds; an absent entry counts as zero. */
  function Amount(resources: map<string, int>, name: string): int {
    if name in resources then resources[name] else 0
  }

  function AddOne(resources: map<string, int>, name: string): map<string, int> {
    resources[name := Amount(resources, name) + 1]
  }

  function Injected(s: Settings, vf: string, pod: PodValue): PodValue
    requires pod.containers != []
  {
    var c := pod.containers[0];
    pod.(containers := pod.containers[0 := c.(requests := AddOne(c.requests, vf), limits := AddOne(c.limits, vf))],
         annotations := pod.annotations[DEFAULT_NETWORK_ANNOTATION := s.nadNamespace + "/" + s.nadName])
  }

  function VFResourceName(api: API): Result<string, Error> {
    match api.networkAnnotations
    case Err(_) => Err(NetworkUnavailable)
    case Ok(annotations) =>
      if RESOURCE_NAME_ANNOTATION in annotations then Ok(annotations[RESOURCE_NAME_ANNOTATION])
      else Err(NoResourceName)
  }

  function InjectOrPanic(s: Settings, vf: string, pod: PodValue): (Outcome, PodValue) {
    if pod.containers == [] then (Panicked, pod) else (Admitted, Injected(s, vf, pod))
  }

  /** The outcome of admitting a pod and the pod afterwards. */
  function Admission(s: Settings, api: API, pod: PodValue): (Outcome, PodValue) {
    if pod.hostNetwork then (Admitted, pod)
    else match VFResourceName(api)
      case Err(e) => (Rejected(e), pod)
      case Ok(vf) =>
        if HasVF(pod, vf) then InjectOrPanic(s, vf, pod)
        else match DecideFor(s, api.nodes, pod)
          case Err(e) => (Rejected(e), pod)
          case Ok(Inject) => InjectOrPanic(s, vf, pod)
          case Ok(Skip) => (Admitted, pod)
          case Ok(SkipAndExclude) => (Admitted, Rewritten(s, pod))
  }

  // --------------------------------------------------------------------- implementation

  class Pod {
    var hostNetwork: bool
    var nodeSelector: map<string, string>
    var affinity: Option<Affinity>
    var containers: seq<Container>
    var annotations: map<string, string>

    ghost function Value(): PodValue
      reads this
    {
      PodValue(hostNetwork, nodeSelector, affinity, containers, annotations)
    }

    constructor (v: PodValue)
      ensures Value() == v
    {
      hostNetwork := v.hostNetwork;
      nodeSelector := v.nodeSelector;
      affinity := v.affinity;
      containers := v.containers;
      annotations := v.annotations;
    }
  }

  /** Whether one term already keeps DPU nodes out, found by scanning its expressions. */
  method TermHasExclusion(t: Term, key: string, value: string) returns (hasExclusion: bool)
    ensures hasExclusion <==> HasExclusion(t, key, value)
  {
    hasExclusion := false;
    for j := 0 to |t.expressions|
      invariant !hasExclusion
      invariant forall i | 0 <= i < j :: !Excludes(t.expressions[i], key, value)
    {
      var expr := t.expressions[j];
      if expr.key != key {
        continue;
      }
      if expr.op.DoesNotExist? {
        assert Excludes(expr, key, value);
        hasExclusion := true;
        break;
      }
      if expr.op.NotIn? {
        for k := 0 to |expr.values|
          invariant !hasExclusion && value !in expr.values[..k]
        {
          if expr.values[k] == value {
            hasExclusion := true;
            break;
          }
        }
        if hasExclusion {
          assert Excludes(expr, key, value);
          break;
        }
      }
    }
  }

  method AddAffinityForNonDPUNodes(pod: Pod, key: string, value: string)
    modifies pod`affinity
    ensures pod.affinity == ExcludeInAffinity(old(pod.affinity), key, value)
  {
    if pod.affinity.None? {
      pod.affinity := Some(Affinity(None, ""));
    }
    if pod.affinity.value.nodeAffinity.None? {
      pod.affinity := Some(pod.affinity.value.(nodeAffinity := Some(NodeAffinity(None, ""))));
    }
    if pod.affinity.value.nodeAffinity.value.required.None? {
      pod.affinity := WithRequired(pod.affinity, []);
    }
    ghost var start := pod.affinity;
    var terms := pod.affinity.value.nodeAffinity.value.required.value;
    ghost var originals := terms;
    if |terms| == 0 {
      pod.affinity := WithRequired(pod.affinity, [Term([Exclusion(key, value)], [])]);
    } else {
      for i := 0 to |terms|
        invariant |terms| == |originals|
        invariant pod.affinity == WithRequired(start, terms)
        invariant forall j | 0 <= j < i :: terms[j] == ExcludeInTerm(originals[j], key, value)
        invariant forall j | i <= j < |terms| :: terms[j] == originals[j]
      {
        var hasExclusion := TermHasExclusion(terms[i], key, value);
        if !hasExclusion {
          terms := terms[i := terms[i].(expressions := terms[i].expressions + [Exclusion(key, value)])];
          pod.affinity := WithRequired(pod.affinity, terms);
        }
      }
      assert terms == ExcludeInTerms(originals, key, value);
    }
  }

  method PodHasVFResources(pod: Pod, vf: string) returns (has: bool)
    ensures has <==> HasVF(pod.Value(), vf)
  {
    if |pod.containers| == 0 {
      return false;
    }
    if vf in pod.containers[0].requests {
      return true;
    }
    return vf in pod.containers[0].limits;
  }

  /** The nodes among `nodes` the pod may land on; the first malformed answer ends the scan. */
  method FilterNodes(pod: Pod, nodes: seq<Node>) returns (r: Result<seq<Node>, Error>)
    ensures r == Scan(pod.Value(), nodes)
  {
    var matching: seq<Node> := [];
    var required := RequiredTerms(pod.affinity);
    for i := 0 to |nodes|
      invariant matching == Matching(pod.Value(), nodes[..i])
      invariant forall k | 0 <= k < i :: !MatchPod(pod.Value(), nodes[k]).Malformed?
    {
      assert nodes[..i + 1][..i] == nodes[..i];
      var verdict := MatchNode(pod.nodeSelector, required, nodes[i]);
      if verdict.Malformed? {
        return Err(BadAffinity);
      }
      if verdict.Yes? {
        matching := matching + [nodes[i]];
      }
    }
    assert nodes[..|nodes|] == nodes;
    return Ok(matching);
  }

  method CountNodes(s: Settings, matching: seq<Node>) returns (withDPU: nat, withoutDPU: nat)
    ensures withDPU + withoutDPU == |matching|
    ensures withDPU > 0 <==> SomeDPU(s, matching)
    ensures withoutDPU > 0 <==> SomePlain(s, matching)
  {
    withDPU, withoutDPU := 0, 0;
    for i := 0 to |matching|
      invariant withDPU + withoutDPU == i
      invariant withDPU > 0 <==> exists k | 0 <= k < i :: IsDPU(s, matching[k])
      invariant withoutDPU > 0 <==> exists k | 0 <= k < i :: !IsDPU(s, matching[k])
    {
      if s.dpuKey in matching[i].labels && matching[i].labels[s.dpuKey] == s.dpuValue {
        withDPU := withDPU + 1;
      } else {
        withoutDPU := withoutDPU + 1;
      }
    }
  }

  method ShouldSkipInjection(s: Settings, api: API, pod: Pod) returns (r: Result<Decision, Error>)
    ensures r == DecideFor(s, api.nodes, pod.Value())
  {
    if api.nodes.Err? {
      return Err(ListFailed);
    }
    var nodes := api.nodes.value;
    PushdownRefinesScan(pod.Value(), nodes);
    if |pod.nodeSelector| > 0 {
      nodes := ListNodes(pod.nodeSelector, nodes);
    }
    var scan := FilterNodes(pod, nodes);
    if scan.Err? {
      return Err(scan.error);
    }
    if |scan.value| == 0 {
      return Ok(Inject);
    }
    var withDPU, withoutDPU := CountNodes(s, scan.value);
    if s.prioritizeOffloading {
      return Ok(if withDPU > 0 then Inject else Skip);
    }
    if withDPU > 0 && withoutDPU > 0 {
      return Ok(SkipAndExclude);
    }
    if withDPU > 0 && withoutDPU == 0 {
      return Ok(Inject);
    }
    return Ok(Skip);
  }

  method InjectNetworkResources(s: Settings, vf: string, pod: Pod) returns (outcome: Outcome)
    modifies pod
    ensures (outcome, pod.Value()) == InjectOrPanic(s, vf, old(pod.Value()))
  {
    if |pod.containers| == 0 {
      return Panicked;
    }
    var c := pod.containers[0];
    if vf in c.requests {
      c := c.(requests := c.requests[vf := c.requests[vf] + 1]);
    } else {
      c := c.(requests := c.requests[vf := 1]);
    }
    if vf in c.limits {
      c := c.(limits := c.limits[vf := c.limits[vf] + 1]);
    } else {
      c := c.(limits := c.limits[vf := 1]);
    }
    pod.containers := pod.containers[0 := c];
    pod.annotations := pod.annotations[DEFAULT_NETWORK_ANNOTATION := s.nadNamespace + "/" + s.nadName];
    return Admitted;
  }

  method GetVFResourceName(api: API) returns (r: Result<string, Error>)
    ensures r == VFResourceName(api)
    ensures r.Ok? <==> api.networkAnnotations.Ok? && RESOURCE_NAME_ANNOTATION in api.networkAnnotations.value
    ensures r.Ok? ==> r.value == api.networkAnnotations.value[RESOURCE_NAME_ANNOTATION]
    ensures r == Err(NetworkUnavailable) <==> api.networkAnnotations.Err?
  {
    if api.networkAnnotations.Err? {
      return Err(NetworkUnavailable);
    }
    if RESOURCE_NAME_ANNOTATION in api.networkAnnotations.value {
      return Ok(api.networkAnnotations.value[RESOURCE_NAME_ANNOTATION]);
    }
    return Err(NoResourceName);
  }

  method Default(s: Settings, api: API, pod: Pod) returns (outcome: Outcome)
    modifies pod
    ensures (outcome, pod.Value()) == Admission(s, api, old(pod.Value()))
  {
    if pod.hostNetwork {
      return Admitted;
    }
    var name := GetVFResourceName(api);
    if name.Err? {
      return Rejected(name.error);
    }
    var has := PodHasVFResources(pod, name.value);
    if has {
      outcome := InjectNetworkResources(s, name.value, pod);
      return;
    }
    var decision := ShouldSkipInjection(s, api, pod);
    if decision.Err? {
      return Rejected(decision.error);
    }
    if decision.value.SkipAndExclude? {
      AddAffinityForNonDPUNodes(pod, s.dpuKey, s.dpuValue);
    }
    if !decision.value.Inject? {
      return Admitted;
    }
    outcome := InjectNetworkResources(s, name.value, pod);
  }

  // ------------------------------------------------------------- selector pushdown

  lemma {:induction false} ListNodesContents(selector: map<string, string>, nodes: seq<Node>)
    ensures forall n :: n in ListNodes(selector, nodes) <==> n in nodes && SelectorMatches(selector, n)
  {
    if nodes != [] {
      ListNodesContents(selector, nodes[..|nodes| - 1]);
      assert nodes == nodes[..|nodes| - 1] + [nodes[|nodes| - 1]];
    }
  }

  lemma {:induction false} MatchingOfListed(pod: PodValue, nodes: seq<Node>)
    ensures Matching(pod, ListNodes(pod.nodeSelector, nodes)) == Matching(pod, nodes)
  {
    if nodes != [] {
      var front, last := nodes[..|nodes| - 1], nodes[|nodes| - 1];
      MatchingOfListed(pod, front);
      var listed := ListNodes(pod.nodeSelector, front);
      if SelectorMatches(pod.nodeSelector, last) {
        assert (listed + [last])[..|listed|] == listed;
      } else {
        assert listed + [] == listed && Matching(pod, front) + [] == Matching(pod, front);
      }
    }
  }

  /** Filtering nodes by the node selector before matching finds the same nodes, in the same order,
      and fails on the same inputs, as matching every node. */
  lemma PushdownRefinesScan(pod: PodValue, nodes: seq<Node>)
    ensures Scan(pod, ListNodes(pod.nodeSelector, nodes)) == Scan(pod, nodes)
  {
    var listed := ListNodes(pod.nodeSelector, nodes);
    MatchingOfListed(pod, nodes);
    ListNodesContents(pod.nodeSelector, nodes);
    if SomeNodeFails(pod, nodes) {
      var i :| 0 <= i < |nodes| && MatchPod(pod, nodes[i]).Malformed?;
      assert nodes[i] in listed;
    }
    if SomeNodeFails(pod, listed) {
      var i :| 0 <= i < |listed| && MatchPod(pod, listed[i]).Malformed?;
      assert listed[i] in nodes;
    }
  }
}
