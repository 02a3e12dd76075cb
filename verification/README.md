# DPU networking components: a verified model

This project models the three parts of the OVN-Kubernetes components for DPUs that carry logic, and
proves what each of them is for.

* **The network injector webhook** (`Scheduling`, `Injector`, `InjectorTheorems`). A pod being created is
  given a virtual function (VF), left alone, or kept away from DPU nodes by rewriting its required node
  affinity in place. The rewrite is given an exact meaning over every node that could exist, the decision is
  proved sound over every node list, and repeated admission is followed through.
* **The DPU CNI provisioner** (`World`, `PlanParts`, `Interference`, `Provisioner`, `Convergence`, `Histories`,
  `Promises`, `Outcome`, `NetworkIdentity`, `Chassis`, `Json`, `Netplan`, `Routing`, `DhcpServer`, `Net`). The program is a
  class whose methods call an outside world, the class `Host`, in which any call may fail before or after taking
  effect and a file write may stop after any number of characters; it counts the calls that report an error, and
  methods are proved not to fail without one, or without unusable input. `World.Plan` is a run as a list of idempotent
  actions; each method is proved to perform its part of that plan, completely or up to a failing action. Other clients
  may write to the nodes of the host cluster at any moment of a run, and between runs the outside world
  changes freely. What follows is proved about all plans and all such histories: convergence, freshness of the network
  identity, packet routing before and after, the rate of `netplan apply`, and the life of the DHCP server. Removal
  of the stale chassis annotation is also a state machine in which other writers act between any two steps.
* **The OVS client's text layer** (`OvsCommand`, `OvsListing`, `Text`, `Decimal`). The arguments of one
  multi-command transaction are built from maps in any iteration order, split again at their separators, and run on
  an abstract database; the parsers are proved to undo the printing, for texts of any length.

A method is tied to a specification function or to a relation between states; the theorems are about those. `Promises`
and the lemmas called `...Literally`, `...Exactly`, `...Meaning` and `...Laws` say the same in plain terms, naming
interfaces, labels, files, tables, words and numbers instead of specification functions.
`Injector.Admission` is the meaning of `Default`, `Interference.Run` of `Configure`, `Interference.History` of
`EnsureConfiguration`, `Provisioner.RanOnce` of `RunOnce`.

## What the code does that its description does not say

* The affinity rewrite narrows a pod's nodes to the non-DPU ones unless the pod has an empty term beside a term that
  selects. An empty term selects no node, and with the exclusion appended it selects every non-DPU node, so such a pod
  may then land on nodes it had not asked for. `InjectorTheorems.AdmittedRewriteWidens` is a concrete admission,
  `AdmittedRewriteIsExact` the exact condition for pods the webhook rewrites, `RewriteExactAtNode` the one for the
  rewrite by itself. Pods with nothing but empty terms match no node and are never rewritten.
* A rewritten pod that is admitted again is rejected if one of its terms is malformed: a matching DPU node used to
  hide the malformed term, and after the rewrite it no longer matches (`InjectorTheorems.AdmitAgainUnchanged`, with a
  concrete pod in `RepeatedAdmissionRejects`).
* Injection indexes the first container unguarded. It panics exactly when injection is decided for a pod without
  containers (`InjectorTheorems.FailureLeavesPod`).
* The external-identifier parser indexes out of range on a blank column, on a lone `{`, and when its first item that is
  not of the form key=value has no `=` (`OvsListing.ParserPanicsExactly`).
* If the chassis annotation is a node's only one, the merge patch deletes the whole annotation map, so without its
  lock it would erase concurrently added annotations (`Chassis.UnlockedCleanupErasesAll`).
* Routes and rules of earlier runs are never removed. When the default gateway changes, returning packets keep leaving
  by the old one, whether the new route is taken behind it or refused (`Routing.OldGatewayStays`). The same holds for
  the host route in the main table (`Routing.OldHostRouteStays`); if the new one is refused, runs stop there, before
  the encapsulation address and the OVN file are brought up to date (`NetworkIdentity.RefusedHostRouteStops`).
* The chassis annotation is trimmed before it is compared with the system identifier, and the identifier is trimmed
  only before its quotes are removed. An identifier with white space at an end therefore never matches: an annotation
  equal to it is deleted (`Chassis.PaddedIdentifierIsDeleted`, and `EqualAnnotationSurvivesExactly` for the condition).
* External identifiers are read back with the quotes the switch prints around values that are empty or not made of
  letters, digits, `_`, `-` and `.` (`OvsListing.EmptyValueReadsBackQuoted`, and `ShownIsTheSameExactly`).
* The arguments of `AddPortWithMetadata` are cut into the intended commands exactly when neither the bridge nor the
  port is named `--` (`OvsCommand.AddPortCommandCount`).

## Model

| member | source | states |
|---|---|---|
| `InjectorTheorems.TermMeaning` | dpf-utils/internal/ovnkubernetesresourceinjector/webhooks/webhook.go:291-335 | A rewritten term selects a node iff the node is not a DPU node and the original term selected it or was empty; it is malformed iff the original was; it is never empty. |
| `InjectorTheorems.TermsMeaning` | dpf-utils/internal/ovnkubernetesresourceinjector/webhooks/webhook.go:291-335 | The same for a non-empty list of terms: some rewritten term selects iff the node is not a DPU node and some term selected it or the list holds an empty term. |
| `InjectorTheorems.RewriteMeaning` | dpf-utils/internal/ovnkubernetesresourceinjector/webhooks/webhook.go:260-336 | The exact verdict (yes, no, malformed) of a rewritten pod on every node, in terms of the original pod's verdict. |
| `InjectorTheorems.RewriteExactAtNode` | dpf-utils/internal/ovnkubernetesresourceinjector/webhooks/webhook.go:260-336 | Iff: at a node the rewrite means "matched before and not a DPU node" unless it widens there. |
| `InjectorTheorems.RewriteIsExact` | dpf-utils/internal/ovnkubernetesresourceinjector/webhooks/webhook.go:260-336 | Without empty terms and empty term lists, on every node, the rewritten pod matches iff the original matched and the node is not a DPU node. |
| `InjectorTheorems.RewrittenPodsHaveTerms` | dpf-utils/internal/ovnkubernetesresourceinjector/webhooks/webhook.go:184-230 | A pod decided to be rewritten has, if it requires terms at all, one that is not empty: pods with an empty term list or only empty terms never are. |
| `InjectorTheorems.AdmittedRewriteIsExact` | dpf-utils/internal/ovnkubernetesresourceinjector/webhooks/webhook.go:82-130 | Iff: a pod the webhook rewrites comes to match precisely the non-DPU nodes it matched before, unless it has an empty term and some non-DPU node satisfying its node selector did not match. |
| `InjectorTheorems.AdmittedRewriteWidens` | dpf-utils/internal/ovnkubernetesresourceinjector/webhooks/webhook.go:82-130 | A concrete admission: a pod with an empty term beside one for zone a, a DPU node and a plain node of the zone; it is rewritten without a VF and then matches a plain node elsewhere. |
| `InjectorTheorems.RewriteShape` | dpf-utils/internal/ovnkubernetesresourceinjector/webhooks/webhook.go:260-336 | The number of terms, their fields and their expressions survive, terms already excluding DPU nodes are untouched, every term excludes them afterwards, and nothing else of the pod changes. |
| `InjectorTheorems.RewriteIdempotent` | dpf-utils/internal/ovnkubernetesresourceinjector/webhooks/webhook.go:260-336 | Rewriting twice is rewriting once. |
| `InjectorTheorems.MatchingContents` | dpf-utils/internal/ovnkubernetesresourceinjector/webhooks/webhook.go:172-182 | The scan finds each listed node exactly as often as it is listed if it matches, and no other. |
| `InjectorTheorems.MatchingSome` | dpf-utils/internal/ovnkubernetesresourceinjector/webhooks/webhook.go:184-207 | Whether a DPU node, a plain node or any node is among the matches, read off the listed nodes. |
| `InjectorTheorems.MatchingIgnoresOrder` | dpf-utils/internal/ovnkubernetesresourceinjector/webhooks/webhook.go:172-182 | Listing the nodes in another order gives the same multiset of matches. |
| `InjectorTheorems.AdmissionIgnoresNodeOrder` | dpf-utils/internal/ovnkubernetesresourceinjector/webhooks/webhook.go:153-236 | Outcome and resulting pod do not depend on the order in which nodes are listed. |
| `InjectorTheorems.AdmissionSoundPlain` | dpf-utils/internal/ovnkubernetesresourceinjector/webhooks/webhook.go:82-130 | Without offloading priority: a pod admitted without a VF matches some listed node and no listed DPU node; if rewritten, no DPU node that could ever exist; it is rewritten iff it matched a listed DPU node; a VF is injected iff no plain node matches. |
| `InjectorTheorems.AdmissionSoundOffloading` | dpf-utils/internal/ovnkubernetesresourceinjector/webhooks/webhook.go:196-213 | With offloading priority: a VF is injected iff nothing matches or some DPU node does, and the affinity is untouched. |
| `InjectorTheorems.ModesCompared` | dpf-utils/internal/ovnkubernetesresourceinjector/webhooks/webhook.go:191-235 | Injection without offloading priority implies injection with it, and the modes differ exactly on pods matching both kinds of node. |
| `InjectorTheorems.DecideAgainAfterRewrite` | dpf-utils/internal/ovnkubernetesresourceinjector/webhooks/webhook.go:153-236 | Deciding again about a rewritten pod skips it, unless it holds a malformed term, which then fails. |
| `InjectorTheorems.AdmitAgainUnchanged` | dpf-utils/internal/ovnkubernetesresourceinjector/webhooks/webhook.go:82-130 | Admitting the result of a non-injecting admission again leaves it unchanged; it is rejected iff it was rewritten and holds a malformed term. |
| `InjectorTheorems.RepeatedAdmissionRejects` | dpf-utils/internal/ovnkubernetesresourceinjector/webhooks/webhook.go:82-130 | A concrete pod that is admitted and rewritten, and rejected when the result is admitted again. |
| `InjectorTheorems.ReinvocationAddsOneEach` | dpf-utils/internal/ovnkubernetesresourceinjector/webhooks/webhook.go:110-130 | After a VF was injected, k further calls, with any nodes, add exactly k to request and limit and to no other resource. |
| `InjectorTheorems.VFConservation` | dpf-utils/internal/ovnkubernetesresourceinjector/webhooks/webhook.go:338-369 | Injection adds exactly one to the first container's request and limit, so they are equal after iff equal before; every other resource, container and annotation, and the affinity, stay; the default network annotation names the network. |
| `InjectorTheorems.PriorVFIgnoresNodes` | dpf-utils/internal/ovnkubernetesresourceinjector/webhooks/webhook.go:239-257 | A pod that already asks for the VF in requests or limits is given one whatever the nodes are, even if they cannot be listed. |
| `InjectorTheorems.FailureLeavesPod` | dpf-utils/internal/ovnkubernetesresourceinjector/webhooks/webhook.go:82-130 | Every rejection leaves the pod unchanged; exactly when the call panics. |
| `Injector.PushdownRefinesScan` | dpf-utils/internal/ovnkubernetesresourceinjector/webhooks/webhook.go:155-182 | Filtering by the node selector before matching gives the same sequence of matches and the same error as matching every node. |
| `Injector.ListNodesContents` | dpf-utils/internal/ovnkubernetesresourceinjector/webhooks/webhook.go:157-170 | The listed nodes are exactly those whose labels satisfy the selector. |
| `Injector.TermHasExclusion` | dpf-utils/internal/ovnkubernetesresourceinjector/webhooks/webhook.go:297-320 | The nested scan with its breaks finds an expression excluding DPU nodes iff there is one. |
| `Injector.AddAffinityForNonDPUNodes` | dpf-utils/internal/ovnkubernetesresourceinjector/webhooks/webhook.go:260-336 | The in-place loop leaves exactly the rewritten affinity, creating the missing parts. |
| `Injector.PodHasVFResources` | dpf-utils/internal/ovnkubernetesresourceinjector/webhooks/webhook.go:239-257 | True iff the first container requests or limits the VF. |
| `Injector.FilterNodes` | dpf-utils/internal/ovnkubernetesresourceinjector/webhooks/webhook.go:172-182 | The loop returns the matching nodes in order, or an error iff matching some node is an error. |
| `Injector.CountNodes` | dpf-utils/internal/ovnkubernetesresourceinjector/webhooks/webhook.go:184-200 | The two counters add up to the matches and are positive iff a DPU node, or a plain node, is among them. |
| `Injector.ShouldSkipInjection` | dpf-utils/internal/ovnkubernetesresourceinjector/webhooks/webhook.go:153-236 | With the selector pushed down to the list request, the decision is that of the plain scan over all nodes. |
| `Injector.InjectNetworkResources` | dpf-utils/internal/ovnkubernetesresourceinjector/webhooks/webhook.go:338-369 | The pod afterwards is the injected pod, or the call panics if there is no container. |
| `InjectorTheorems.RejectionsExplained` | dpf-utils/internal/ovnkubernetesresourceinjector/webhooks/webhook.go:82-236 | The cause of every rejection, and exactly when a request is not rejected: network unreadable, resource name missing, nodes not listed (only for pods without the VF), malformed term met in the scan. |
| `Injector.Default` | dpf-utils/internal/ovnkubernetesresourceinjector/webhooks/webhook.go:82-130 | Outcome and pod afterwards are those of `Admission`, about which the theorems speak. |
| `InjectorTheorems.HostNetworkUntouched` | dpf-utils/internal/ovnkubernetesresourceinjector/webhooks/webhook.go:102-105 | A pod on the host network is admitted as it is, whatever the settings and the API server. |
| `InjectorTheorems.AdmissionCases` | dpf-utils/internal/ovnkubernetesresourceinjector/webhooks/webhook.go:82-236 | For every other pod, the whole result: the pod with one more VF and the default network annotation, the rewritten pod, or the very same pod, by which kinds of listed node match, the priority and whether the pod asks for a VF. |
| `InjectorTheorems.RewriteFresh` | dpf-utils/internal/ovnkubernetesresourceinjector/webhooks/webhook.go:264-294 | A pod without required terms gets exactly one, and keeps the rest of its affinity. |
| `Scheduling.MembershipLaws` | dpf-utils/internal/ovnkubernetesresourceinjector/webhooks/webhook.go:155-182 | In holds for a listed value, NotIn is its negation (so a missing key satisfies it), Exists and DoesNotExist look at the key alone. |
| `Scheduling.ComparisonLaws` | dpf-utils/internal/ovnkubernetesresourceinjector/webhooks/webhook.go:155-182 | Gt and Lt compare as numbers; a label that is missing or no number satisfies neither. |
| `Scheduling.TermLaws` | dpf-utils/internal/ovnkubernetesresourceinjector/webhooks/webhook.go:155-182 | Requirements of a term are ANDed; an empty term selects nothing. |
| `Scheduling.MatchLaws` | dpf-utils/internal/ovnkubernetesresourceinjector/webhooks/webhook.go:155-182 | Terms are ORed; no terms select nothing, no required affinity excludes nothing, and every label of the node selector must be there. |
| `Provisioner.DPUCNIProvisioner.SetLinkIPAddressIfNotSet` | dpf-utils/internal/cniprovisioner/dpu/provisioner.go:481-494 | For any link: performs the one idempotent action, or stops before or after it; adding the configured address to br-ovn leaves what the run reads unchanged. |
| `Provisioner.DPUCNIProvisioner.AddRouteIfNotExists` | dpf-utils/internal/cniprovisioner/dpu/provisioner.go:497-510 | Adds the route unless one with its network, gateway, device and table exists (the metric is not compared). |
| `Provisioner.DPUCNIProvisioner.AddRuleIfNotExists` | dpf-utils/internal/cniprovisioner/dpu/provisioner.go:513-526 | Adds the rule in priority order unless it exists. |
| `Provisioner.DPUCNIProvisioner.FindAndSetKubernetesHostNameInOVS` | dpf-utils/internal/cniprovisioner/dpu/provisioner.go:349-378 | Sets both identifiers to the host's name; it fails only on a failing call or for want of a name, and names nothing then. |
| `Promises.HostNameLiterally` | dpf-utils/internal/cniprovisioner/dpu/provisioner.go:355-367 | The name: the trimmed value of the label, or of the legacy label if the first is absent; none for a missing node, two missing labels or a blank value. |
| `Promises.CompleteRunNames` | dpf-utils/internal/cniprovisioner/dpu/provisioner.go:349-378 | After a complete run both identifiers hold the trimmed label, whatever the legacy label says, and the trimmed legacy label only if the first is absent. |
| `Promises.NamelessRunsFail` | dpf-utils/internal/cniprovisioner/dpu/provisioner.go:349-378 | Without a node, with neither label or with a blank value no run completes, and none changes anything. |
| `Provisioner.DPUCNIProvisioner.WriteHostIdentityBootstrapArtifacts` | dpf-utils/internal/cniprovisioner/dpu/provisioner.go:382-435 | Writes the node name and the kubeconfig at the configured or default paths, or nothing without an API server. |
| `Provisioner.DPUCNIProvisioner.ReconcileHostNodeChassisID` | dpf-utils/internal/cniprovisioner/dpu/provisioner.go:308-346 | With other clients writing before the read, between the read and the locked patch, and after it, the whole is one atomic clean-up action among their writes, complete or failed. |
| `Provisioner.DPUCNIProvisioner.RunNetplanApply` | dpf-utils/internal/cniprovisioner/dpu/provisioner.go:630-665 | Every way it can end is an attempt as `Netplan` describes it, including a stamp cut short; if no call fails the command is applied and stamped unless it is in its cooldown or the stamp is unreadable. |
| `Provisioner.DPUCNIProvisioner.ConfigureBROVN` | dpf-utils/internal/cniprovisioner/dpu/provisioner.go:563-590 | On success the remembered address and gateway are those read in this run; otherwise the change of the world is a stopped run of the discovery part, and unless a call failed br-ovn had no single address and netplan was applied. |
| `Provisioner.DPUCNIProvisioner.ConfigurePodToPodOnDifferentNodeConnectivity` | dpf-utils/internal/cniprovisioner/dpu/provisioner.go:439-478 | Performs the connectivity part of the plan, or a stopped run of it; it fails only if a call does. |
| `Provisioner.DPUCNIProvisioner.WriteFilesForOVN` | dpf-utils/internal/cniprovisioner/dpu/provisioner.go:529-560 | Builds the configuration text by appending and writes it, whole or cut short. |
| `Provisioner.DPUCNIProvisioner.ConfigureSymmetricRouting` | dpf-utils/internal/cniprovisioner/dpu/provisioner.go:722-780 | Performs the return-path part of the plan, or a stopped run of it; it fails only if a call does or an interface has no single address. |
| `Provisioner.DPUCNIProvisioner.Configure` | dpf-utils/internal/cniprovisioner/dpu/provisioner.go:268-304 | From any remembered state, a run performs the plan for what it reads, or a stopped run of it, with other clients' writes to host nodes before and after it; what it reads is the same afterwards; it fails only if a call does or something it reads is unusable. |
| `Promises.UnusableLiterally` | dpf-utils/internal/cniprovisioner/dpu/provisioner.go:268-304 | What is unusable: no name, no system identifier, not one address on br-ovn (netplan having been applied), cni0 or br-comm-ch. |
| `Promises.CompleteRunKernel` | dpf-utils/internal/cniprovisioner/dpu/provisioner.go:439-478 | Links, up flags, routes and rules after a complete run, exactly, from those before: br-ovn with its address, the routes to the VTEPs and the host network (metric 10000), the return route in table 60, and rules 31000 from the network of cni0 and 32000 from the address of br-comm-ch. |
| `Promises.CompleteRunRoutes` | dpf-utils/internal/cniprovisioner/dpu/provisioner.go:448-475 | In particular the main table has a route to the host network by the used gateway on br-ovn, between subnets one to the VTEP CIDR, and table 60 one by the default gateway on br-comm-ch. |
| `Promises.CompleteRunHasIdentity` | dpf-utils/internal/cniprovisioner/dpu/provisioner.go:563-590 | Every complete run uses the configured address and gateway or, with external IPAM, the only address of br-ovn and the gateway of the discovery network. |
| `Promises.CompleteRunReturnsPackets` | dpf-utils/internal/cniprovisioner/dpu/provisioner.go:718-779 | On a system with the kernel's default rules, after a complete run, packets from the pods' network or the out-of-band address to the VTEP CIDR leave by the default gateway on br-comm-ch whatever the main table says, and all others are routed by the default rules. |
| `Promises.CompleteRunFiles` | dpf-utils/internal/cniprovisioner/dpu/provisioner.go:382-435 | After a complete run: the encapsulation address, the OVN file line by line, the node-name file, the kubeconfig lines and the netplan file, each at its path. |
| `Promises.ConfTextIsLines` | dpf-utils/internal/cniprovisioner/dpu/provisioner.go:529-606 | The OVN file: next-hop is the gateway, router-subnet the network of br-ovn, then the optional sections. |
| `Promises.RunAddsOnly` | dpf-utils/internal/cniprovisioner/dpu/provisioner.go:268-304 | Any run, complete or stopped, adds only those routes and those two rules, and changes neither labels, gateways nor servers. |
| `Promises.RunWritesOnly` | dpf-utils/internal/cniprovisioner/dpu/provisioner.go:268-304 | Any run, complete or stopped, changes only those identifiers and files, identifiers to their text and files to a part of it. |
| `Promises.ChassisComesFirst` | dpf-utils/internal/cniprovisioner/dpu/provisioner.go:268-304 | Without a system identifier or the host's node a run with a host-cluster client does not get to the network. |
| `Promises.RulesComeLast` | dpf-utils/internal/cniprovisioner/dpu/provisioner.go:268-304 | When a run has added a source rule, the encapsulation address, the OVN file and the host route of that run are in place. |
| `Promises.CompleteRunCleansNode` | dpf-utils/internal/cniprovisioner/dpu/provisioner.go:308-346 | After an undisturbed complete run a stale annotation k8s.ovn.org/node-chassis-id is gone from the host's node, a blank or matching one and everything else is as it was, and without a host-cluster client no node has changed. |
| `Interference.ReachesThenAmid` | dpf-utils/internal/cniprovisioner/dpu/provisioner.go:268-304 | What others write to host nodes during a run might as well be written before the parts that do not touch nodes. |
| `Interference.AmidThenReaches` | dpf-utils/internal/cniprovisioner/dpu/provisioner.go:268-304 | What others write to host nodes during a run might as well be written after the parts that do not touch nodes. |
| `Provisioner.DPUCNIProvisioner.EnsureConfiguration` | dpf-utils/internal/cniprovisioner/dpu/provisioner.go:254-265 | Any number of ticks is a history: each tick a run, complete or stopped, with time passing and the outside world changing in between. |
| `Provisioner.DPUCNIProvisioner.StartDHCPServer` | dpf-utils/internal/cniprovisioner/dpu/provisioner.go:668-716 | Starts the server with the right arguments and remembers it, does nothing if one is remembered, or fails without effect, and only if a call fails or the MTU is out of range. |
| `Provisioner.DPUCNIProvisioner.RunOnce` | dpf-utils/internal/cniprovisioner/dpu/provisioner.go:229-242 | A run followed, if complete and with internal IPAM, by the start of the server; it fails only if a call does, something read is unusable or the MTU is out of range. |
| `Promises.RunOnceServes` | dpf-utils/internal/cniprovisioner/dpu/provisioner.go:229-242 | A successful call is a complete run after which, with internal IPAM, a server is remembered: the one just started, with exactly this command line, or an earlier one; with external IPAM none is started. |
| `Promises.FailedRunOnceStartsNothing` | dpf-utils/internal/cniprovisioner/dpu/provisioner.go:229-242 | A failed call starts no server. |
| `Promises.DhcpArgsLiterally` | dpf-utils/internal/cniprovisioner/dpu/provisioner.go:668-716 | The command line word by word: the range is the network of br-ovn, the host is the PF's MAC with its address, the MTU is 60 more than configured; none for a missing MAC, an MTU of 0 or above 9156. |
| `Convergence.StoppedRunAbsorbed` | dpf-utils/internal/cniprovisioner/dpu/provisioner.go:268-304 | A complete run after a stopped one ends as if the stopped one had not happened. |
| `Convergence.RunKeepsInputs` | dpf-utils/internal/cniprovisioner/dpu/provisioner.go:268-304 | No run, complete or stopped, disturbed or not, changes what later runs read. |
| `Convergence.RetriesConverge` | dpf-utils/internal/cniprovisioner/dpu/provisioner.go:254-304 | Nobody else writing and nothing missing: however many runs stopped, wherever and whatever they left half-written, the next complete run ends in exactly the state of one complete run from the start. |
| `Histories.PlanStartsLike` | dpf-utils/internal/cniprovisioner/dpu/provisioner.go:268-304 | While something a run must read is missing, it carries out a beginning of what it will do once everything is there. |
| `Histories.LateInputsConverge` | dpf-utils/internal/cniprovisioner/dpu/provisioner.go:254-304 | With inputs turning up in any order between runs and others writing at any moment, the first complete run leaves the texts, routes, rules and raised links of a single run that had found everything from the start. |
| `Histories.LateAddressConverges` | dpf-utils/internal/cniprovisioner/dpu/provisioner.go:254-304 | With external IPAM, in particular: runs that stopped for want of an address on br-ovn do not spoil that, whether or not they applied netplan. |
| `Histories.StepAttempts` | dpf-utils/internal/cniprovisioner/dpu/provisioner.go:254-304 | Every step of a history, a run or what lies between, is one netplan attempt. |
| `Histories.HistoryRateBound` | dpf-utils/internal/cniprovisioner/dpu/provisioner.go:630-665 | Over every history of the configuration loop: commands keep 120 seconds from earlier whole stamps, a window of W seconds holds at most W/120 + 1, and the stamp is readable and not in the future. |
| `Convergence.CompleteRunIsIdempotent` | dpf-utils/internal/cniprovisioner/dpu/provisioner.go:254-304 | A further complete run changes nothing: no route, rule, address, identifier, file or annotation. |
| `Convergence.SymmetricPartMeaning` | dpf-utils/internal/cniprovisioner/dpu/provisioner.go:722-780 | A complete return-path part has read one address on each interface and does to rules and routes exactly what the lookup theorems of `Routing` are about. |
| `Convergence.ConnectivityPartRoutes` | dpf-utils/internal/cniprovisioner/dpu/provisioner.go:439-478 | The routes after a complete connectivity part: the VTEP route if the subnets differ, then the host route. |
| `Convergence.ConnectivityDisturbsOnlyVteps` | dpf-utils/internal/cniprovisioner/dpu/provisioner.go:448-475 | While the main table has a cheaper route to the host network, setting up connectivity changes the route of no destination outside the VTEP CIDR. |
| `Outcome.PlanCompletesExactly` | dpf-utils/internal/cniprovisioner/dpu/provisioner.go:268-304 | Iff: a run can complete exactly when the host name, the identity of br-ovn, both interfaces with one address, the default gateway and, with a client for the host cluster, the system identifier and the host's node can be read. |
| `Outcome.CompleteRunTexts` | dpf-utils/internal/cniprovisioner/dpu/provisioner.go:268-304 | After a complete run the host-name identifiers, the encapsulation address, the OVN file, the node-name file, the bootstrap kubeconfig and the netplan file hold what the run read, whatever the store held before. |
| `Outcome.CompleteRunNetwork` | dpf-utils/internal/cniprovisioner/dpu/provisioner.go:439-478 | After a complete run the host route is there; with internal IPAM br-ovn is up and has the VTEP address, and the VTEP route is there if the subnets differ. |
| `Outcome.CompleteRunReturnPath` | dpf-utils/internal/cniprovisioner/dpu/provisioner.go:722-780 | After a complete run both source rules and the return route are in place. |
| `Outcome.CompleteRunChassis` | dpf-utils/internal/cniprovisioner/dpu/provisioner.go:308-346 | After a complete run during which nobody else writes, the host's node has no stale chassis annotation, and all other annotations of all nodes are as before. |
| `Outcome.ExecAllKeepsLinks` | dpf-utils/internal/cniprovisioner/dpu/provisioner.go:481-526 | Runs only add: every link keeps its addresses in order, every route and rule stays. |
| `NetworkIdentity.PlanUsesIdentity` | dpf-utils/internal/cniprovisioner/dpu/provisioner.go:439-606 | Every action of a plan that carries the identity of br-ovn carries the address and gateway this run reads. |
| `NetworkIdentity.IdentityIsFresh` | dpf-utils/internal/cniprovisioner/dpu/provisioner.go:563-590 | External IPAM, any run from any state: whatever it changed in br-ovn routes, encapsulation address or OVN file comes from the address and gateway it read itself. |
| `NetworkIdentity.NoIdentityNoWrites` | dpf-utils/internal/cniprovisioner/dpu/provisioner.go:573-579 | A run that sees no or several addresses on br-ovn never completes and makes none of these writes. |
| `Json.MergeDiff` | dpf-utils/internal/cniprovisioner/dpu/provisioner.go:338-343 | Applying a computed merge patch, as section 2 of RFC 7396 prescribes, yields the intended document. |
| `Chassis.LockedPatchApplies` | dpf-utils/internal/cniprovisioner/dpu/provisioner.go:338-343 | A locked patch served at the version it was computed from makes exactly the intended change of annotations and bumps the version. |
| `Chassis.CleanupServed` | dpf-utils/internal/cniprovisioner/dpu/provisioner.go:336-343 | The clean-up patch is a conflict at any other version; at its own it deletes the one annotation and changes nothing else. |
| `Chassis.UnlockedCleanupErasesAll` | dpf-utils/internal/cniprovisioner/dpu/provisioner.go:338-343 | Served without the version check, the patch of a node whose only annotation is the chassis one erases every annotation. |
| `Chassis.StepKeepsInv` | dpf-utils/internal/cniprovisioner/dpu/provisioner.go:308-346 | Versions only grow, so a held node of the current version is the current node: kept by every read, patch and foreign write. |
| `Chassis.SuccessfulPatchIsSafe` | dpf-utils/internal/cniprovisioner/dpu/provisioner.go:308-346 | In every interleaving, a patch that changes the node deletes an annotation whose trimmed text is neither blank nor the identifier, and leaves everything else; an annotation equal to the identifier is among them only if the identifier has white space at an end. |
| `Chassis.MatchingAnnotationSurvives` | dpf-utils/internal/cniprovisioner/dpu/provisioner.go:327-335 | In every interleaving, an annotation whose trimmed text is the identifier survives a reconciliation that read it. |
| `Chassis.EqualAnnotationSurvivesExactly` | dpf-utils/internal/cniprovisioner/dpu/provisioner.go:308-346 | Iff: an annotation equal to the identifier survives in every interleaving when the identifier has no white space at its ends (or is nothing else). |
| `Chassis.DeletesEqualAnnotation` | dpf-utils/internal/cniprovisioner/dpu/provisioner.go:308-346 | For any other identifier a reconciliation with nobody else writing deletes an annotation equal to it. |
| `Chassis.PaddedIdentifierIsDeleted` | dpf-utils/internal/cniprovisioner/dpu/provisioner.go:312-343 | A concrete one: the output " x" in quotes is read as an identifier with a leading space, and the equal annotation counts as stale. |
| `Chassis.QuietDeletesAtMostOnce` | dpf-utils/internal/cniprovisioner/dpu/provisioner.go:308-346 | Without other writers at most one deletion happens over any number of ticks. |
| `Chassis.QuietEndsSettled` | dpf-utils/internal/cniprovisioner/dpu/provisioner.go:308-346 | Without other writers, once a tick finds nothing to do or its patch arrives, the trimmed annotation is empty or the local identifier for good. |
| `Netplan.TornStampReads` | dpf-utils/internal/cniprovisioner/dpu/provisioner.go:637-644 | Any prefix of the stamp text reads as a time no later than the one written. |
| `Netplan.AttemptKeepsInv` | dpf-utils/internal/cniprovisioner/dpu/provisioner.go:630-665 | Every attempt, however it ends, keeps the stamp readable and not in the future and the commands two minutes apart. |
| `Netplan.AppliesAreSeparated` | dpf-utils/internal/cniprovisioner/dpu/provisioner.go:646-662 | In every run, a command starts at least 120 seconds after any earlier whole stamp, which is no earlier than its command's start. |
| `Netplan.StampNeverWedges` | dpf-utils/internal/cniprovisioner/dpu/provisioner.go:631-649 | In every reachable state the stamp can be read, and two minutes later nothing but a failing call keeps the command from running. |
| `Netplan.FailuresKeepStamp` | dpf-utils/internal/cniprovisioner/dpu/provisioner.go:655-662 | Over any stretch of a run in which no command succeeded, however many were tried, the stamp is the same. |
| `Netplan.RateBound` | dpf-utils/internal/cniprovisioner/dpu/provisioner.go:646-662 | Any window of W whole seconds holds at most W/120 + 1 commands whose stamp was written. |
| `Netplan.AppliedLiterally` | dpf-utils/internal/cniprovisioner/dpu/provisioner.go:646-662 | When all calls succeed, exactly when the command runs (120 seconds after the second in the stamp, to the nanosecond) and what it leaves. |
| `Routing.BestIsBest` | dpf-utils/internal/cniprovisioner/dpu/provisioner.go:497-510 | The selected route covers the destination, and no covering route is more specific or equally specific and cheaper. |
| `Routing.EnsureRouteExactly` | dpf-utils/internal/cniprovisioner/dpu/provisioner.go:497-510 | A route is added iff none with its network, gateway, device and table is there, at any metric. |
| `Routing.LookupIsFirst` | dpf-utils/internal/cniprovisioner/dpu/provisioner.go:718-779 | A packet takes the route of the first rule that covers its source and whose table has one. |
| `Routing.EnsuredRouteMatters` | dpf-utils/internal/cniprovisioner/dpu/provisioner.go:497-510 | Iff: when ensuring a route changes the selection for a destination; no other table changes. |
| `Routing.CostlyRouteIsInert` | dpf-utils/internal/cniprovisioner/dpu/provisioner.go:462-471 | The host route changes no selection while its table has a route for the same network that is no costlier. |
| `Routing.OldHostRouteStays` | dpf-utils/internal/cniprovisioner/dpu/provisioner.go:462-471 | When the gateway changes, ensuring the host route by the new one changes no selection: the old one stays in use. |
| `NetworkIdentity.RefusedHostRouteStops` | dpf-utils/internal/cniprovisioner/dpu/provisioner.go:462-475 | A run that stops at the host route, because the kernel refuses it say, leaves the encapsulation address and the OVN file as they were. |
| `Routing.HostRouteChangesLittle` | dpf-utils/internal/cniprovisioner/dpu/provisioner.go:462-471 | Otherwise it changes only destinations in its network without a more specific route, and becomes their route. |
| `Routing.InsertKeepsSorted` | dpf-utils/internal/cniprovisioner/dpu/provisioner.go:513-526 | Rules stay in priority order. |
| `Routing.LookupSplits` | dpf-utils/internal/cniprovisioner/dpu/provisioner.go:722-780 | Any lookup is that of table 60 if its rules come first and it has a route, and otherwise the lookup without table 60. |
| `Routing.ReturningPacketsExactly` | dpf-utils/internal/cniprovisioner/dpu/provisioner.go:722-780 | Iff, whatever rules and tables held before: a packet from the flannel network or the out-of-band address to the VTEP CIDR leaves by the default gateway on the out-of-band interface when table 60 is reached first and the return route wins in it. |
| `Routing.ReturningPacketsReturn` | dpf-utils/internal/cniprovisioner/dpu/provisioner.go:722-780 | It does when no rule for another table of at most that priority resolves it and the return route wins; leftovers of earlier runs are allowed. |
| `Routing.ReturnRouteWinsExactly` | dpf-utils/internal/cniprovisioner/dpu/provisioner.go:722-780 | Iff: when table 60, as it was before, lets the return route be selected. |
| `Routing.OldestRouteWins` | dpf-utils/internal/cniprovisioner/dpu/provisioner.go:722-780 | Among the routes earlier runs left in table 60 the oldest is selected, so the return route wins iff there was none or the oldest is it. |
| `Routing.OldGatewayStays` | dpf-utils/internal/cniprovisioner/dpu/provisioner.go:722-780 | When the default gateway changes between two runs, returning packets still leave by the old one, whether the new route is taken behind it or refused. |
| `Routing.OtherPacketsExactly` | dpf-utils/internal/cniprovisioner/dpu/provisioner.go:722-780 | Iff, whatever rules and tables held before: any other packet is routed as before unless an old rule meets the new route or a new rule meets an old route. |
| `Routing.OtherPacketsUnchanged` | dpf-utils/internal/cniprovisioner/dpu/provisioner.go:722-780 | With only this and earlier runs' routes in table 60, every other packet is routed as before, falling through the table where it has no route; excepted is a packet to the VTEP CIDR from a source of an earlier run's rule, when the table had lost its route. |
| `Routing.ResolvedPacketsUnchanged` | dpf-utils/internal/cniprovisioner/dpu/provisioner.go:722-780 | A packet that a rule ahead of every table-60 rule for its source resolves is routed as before. |
| `DhcpServer.RunOnceServers` | dpf-utils/internal/cniprovisioner/dpu/provisioner.go:229-242 | A call of RunOnce starts nothing, or one server, with internal IPAM, after a complete run and with the right arguments. |
| `DhcpServer.AtMostOneServer` | dpf-utils/internal/cniprovisioner/dpu/provisioner.go:229-265 | Over the whole life of the process at most one server starts, none with external IPAM, and it is remembered exactly when there is one. |
| `DhcpServer.StaticRouteMatchesKernel` | dpf-utils/internal/cniprovisioner/dpu/provisioner.go:448-460 | The server hands out the static route iff the run ensures the VTEP route on br-ovn, with the same network and gateway, iff the network of br-ovn is not the VTEP CIDR. |
| `DhcpServer.ServedRouteIsInstalled` | dpf-utils/internal/cniprovisioner/dpu/provisioner.go:668-716 | A started server that hands out the static route runs beside a kernel that has that route. |
| `Net.PrintNetInjective` | dpf-utils/internal/cniprovisioner/dpu/provisioner.go:448-454 | Networks, masked or not, print alike iff they are the same, so comparing texts is sound (section 3.1 of RFC 4632). |
| `Net.ParsePrintedNet` | dpf-utils/internal/cniprovisioner/dpu/provisioner.go:448-452 | Parsing a printed address with its prefix gives the address and its network. |
| `Net.PrintIPLiterally` | dpf-utils/internal/cniprovisioner/dpu/provisioner.go:448-454 | Addresses print in dotted notation, most significant byte first. |
| `Net.ContainsExactly` | dpf-utils/internal/cniprovisioner/dpu/provisioner.go:448-454 | An address is in a network iff it agrees with it in its leading prefix-length bits. |
| `Net.NetworkMasked` | dpf-utils/internal/cniprovisioner/dpu/provisioner.go:448-452 | The network of an address has no bits below the mask, and is its own network. |
| `OvsCommand.AppendIDCommands` | dpf-utils/internal/utils/ovsclient/implementation.go:321-326 | In whatever order a map yields its keys, one terminated command per identifier is appended. |
| `OvsCommand.AddPortArguments` | dpf-utils/internal/utils/ovsclient/implementation.go:316-328 | The arguments, with the dropped last separator put back, are word by word those of the three head commands and of one set command per identifier, in some order of each map. |
| `OvsCommand.SplitTerminated` | dpf-utils/internal/utils/ovsclient/implementation.go:316-328 | Dropping the last separator and splitting gives back exactly the commands. |
| `OvsCommand.AddPortCommandCount` | dpf-utils/internal/utils/ovsclient/implementation.go:316-328 | For every iteration order: exactly 3 + port identifiers + interface identifiers commands iff neither name is the separator, and then they are the intended, non-empty ones. |
| `OvsCommand.AddPortMeaning` | dpf-utils/internal/utils/ovsclient/implementation.go:316-331 | For every iteration order the transaction gives the same database: the port on its bridge with exactly its identifiers, its interface with type, ofport request and exactly its identifiers, all else unchanged; or it fails as a whole. |
| `OvsCommand.Switch.AddPortWithMetadata` | dpf-utils/internal/utils/ovsclient/implementation.go:316-331 | Success, and failure after the transaction took effect, mean that the bridge existed, the port did not, and it is now there exactly as asked; any other failure changed nothing, and there is none if the port could be added and no call failed. |
| `OvsListing.GetExternalIDsAsMap` | dpf-utils/internal/utils/ovsclient/implementation.go:267-297 | The reslicing loop computes the specified parse, errors and out-of-range indexing included. |
| `OvsListing.GetExternalIDs` | dpf-utils/internal/utils/ovsclient/implementation.go:252-264 | The column after the first colon is parsed, or an error if there is none. |
| `OvsListing.ExternalIDRoundTrip` | dpf-utils/internal/utils/ovsclient/implementation.go:267-297 | For every map of clean atoms, in every key order and with any surrounding white space, parsing the printed map gives back exactly the map. |
| `OvsListing.ParserPanicsExactly` | dpf-utils/internal/utils/ovsclient/implementation.go:267-297 | Iff: when the parser indexes out of range. |
| `OvsListing.NoColumnExactly` | dpf-utils/internal/utils/ovsclient/implementation.go:257-260 | A column is missing iff the output has no colon. |
| `OvsListing.LastValueCounts` | dpf-utils/internal/utils/ovsclient/implementation.go:285-294 | Of several values for one key the last counts. |
| `OvsListing.SomeColumnsPanic` | dpf-utils/internal/utils/ovsclient/implementation.go:271-291 | Columns on which it does: every blank one, and a key without "=" in braces. |
| `OvsListing.ColumnRoundTrip` | dpf-utils/internal/utils/ovsclient/implementation.go:252-264 | The same round trip through the printed column. |
| `OvsListing.WrittenIDsReadBack` | dpf-utils/internal/utils/ovsclient/implementation.go:252-331 | For all iteration and printing orders: adding a port makes the switch hold exactly both maps; reading one back gives what the switch shows, quotes included, and that is what was written iff every key and value is printed bare. |
| `OvsListing.ShownIsTheSameExactly` | dpf-utils/internal/utils/ovsclient/implementation.go:267-297 | Iff: the shown identifiers are the identifiers when each key and value is printed without quotes. |
| `OvsListing.EmptyValueReadsBackQuoted` | dpf-utils/internal/utils/ovsclient/implementation.go:267-297 | A concrete map: an empty value reads back as two quotes. |
| `OvsListing.GetInterfacesWithPMDRXQueue` | dpf-utils/internal/utils/ovsclient/implementation.go:361-395 | The scanning loop collects the ports of the queue lines, or stops at a malformed one. |
| `OvsListing.CollectPortsMeaning` | dpf-utils/internal/utils/ovsclient/implementation.go:370-395 | For any text: an error iff some line names a port without a field after it, and otherwise exactly the ports its lines name. |
| `OvsListing.LineMeaning` | dpf-utils/internal/utils/ovsclient/implementation.go:374-388 | A line by its text: nothing without a colon or with another key; with the key port the name up to the first space, and an error if there is none. |
| `OvsListing.BadReportsExactly` | dpf-utils/internal/utils/ovsclient/implementation.go:374-388 | A report is an error iff one of its lines has the key port and no space in its trimmed value. |
| `OvsListing.ReportRoundTrip` | dpf-utils/internal/utils/ovsclient/implementation.go:361-395 | Reading a printed report of any lines, queue lines with any fields among any other lines, with or without a final newline, gives precisely the ports that own a queue. |
| `OvsListing.QueueReportRoundTrip` | dpf-utils/internal/utils/ovsclient/implementation.go:361-395 | In particular for any threads and queues printed as the switch does, numbers aligned in two columns and names in sixteen, with or without the empty first line and the final newline. |
| `OvsListing.SampleQueueLine` | dpf-utils/internal/utils/ovsclient/implementation.go:361-395 | A queue line of such a report, character by character. |
| `OvsListing.ThreadLinesIgnored` | dpf-utils/internal/utils/ovsclient/implementation.go:370-379 | Thread, isolated and overhead lines never name a port. |
| `OvsListing.ListInterfaces` | dpf-utils/internal/utils/ovsclient/implementation.go:334-358 | The scanning loop collects the values after the first colon of each line that has one. |
| `OvsListing.NamesMeaning` | dpf-utils/internal/utils/ovsclient/implementation.go:343-351 | The listed names are the trimmed texts after the first colon of a line that has one. |
| `OvsListing.InterfaceListRoundTrip` | dpf-utils/internal/utils/ovsclient/implementation.go:334-358 | Parsing printed interface names gives precisely the names. |
| `OvsListing.SystemIDRoundTrip` | dpf-utils/internal/utils/ovsclient/implementation.go:206-219 | A printed system identifier, quoted or not, is read back. |
| `OvsListing.TrimQuotesExactly` | dpf-utils/internal/utils/ovsclient/implementation.go:212-213 | All quotes at both ends are removed and nothing else. |
| `OvsListing.NoSystemID` | dpf-utils/internal/utils/ovsclient/implementation.go:206-219 | No output and an empty set both read as no identifier. |
| `Text.SplitJoin` | dpf-utils/internal/utils/ovsclient/implementation.go:285-286 | Splitting undoes joining when no part can be confused with the separator. |
| `Text.SplitParts` | dpf-utils/internal/utils/ovsclient/implementation.go:286-290 | Splitting at a character gives one part more than the text has of it. |
| `Decimal.AtoiItoa` | dpf-utils/internal/cniprovisioner/dpu/provisioner.go:639-660 | Reading back a printed number gives the number. |
| `Decimal.AtoiPrefix` | dpf-utils/internal/cniprovisioner/dpu/provisioner.go:639-660 | A non-empty prefix of a printed number reads as a number no larger. |

## Left out

- Entry points, flags, environment, signals, readiness files: plumbing; their values are the fields of `Config` and `Settings`.
- `Default`: the error for an object that is not a pod, and the lookup of a pod's namespace, are not modelled.
- Scheduling rules: the syntax of label keys and values and the 64-bit range of Gt and Lt operands are not checked; operators, value counts and decimal operands are.
- Quantities: VF amounts are unbounded integers, without suffixes or overflow.
- The two booleans of `shouldSkipInjection` are one three-valued decision; the fourth combination never occurs.
- Single-command OVS setters, the generated mock and `ipallocator`: thin wrappers, or logic in a library that is not part of this model.
- OVS quoting: values are taken literally by the abstract database; keys must be free of `:` and `=`; read-back is for printable atoms without `=`, quotes, backslashes and `, `, so escapes inside quotes are not modelled. Releases that also quote atoms with digits differ in which atoms are bare.
- Scanner limits on line length.
- IPv6; addresses are 32-bit values.
- The fixed text of the kubeconfig and netplan templates is shortened; what varies in them is kept.
- The root directory prefix of file paths and the creation of directories.
- The kernel's own refusals (an address, route or rule that already exists in another form) count as failing calls.
- Netlink helper internals, `dnsmasq` and command execution are the class `Host`: state, a contract, and failure at any call.
- Creation and deletion of host nodes by others in the middle of a run; between runs they may come and go.
- Provisioner.DPUCNIProvisioner.Configure: assumes that node objects of the host cluster hold no JSON nulls outside their annotations, as an API server's never do.
- NetworkIdentity.IdentityIsFresh: assumes that the configured node-name and bootstrap paths are not the path of the OVN file.
- Outcome.CompleteRunTexts: makes the same assumption; what it says of the node-name, bootstrap and netplan files needs these three paths to differ.
- OvsCommand.Switch.AddPortWithMetadata: says nothing for a bridge or port named `--` or keys with a delimiter, which do not form the intended commands.
- Provisioner.DPUCNIProvisioner.EnsureConfiguration: the loop is followed for any finite number of ticks, not forever.
- Netplan.RateBound: counts commands whose stamp was written whole; a command whose stamp is cut short may be repeated sooner.
- The range of `ovnMTU`: a negative value passes the program's check, and the model keeps it so.
- `Stop`, the ticker's period, logging and error texts.
