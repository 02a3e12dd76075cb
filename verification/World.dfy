/** What the DPU provisioner reads and changes outside itself, and the plan of a configuration run: the
    sequence of idempotent actions it performs, as a function of what it reads. */
module World {
  import opened Wrappers
  import opened Text
  import opened Decimal
  import opened Net
  import opened Routing
  import Chassis
  import Netplan
  import OvsListing

  const BR_OVN := "br-ovn"
  const FLANNEL_LINK := "cni0"
  const OOB_LINK := "br-comm-ch"
  const OVN_CONF_PATH := "/etc/openvswitch/ovn_k8s.conf"
  const NETPLAN_PATH := "/etc/netplan/80-br-ovn.yaml"
  const DEFAULT_BOOTSTRAP_PATH := "/host-kubernetes/kubelet.conf"
  const DEFAULT_NODE_NAME_PATH := "/var/run/ovn-kubernetes/host-node-name"
  const DPU_NODE_LABEL := "provisioning.dpu.nvidia.com/dpunode-name"
  const LEGACY_HOST_LABEL := "provisioning.dpu.nvidia.com/host"
  const HOST_ROUTE_METRIC := 10000

  /** With internal IPAM the identity of br-ovn is given; with external IPAM it is discovered. */
  datatype Mode =
    | InternalIPAM(vtep: IPNet, gateway: IPv4, pfIP: IPv4, ovnMTU: int)
    | ExternalIPAM(discovery: IPNet)

  datatype Config = Config(
    mode: Mode,
    vtepCIDR: IPNet,
    hostCIDR: IPNet,
    dpuHostName: string,
    k8sAPIServer: string,
    nodeNamePath: string,
    bootstrapPath: string,
    hasHostClient: bool,
    ovnNamespace: Option<string>,
    lease: Option<(int, int)>)

  /** What the provisioner only reads: nodes of the DPU cluster with their labels, what the switch
      prints as its system identifier, gateways by network, and the host's PF address. */
  datatype Env = Env(
    nodes: map<string, map<string, string>>,
    systemIDOutput: string,
    gateways: map<IPNet, IPv4>,
    pfMAC: Option<string>)

  /** State the provisioner only adds to, step by step, or cleans. */
  datatype Kernel = Kernel(
    links: map<string, seq<IPNet>>,
    up: set<string>,
    routes: seq<Route>,
    rules: seq<Rule>,
    hosts: map<string, Chassis.HostNode>)

  /** Places the provisioner overwrites: external identifiers of the switch, and files. */
  datatype Location = OvsID(key: string) | File(path: string)

  datatype Sys = Sys(
    env: Env,
    kernel: Kernel,
    store: map<Location, string>,
    netplan: Netplan.State,
    servers: seq<seq<string>>)

  // ------------------------------------------------------------------------- actions

  datatype Action =
    | SetText(place: Location, text: string)
    | EnsureAddress(link: string, address: IPNet)
    | RaiseLink(link: string)
    | AddRoute(route: Route)
    | AddRule(rule: Rule)
    | CleanChassis(host: string, systemID: string)
    | ApplyNetplan
    | Fail

  /** A run never gets past these. */
  predicate Blocking(a: Action) {
    a.Fail? || a.ApplyNetplan?
  }

  function ExecKernel(a: Action, k: Kernel): Kernel {
    match a
    case EnsureAddress(link, ip) =>
      if link in k.links && ip !in k.links[link] then k.(links := k.links[link := k.links[link] + [ip]]) else k
    case RaiseLink(link) => k.(up := k.up + {link})
    case AddRoute(r) => k.(routes := EnsureRoute(k.routes, r))
    case AddRule(r) => k.(rules := EnsureRule(k.rules, r))
    case CleanChassis(host, id) =>
      if host in k.hosts && Chassis.NeedsCleanup(k.hosts[host], id)
      then k.(hosts := k.hosts[host := Chassis.WithoutChassis(k.hosts[host])]) else k
    case _ => k
  }

  function ExecStore(a: Action, store: map<Location, string>): map<Location, string> {
    if a.SetText? then store[a.place := a.text] else store
  }

  function Exec(a: Action, s: Sys): Sys {
    s.(kernel := ExecKernel(a, s.kernel), store := ExecStore(a, s.store))
  }

  function KernelAfter(plan: seq<Action>, k: Kernel): Kernel {
    if plan == [] then k else ExecKernel(plan[|plan| - 1], KernelAfter(plan[..|plan| - 1], k))
  }

  function StoreAfter(plan: seq<Action>, store: map<Location, string>): map<Location, string> {
    if plan == [] then store else ExecStore(plan[|plan| - 1], StoreAfter(plan[..|plan| - 1], store))
  }

  function ExecAll(plan: seq<Action>, s: Sys): Sys {
    s.(kernel := KernelAfter(plan, s.kernel), store := StoreAfter(plan, s.store))
  }

  predicate Unblocked(plan: seq<Action>) {
    forall i | 0 <= i < |plan| :: !Blocking(plan[i])
  }

  /** What an action that reports failure may have done: nothing, everything (the answer was lost), or,
      for a file, any prefix of its text. */
  ghost predicate Torn(a: Action, before: Sys, after: Sys) {
    match a
    case Fail => after == before
    case ApplyNetplan =>
      after == before.(netplan := after.netplan) && Netplan.Attempted(before.netplan, after.netplan)
    case SetText(File(path), text) =>
      after == before || exists n | 0 <= n <= |text| :: after == Exec(SetText(File(path), text[..n]), before)
    case _ => after == before || after == Exec(a, before)
  }

  /** A run of the plan from `before` ends in `after`, either complete or stopped by a failing action. */
  ghost predicate Reaches(plan: seq<Action>, before: Sys, ok: bool, after: Sys) {
    if ok then Unblocked(plan) && after == ExecAll(plan, before)
    else exists k | 0 <= k < |plan| :: StopsAt(plan, k, before, after)
  }

  ghost predicate StopsAt(plan: seq<Action>, k: nat, before: Sys, after: Sys)
    requires k < |plan|
  {
    Unblocked(plan[..k]) && Torn(plan[k], ExecAll(plan[..k], before), after)
  }

  lemma {:induction false} KernelAfterAppend(p: seq<Action>, q: seq<Action>, k: Kernel)
    ensures KernelAfter(p + q, k) == KernelAfter(q, KernelAfter(p, k))
  {
    if q == [] {
      assert p + q == p;
    } else {
      assert (p + q)[..|p + q| - 1] == p + q[..|q| - 1];
      KernelAfterAppend(p, q[..|q| - 1], k);
    }
  }

  lemma {:induction false} StoreAfterAppend(p: seq<Action>, q: seq<Action>, store: map<Location, string>)
    ensures StoreAfter(p + q, store) == StoreAfter(q, StoreAfter(p, store))
  {
    if q == [] {
      assert p + q == p;
    } else {
      assert (p + q)[..|p + q| - 1] == p + q[..|q| - 1];
      StoreAfterAppend(p, q[..|q| - 1], store);
    }
  }

  lemma ExecAllAppend(p: seq<Action>, q: seq<Action>, s: Sys)
    ensures ExecAll(p + q, s) == ExecAll(q, ExecAll(p, s))
  {
    KernelAfterAppend(p, q, s.kernel);
    StoreAfterAppend(p, q, s.store);
  }

  lemma ExecAllOne(a: Action, s: Sys)
    ensures ExecAll([a], s) == Exec(a, s)
  {
    assert [a][..|[a]| - 1] == [] && [a][|[a]| - 1] == a;
    assert KernelAfter([a], s.kernel) == ExecKernel(a, s.kernel);
    assert StoreAfter([a], s.store) == ExecStore(a, s.store);
  }

  lemma ReachesNothing(s: Sys)
    ensures Reaches([], s, true, s)
  {
  }

  /** A run that fails before its first action has done nothing. */
  lemma ReachesFailed(plan: seq<Action>, s: Sys)
    requires plan != []
    ensures Reaches(plan, s, false, s)
  {
    assert plan[..0] == [];
    if plan[0].ApplyNetplan? {
      var now := s.netplan.now;
      assert Netplan.Attempt(s.netplan, now, now, Netplan.ReadFails) == s.netplan;
      assert Netplan.Attempted(s.netplan, s.netplan);
    }
    assert StopsAt(plan, 0, s, s);
  }

  lemma ReachesOne(a: Action, before: Sys, ok: bool, after: Sys)
    requires ok ==> !Blocking(a) && after == Exec(a, before)
    requires !ok ==> Torn(a, before, after)
    ensures Reaches([a], before, ok, after)
  {
    ExecAllOne(a, before);
    if !ok {
      assert [a][..0] == [];
      assert StopsAt([a], 0, before, after);
    }
  }

  /** A run may have done all of its actions and still report failure: the last answer was lost, or a
      later read of the same part failed. */
  lemma ReachesLate(plan: seq<Action>, before: Sys, after: Sys)
    requires plan != [] && Reaches(plan, before, true, after)
    ensures Reaches(plan, before, false, after)
  {
    var last := |plan| - 1;
    var middle := ExecAll(plan[..last], before);
    assert after == Exec(plan[last], middle);
    if plan[last].SetText? {
      assert plan[last].text[..|plan[last].text|] == plan[last].text;
    }
    assert StopsAt(plan, last, before, after);
  }

  /** Runs compose: a completed part may be followed by the next part. */
  lemma ReachesThen(p: seq<Action>, q: seq<Action>, before: Sys, middle: Sys, ok: bool, after: Sys)
    requires Reaches(p, before, true, middle) && Reaches(q, middle, ok, after)
    ensures Reaches(p + q, before, ok, after)
  {
    ExecAllAppend(p, q, before);
    if !ok {
      var k :| 0 <= k < |q| && StopsAt(q, k, middle, after);
      ExecAllAppend(p, q[..k], before);
      assert (p + q)[..|p| + k] == p + q[..k] && (p + q)[|p| + k] == q[k];
      assert StopsAt(p + q, |p| + k, before, after);
    }
  }

  /** A run that stopped in one part has stopped in the whole. */
  lemma ReachesStopped(p: seq<Action>, q: seq<Action>, before: Sys, after: Sys)
    requires Reaches(p, before, false, after)
    ensures Reaches(p + q, before, false, after)
  {
    var k :| 0 <= k < |p| && StopsAt(p, k, before, after);
    assert (p + q)[..k] == p[..k] && (p + q)[k] == p[k];
    assert StopsAt(p + q, k, before, after);
  }

  /** Node objects of the host cluster are well formed. */
  predicate GoodHosts(s: Sys) {
    forall h | h in s.kernel.hosts :: Chassis.WellFormed(s.kernel.hosts[h])
  }

  // ---------------------------------------------------------------------------- the plan

  /** Everything a run's decisions depend on. Addresses of br-ovn are read only with external IPAM;
      otherwise only the presence of the link matters. */
  datatype Inputs = Inputs(
    env: Env,
    brOVN: Option<seq<IPNet>>,
    flannel: Option<seq<IPNet>>,
    oob: Option<seq<IPNet>>,
    hosts: set<string>)

  function LinkAddresses(s: Sys, link: string): Option<seq<IPNet>> {
    if link in s.kernel.links then Some(s.kernel.links[link]) else None
  }

  function InputsOf(cfg: Config, s: Sys): Inputs {
    Inputs(s.env,
           if cfg.mode.ExternalIPAM? then LinkAddresses(s, BR_OVN)
           else if BR_OVN in s.kernel.links then Some([]) else None,
           LinkAddresses(s, FLANNEL_LINK),
           LinkAddresses(s, OOB_LINK),
           s.kernel.hosts.Keys)
  }

  /** The host's node name: the label, or the legacy label if the first is absent; never blank. */
  function HostName(cfg: Config, env: Env): Option<string> {
    if cfg.dpuHostName !in env.nodes then None
    else
      var labels := env.nodes[cfg.dpuHostName];
      var raw := if DPU_NODE_LABEL in labels then labels[DPU_NODE_LABEL]
                 else if LEGACY_HOST_LABEL in labels then labels[LEGACY_HOST_LABEL] else "";
      if TrimSpace(raw) == "" then None else Some(TrimSpace(raw))
  }

  function NamePlan(host: string): seq<Action> {
    [SetText(OvsID("host-k8s-nodename"), host), SetText(OvsID("hostname"), host)]
  }

  function PathOr(path: string, default: string): string {
    if path == "" then default else path
  }

  /** The kubeconfig with which the host's identity is bootstrapped (its fixed parts left out). */
  function BootstrapText(server: string, host: string): string {
    "server: " + server + "\nas: system:node:" + host + "\n"
  }

  function BootstrapPlan(cfg: Config, host: string): seq<Action> {
    var server := TrimSpace(cfg.k8sAPIServer);
    if server == "" then []
    else [SetText(File(PathOr(cfg.nodeNamePath, DEFAULT_NODE_NAME_PATH)), host + "\n"),
          SetText(File(PathOr(cfg.bootstrapPath, DEFAULT_BOOTSTRAP_PATH)), BootstrapText(server, host))]
  }

  function ChassisPlan(cfg: Config, inputs: Inputs, host: string): seq<Action> {
    if !cfg.hasHostClient then []
    else
      var systemID := OvsListing.SystemID(inputs.env.systemIDOutput);
      if systemID == "" || host !in inputs.hosts then [Fail] else [CleanChassis(host, systemID)]
  }

  const NETPLAN_TEXT := "network:\n  renderer: networkd\n  version: 2\n  bridges:\n    br-ovn:\n      dhcp4: yes\n"

  /** Discovering the identity of br-ovn with external IPAM. */
  function DiscoveryPlan(cfg: Config, inputs: Inputs): seq<Action> {
    if cfg.mode.InternalIPAM? then []
    else [SetText(File(NETPLAN_PATH), NETPLAN_TEXT)]
         + (if inputs.brOVN.None? then [Fail]
            else if |inputs.brOVN.value| != 1 then [ApplyNetplan]
            else if cfg.mode.discovery !in inputs.env.gateways then [Fail]
            else [])
  }

  /** The address of br-ovn and the gateway this run must use, if it can know them. */
  function Identity(cfg: Config, inputs: Inputs): Option<(IPNet, IPv4)> {
    match cfg.mode
    case InternalIPAM(vtep, gateway, _, _) => Some((vtep, gateway))
    case ExternalIPAM(discovery) =>
      if inputs.brOVN.Some? && |inputs.brOVN.value| == 1 && discovery in inputs.env.gateways
      then Some((inputs.brOVN.value[0], inputs.env.gateways[discovery])) else None
  }

  function VtepRoute(cfg: Config, gateway: IPv4): Route {
    Route(cfg.vtepCIDR, gateway, BR_OVN, 0, MAIN_TABLE)
  }

  function HostRoute(cfg: Config, gateway: IPv4): Route {
    Route(cfg.hostCIDR, gateway, BR_OVN, HOST_ROUTE_METRIC, MAIN_TABLE)
  }

  /** Networks are compared by their text. */
  predicate SpansSubnets(cfg: Config, vtep: IPNet) {
    PrintNet(Network(vtep)) != PrintNet(cfg.vtepCIDR)
  }

  function ConnectivityPlan(cfg: Config, inputs: Inputs, vtep: IPNet, gateway: IPv4): seq<Action> {
    LinkPlan(cfg, inputs, vtep, gateway)
    + [AddRoute(HostRoute(cfg, gateway)), SetText(OvsID("ovn-encap-ip"), PrintIP(vtep.ip))]
  }

  function LinkPlan(cfg: Config, inputs: Inputs, vtep: IPNet, gateway: IPv4): seq<Action> {
    if cfg.mode.ExternalIPAM? then []
    else if inputs.brOVN.None? then [Fail]
    else [EnsureAddress(BR_OVN, vtep), RaiseLink(BR_OVN)]
         + if SpansSubnets(cfg, vtep) then [AddRoute(VtepRoute(cfg, gateway))] else []
  }

  /** The configuration file for OVN Kubernetes. */
  function ConfText(cfg: Config, vtep: IPNet, gateway: IPv4): string {
    "[Gateway]\n" + ("next-hop=" + PrintIP(gateway) + "\n") + ("router-subnet=" + PrintNet(Network(vtep)) + "\n")
    + (if cfg.ovnNamespace.Some?
       then "\n[kubernetes]\n" + ("ovn-config-namespace=" + cfg.ovnNamespace.value + "\n") else "")
    + (if cfg.lease.Some?
       then "\n[ovnkubenode]\n" + ("dpu-node-lease-renew-interval=" + Itoa(cfg.lease.value.0) + "\n")
            + ("dpu-node-lease-duration=" + Itoa(cfg.lease.value.1) + "\n")
       else "")
  }

  function ConfPlan(cfg: Config, vtep: IPNet, gateway: IPv4): seq<Action> {
    [SetText(File(OVN_CONF_PATH), ConfText(cfg, vtep, gateway))]
  }

  function SymmetricPlan(cfg: Config, inputs: Inputs): seq<Action> {
    if inputs.flannel.None? || |inputs.flannel.value| != 1 then [Fail]
    else [AddRule(Rule(FLANNEL_PRIORITY, Network(inputs.flannel.value[0]), SOURCE_TABLE))] + OOBPlan(cfg, inputs)
  }

  function OOBPlan(cfg: Config, inputs: Inputs): seq<Action> {
    if inputs.oob.None? || |inputs.oob.value| != 1 then [Fail]
    else [AddRule(Rule(OOB_PRIORITY, Single(inputs.oob.value[0].ip), SOURCE_TABLE))]
         + if EVERYTHING !in inputs.env.gateways then [Fail]
           else [AddRoute(Route(cfg.vtepCIDR, inputs.env.gateways[EVERYTHING], OOB_LINK, 0, SOURCE_TABLE))]
  }

  /** Everything after the identity of br-ovn is known. */
  function IdentityPlan(cfg: Config, inputs: Inputs): seq<Action> {
    match Identity(cfg, inputs)
    case None => []
    case Some((vtep, gateway)) =>
      ConnectivityPlan(cfg, inputs, vtep, gateway) + ConfPlan(cfg, vtep, gateway) + SymmetricPlan(cfg, inputs)
  }

  /** Everything about the identity of the host; without a host name nothing can be done. */
  function HostPlan(cfg: Config, inputs: Inputs): seq<Action> {
    match HostName(cfg, inputs.env)
    case None => [Fail]
    case Some(host) => NamePlan(host) + (BootstrapPlan(cfg, host) + ChassisPlan(cfg, inputs, host))
  }

  /** Everything from the discovery of br-ovn on. */
  function NetworkPlan(cfg: Config, inputs: Inputs): seq<Action> {
    DiscoveryPlan(cfg, inputs) + IdentityPlan(cfg, inputs)
  }

  /** All a run does, in order. */
  function Plan(cfg: Config, inputs: Inputs): seq<Action> {
    HostPlan(cfg, inputs) + NetworkPlan(cfg, inputs)
  }
}
