/** What the actions of a plan can be, part by part. Properties of every action of a plan follow from
    these lists alone. */
module PlanParts {
  import opened Wrappers
  import Text
  import opened Net
  import opened Routing
  import opened World

  const NODE_NAME_ID := OvsID("host-k8s-nodename")
  const HOST_NAME_ID := OvsID("hostname")
  const ENCAP_IP := OvsID("ovn-encap-ip")
  const CONF_FILE := File(OVN_CONF_PATH)
  const NETPLAN_FILE := File(NETPLAN_PATH)

  function NodeNameFile(cfg: Config): Location {
    File(PathOr(cfg.nodeNamePath, DEFAULT_NODE_NAME_PATH))
  }

  function BootstrapFile(cfg: Config): Location {
    File(PathOr(cfg.bootstrapPath, DEFAULT_BOOTSTRAP_PATH))
  }

  function Server(cfg: Config): string {
    Text.TrimSpace(cfg.k8sAPIServer)
  }

  predicate OfHost(cfg: Config, host: string, a: Action) {
    || a.Fail? || a.CleanChassis?
    || a == SetText(NODE_NAME_ID, host) || a == SetText(HOST_NAME_ID, host)
    || (Server(cfg) != ""
        && (|| a == SetText(NodeNameFile(cfg), host + "\n")
            || a == SetText(BootstrapFile(cfg), BootstrapText(Server(cfg), host))))
  }

  predicate OfDiscovery(a: Action) {
    a == SetText(NETPLAN_FILE, NETPLAN_TEXT) || a.Fail? || a.ApplyNetplan?
  }

  predicate OfLink(cfg: Config, vtep: IPNet, gateway: IPv4, a: Action) {
    a.Fail? || a == EnsureAddress(BR_OVN, vtep) || a == RaiseLink(BR_OVN) || a == AddRoute(VtepRoute(cfg, gateway))
  }

  predicate OfIdentity(cfg: Config, vtep: IPNet, gateway: IPv4, a: Action) {
    || (cfg.mode.InternalIPAM? && OfLink(cfg, vtep, gateway, a))
    || a == AddRoute(HostRoute(cfg, gateway)) || a == SetText(ENCAP_IP, PrintIP(vtep.ip))
    || a == SetText(CONF_FILE, ConfText(cfg, vtep, gateway)) || OfReturnPath(a)
  }

  predicate OfReturnPath(a: Action) {
    a.Fail? || a.AddRule? || (a.AddRoute? && a.route.device == OOB_LINK && a.route.table == SOURCE_TABLE)
  }

  /** Every action a plan may hold. */
  predicate Permitted(cfg: Config, inputs: Inputs, a: Action) {
    var host, identity := HostName(cfg, inputs.env), Identity(cfg, inputs);
    || a.Fail?
    || (host.Some? && OfHost(cfg, host.value, a))
    || (cfg.mode.ExternalIPAM? && OfDiscovery(a))
    || (identity.Some? && OfIdentity(cfg, identity.value.0, identity.value.1, a))
  }

  lemma HostPlanActions(cfg: Config, inputs: Inputs)
    ensures forall a | a in HostPlan(cfg, inputs) ::
              a.Fail? || (HostName(cfg, inputs.env).Some? && OfHost(cfg, HostName(cfg, inputs.env).value, a))
  {
    match HostName(cfg, inputs.env)
    case None =>
    case Some(host) =>
      var n, b, c := NamePlan(host), BootstrapPlan(cfg, host), ChassisPlan(cfg, inputs, host);
      assert forall a | a in n :: OfHost(cfg, host, a);
      assert forall a | a in b :: OfHost(cfg, host, a);
      assert forall a | a in c :: OfHost(cfg, host, a);
      assert forall a | a in n + (b + c) :: a in n || a in b || a in c;
  }

  lemma DiscoveryPlanActions(cfg: Config, inputs: Inputs)
    ensures forall a | a in DiscoveryPlan(cfg, inputs) :: cfg.mode.ExternalIPAM? && OfDiscovery(a)
  {
  }

  lemma LinkPlanActions(cfg: Config, inputs: Inputs, vtep: IPNet, gateway: IPv4)
    ensures forall a | a in LinkPlan(cfg, inputs, vtep, gateway) ::
              cfg.mode.InternalIPAM? && OfLink(cfg, vtep, gateway, a)
  {
  }

  lemma SymmetricPlanActions(cfg: Config, inputs: Inputs)
    ensures forall a | a in SymmetricPlan(cfg, inputs) :: OfReturnPath(a)
  {
    assert forall a | a in OOBPlan(cfg, inputs) :: OfReturnPath(a);
  }

  lemma IdentityPlanActions(cfg: Config, inputs: Inputs)
    ensures forall a | a in IdentityPlan(cfg, inputs) ::
              && Identity(cfg, inputs).Some?
              && OfIdentity(cfg, Identity(cfg, inputs).value.0, Identity(cfg, inputs).value.1, a)
  {
    match Identity(cfg, inputs)
    case None =>
    case Some((vtep, gateway)) =>
      LinkPlanActions(cfg, inputs, vtep, gateway);
      SymmetricPlanActions(cfg, inputs);
      forall a | a in IdentityPlan(cfg, inputs) ensures OfIdentity(cfg, vtep, gateway, a) {
        IdentityPlanContents(cfg, inputs, vtep, gateway, a);
      }
  }

  lemma IdentityPlanTouchesNoNode(cfg: Config, inputs: Inputs)
    ensures forall a | a in IdentityPlan(cfg, inputs) :: !a.CleanChassis?
  {
    match Identity(cfg, inputs)
    case None =>
    case Some((vtep, gateway)) =>
      LinkPlanActions(cfg, inputs, vtep, gateway);
      SymmetricPlanActions(cfg, inputs);
      forall a | a in IdentityPlan(cfg, inputs) ensures !a.CleanChassis? {
        IdentityPlanContents(cfg, inputs, vtep, gateway, a);
      }
  }

  lemma IdentityPlanContents(cfg: Config, inputs: Inputs, vtep: IPNet, gateway: IPv4, a: Action)
    requires Identity(cfg, inputs) == Some((vtep, gateway))
    ensures a in IdentityPlan(cfg, inputs) <==>
              || a in LinkPlan(cfg, inputs, vtep, gateway) || a == AddRoute(HostRoute(cfg, gateway))
              || a == SetText(ENCAP_IP, PrintIP(vtep.ip)) || a == SetText(CONF_FILE, ConfText(cfg, vtep, gateway))
              || a in SymmetricPlan(cfg, inputs)
  {
    var link, s := LinkPlan(cfg, inputs, vtep, gateway), SymmetricPlan(cfg, inputs);
    var rest, f :=
      [AddRoute(HostRoute(cfg, gateway)), SetText(ENCAP_IP, PrintIP(vtep.ip))], ConfPlan(cfg, vtep, gateway);
    assert IdentityPlan(cfg, inputs) == link + rest + f + s;
    InFour(link, rest, f, s, a);
    assert a in rest <==> a == rest[0] || a == rest[1];
    assert a in f <==> a == f[0];
  }

  lemma InFour(p: seq<Action>, q: seq<Action>, r: seq<Action>, s: seq<Action>, a: Action)
    ensures a in p + q + r + s <==> a in p || a in q || a in r || a in s
  {
  }

  lemma PlanContents(cfg: Config, inputs: Inputs, a: Action)
    ensures a in Plan(cfg, inputs) <==>
              a in HostPlan(cfg, inputs) || a in DiscoveryPlan(cfg, inputs) || a in IdentityPlan(cfg, inputs)
  {
  }

  ghost predicate AllPermitted(cfg: Config, inputs: Inputs, plan: seq<Action>) {
    forall i | 0 <= i < |plan| :: Permitted(cfg, inputs, plan[i])
  }

  lemma PlanActions(cfg: Config, inputs: Inputs)
    ensures AllPermitted(cfg, inputs, Plan(cfg, inputs))
  {
    HostPlanActions(cfg, inputs);
    DiscoveryPlanActions(cfg, inputs);
    IdentityPlanActions(cfg, inputs);
    forall i | 0 <= i < |Plan(cfg, inputs)| ensures Permitted(cfg, inputs, Plan(cfg, inputs)[i]) {
      PlanContents(cfg, inputs, Plan(cfg, inputs)[i]);
    }
  }
}
