/** What a completed configuration run leaves behind, read off the final state instead of the plan. */
module Outcome {
  import opened Wrappers
  import opened Net
  import opened Routing
  import opened World
  import opened PlanParts
  import opened Interference
  import opened Convergence
  import opened NetworkIdentity
  import Chassis
  import OvsListing

  /** No two actions of the plan write different texts to one place. */
  predicate WritesOnly(plan: seq<Action>, place: Location, text: string) {
    forall i | 0 <= i < |plan| && plan[i].SetText? && plan[i].place == place :: plan[i].text == text
  }

  lemma {:induction false} WrittenText(plan: seq<Action>, store: map<Location, string>, place: Location, text: string)
    requires SetText(place, text) in plan && WritesOnly(plan, place, text)
    ensures place in StoreAfter(plan, store) && StoreAfter(plan, store)[place] == text
  {
    var front, last := plan[..|plan| - 1], plan[|plan| - 1];
    if last != SetText(place, text) {
      assert plan == front + [last];
      WrittenText(front, store, place, text);
    }
  }

  lemma SettledInPlan(plan: seq<Action>, k: Kernel, a: Action)
    requires a in plan
    ensures Settled(a, KernelAfter(plan, k))
  {
    PlanSettles(plan, k);
  }

  lemma UnblockedAppend(p: seq<Action>, q: seq<Action>)
    ensures Unblocked(p + q) <==> Unblocked(p) && Unblocked(q)
  {
    assert forall i | 0 <= i < |p| :: (p + q)[i] == p[i];
    assert forall i | 0 <= i < |q| :: (p + q)[|p| + i] == q[i];
  }

  /** The host part: the name is known and, with a client for the host cluster, so are the local system
      identifier and the host's node. */
  predicate HostKnown(cfg: Config, inputs: Inputs) {
    var host := HostName(cfg, inputs.env);
    && host.Some?
    && (cfg.hasHostClient ==> OvsListing.SystemID(inputs.env.systemIDOutput) != "" && host.value in inputs.hosts)
  }

  predicate OneAddress(addresses: Option<seq<IPNet>>) {
    addresses.Some? && |addresses.value| == 1
  }

  /** The network part: br-ovn, the identity, and the two interfaces and the gateway of the return path. */
  predicate NetworkKnown(cfg: Config, inputs: Inputs) {
    && Identity(cfg, inputs).Some? && inputs.brOVN.Some?
    && OneAddress(inputs.flannel) && OneAddress(inputs.oob) && EVERYTHING in inputs.env.gateways
  }

  lemma HostPlanCompletes(cfg: Config, inputs: Inputs)
    ensures Unblocked(HostPlan(cfg, inputs)) <==> HostKnown(cfg, inputs)
  {
    match HostName(cfg, inputs.env)
    case None => assert Blocking(HostPlan(cfg, inputs)[0]);
    case Some(host) =>
      var n, b, c := NamePlan(host), BootstrapPlan(cfg, host), ChassisPlan(cfg, inputs, host);
      assert Unblocked(n) && Unblocked(b);
      UnblockedAppend(b, c);
      UnblockedAppend(n, b + c);
      assert c != [] ==> (Unblocked(c) <==> !Blocking(c[0]));
  }

  lemma SymmetricPlanCompletes(cfg: Config, inputs: Inputs)
    ensures Unblocked(SymmetricPlan(cfg, inputs)) <==>
              OneAddress(inputs.flannel) && OneAddress(inputs.oob) && EVERYTHING in inputs.env.gateways
  {
    var s := SymmetricPlan(cfg, inputs);
    assert Blocking(s[0]) <==> !OneAddress(inputs.flannel);
    if OneAddress(inputs.flannel) {
      assert s[1..] == OOBPlan(cfg, inputs);
      assert Blocking(s[1]) <==> !OneAddress(inputs.oob);
      if OneAddress(inputs.oob) {
        assert |s| == 3 && (Blocking(s[2]) <==> EVERYTHING !in inputs.env.gateways);
      }
    }
  }

  lemma ConnectivityPlanCompletes(cfg: Config, inputs: Inputs, vtep: IPNet, gateway: IPv4)
    ensures Unblocked(ConnectivityPlan(cfg, inputs, vtep, gateway)) <==> (cfg.mode.InternalIPAM? ==> inputs.brOVN.Some?)
  {
    var link := LinkPlan(cfg, inputs, vtep, gateway);
    var rest := [AddRoute(HostRoute(cfg, gateway)), SetText(ENCAP_IP, PrintIP(vtep.ip))];
    assert Unblocked(rest);
    UnblockedAppend(link, rest);
    assert link != [] ==> (Unblocked(link) <==> !Blocking(link[0]));
  }

  lemma NetworkPlanCompletes(cfg: Config, inputs: Inputs)
    ensures Unblocked(NetworkPlan(cfg, inputs)) <==> NetworkKnown(cfg, inputs)
  {
    var d, e := DiscoveryPlan(cfg, inputs), IdentityPlan(cfg, inputs);
    UnblockedAppend(d, e);
    assert Unblocked(d) <==> Identity(cfg, inputs).Some? by {
      assert d != [] ==> !Blocking(d[0]);
      assert |d| > 1 ==> Blocking(d[1]);
    }
    if Identity(cfg, inputs).Some? {
      var (vtep, gateway) := Identity(cfg, inputs).value;
      var c, f, s :=
        ConnectivityPlan(cfg, inputs, vtep, gateway), ConfPlan(cfg, vtep, gateway), SymmetricPlan(cfg, inputs);
      assert Unblocked(f);
      UnblockedAppend(c, f);
      UnblockedAppend(c + f, s);
      ConnectivityPlanCompletes(cfg, inputs, vtep, gateway);
      SymmetricPlanCompletes(cfg, inputs);
    }
  }

  /** A run can complete exactly when everything it must read is there. */
  lemma PlanCompletesExactly(cfg: Config, inputs: Inputs)
    ensures Unblocked(Plan(cfg, inputs)) <==> HostKnown(cfg, inputs) && NetworkKnown(cfg, inputs)
  {
    UnblockedAppend(HostPlan(cfg, inputs), NetworkPlan(cfg, inputs));
    HostPlanCompletes(cfg, inputs);
    NetworkPlanCompletes(cfg, inputs);
  }

  lemma CompletePlanIsKnown(cfg: Config, inputs: Inputs)
    requires Unblocked(Plan(cfg, inputs))
    ensures HostName(cfg, inputs.env).Some? && Identity(cfg, inputs).Some? && inputs.brOVN.Some?
    ensures Unblocked(SymmetricPlan(cfg, inputs))
    ensures cfg.hasHostClient ==>
              OvsListing.SystemID(inputs.env.systemIDOutput) != "" && HostName(cfg, inputs.env).value in inputs.hosts
  {
    PlanCompletesExactly(cfg, inputs);
    SymmetricPlanCompletes(cfg, inputs);
  }

  /** The two configured paths differ from each other and from the netplan file. */
  predicate DistinctPaths(cfg: Config) {
    NodeNameFile(cfg) != BootstrapFile(cfg) && NETPLAN_FILE !in [NodeNameFile(cfg), BootstrapFile(cfg)]
  }

  predicate Holds(store: map<Location, string>, place: Location, text: string) {
    place in store && store[place] == text
  }

  /** The texts a run writes that depend on what it reads. */
  datatype Texts = Texts(host: string, nodeName: string, bootstrap: string, encap: string, conf: string)

  function TextsOf(cfg: Config, inputs: Inputs): Texts
    requires HostName(cfg, inputs.env).Some? && Identity(cfg, inputs).Some?
  {
    var host := HostName(cfg, inputs.env).value;
    var (vtep, gateway) := Identity(cfg, inputs).value;
    Texts(host, host + "\n", BootstrapText(Server(cfg), host), PrintIP(vtep.ip), ConfText(cfg, vtep, gateway))
  }

  predicate Writes(cfg: Config, t: Texts, a: Action) {
    a.SetText? ==>
      || a == SetText(NODE_NAME_ID, t.host) || a == SetText(HOST_NAME_ID, t.host)
      || a == SetText(NodeNameFile(cfg), t.nodeName) || a == SetText(BootstrapFile(cfg), t.bootstrap)
      || a == SetText(NETPLAN_FILE, NETPLAN_TEXT)
      || a == SetText(ENCAP_IP, t.encap) || a == SetText(CONF_FILE, t.conf)
  }

  ghost predicate AllWrite(cfg: Config, t: Texts, plan: seq<Action>) {
    forall i | 0 <= i < |plan| :: Writes(cfg, t, plan[i])
  }

  lemma PermittedWrites(cfg: Config, inputs: Inputs, a: Action)
    requires HostName(cfg, inputs.env).Some? && Identity(cfg, inputs).Some? && Permitted(cfg, inputs, a)
    ensures Writes(cfg, TextsOf(cfg, inputs), a)
  {
  }

  lemma PlanWrites(cfg: Config, inputs: Inputs, plan: seq<Action>)
    requires HostName(cfg, inputs.env).Some? && Identity(cfg, inputs).Some? && AllPermitted(cfg, inputs, plan)
    ensures AllWrite(cfg, TextsOf(cfg, inputs), plan)
  {
    forall i | 0 <= i < |plan| ensures Writes(cfg, TextsOf(cfg, inputs), plan[i]) {
      PermittedWrites(cfg, inputs, plan[i]);
    }
  }

  lemma IdentifiersDiffer()
    ensures NODE_NAME_ID != HOST_NAME_ID && NODE_NAME_ID != ENCAP_IP && HOST_NAME_ID != ENCAP_IP
  {
    assert |NODE_NAME_ID.key| == 17 && |HOST_NAME_ID.key| == 8 && |ENCAP_IP.key| == 12;
  }

  /** An action that writes to a place writes the one text meant for it. */
  lemma WritesItsText(cfg: Config, t: Texts, a: Action)
    requires Writes(cfg, t, a) && a.SetText? && SeparatePaths(cfg)
    ensures a.place == NODE_NAME_ID || a.place == HOST_NAME_ID ==> a.text == t.host
    ensures a.place == ENCAP_IP ==> a.text == t.encap
    ensures a.place == CONF_FILE ==> a.text == t.conf
    ensures DistinctPaths(cfg) ==>
              && (a.place == NodeNameFile(cfg) ==> a.text == t.nodeName)
              && (a.place == BootstrapFile(cfg) ==> a.text == t.bootstrap)
              && (a.place == NETPLAN_FILE ==> a.text == NETPLAN_TEXT)
  {
    IdentifiersDiffer();
    assert |OVN_CONF_PATH| == 29 && |NETPLAN_PATH| == 27;
  }

  lemma WrittenTexts(cfg: Config, t: Texts, plan: seq<Action>, store: map<Location, string>, a: Action)
    requires AllWrite(cfg, t, plan) && SeparatePaths(cfg) && a in plan && a.SetText?
    requires a.place.OvsID? || a.place == CONF_FILE || DistinctPaths(cfg)
    ensures Holds(StoreAfter(plan, store), a.place, a.text)
  {
    forall i | 0 <= i < |plan| && plan[i].SetText? && plan[i].place == a.place ensures plan[i].text == a.text {
      WritesItsText(cfg, t, plan[i]);
      WritesItsText(cfg, t, a);
    }
    WrittenText(plan, store, a.place, a.text);
  }

  /** The identifiers and the files of a completed run, whatever the store held before. */
  lemma CompleteRunTexts(cfg: Config, before: Sys, after: Sys)
    requires Run(cfg, before, true, after) && SeparatePaths(cfg)
    ensures HostName(cfg, before.env).Some? && Identity(cfg, InputsOf(cfg, before)).Some?
    ensures var host := HostName(cfg, before.env).value;
            && Holds(after.store, NODE_NAME_ID, host) && Holds(after.store, HOST_NAME_ID, host)
            && (Server(cfg) != "" && DistinctPaths(cfg) ==>
                  && Holds(after.store, NodeNameFile(cfg), host + "\n")
                  && Holds(after.store, BootstrapFile(cfg), BootstrapText(Server(cfg), host)))
    ensures var (vtep, gateway) := Identity(cfg, InputsOf(cfg, before)).value;
            && Holds(after.store, ENCAP_IP, PrintIP(vtep.ip))
            && Holds(after.store, CONF_FILE, ConfText(cfg, vtep, gateway))
    ensures cfg.mode.ExternalIPAM? && DistinctPaths(cfg) ==> Holds(after.store, NETPLAN_FILE, NETPLAN_TEXT)
  {
    var start, end := RunParts(cfg, before, true, after);
    var inputs := InputsOf(cfg, start);
    CompletePlanIsKnown(cfg, inputs);
    PlanActions(cfg, inputs);
    PlanWrites(cfg, inputs, Plan(cfg, inputs));
    HostTextsInPlan(cfg, inputs);
    IdentityTextsInPlan(cfg, inputs);
    NetplanFileInPlan(cfg, inputs);
    TextsHold(cfg, TextsOf(cfg, inputs), Plan(cfg, inputs), start.store);
  }

  lemma TextsHold(cfg: Config, t: Texts, plan: seq<Action>, store: map<Location, string>)
    requires AllWrite(cfg, t, plan) && SeparatePaths(cfg)
    requires SetText(NODE_NAME_ID, t.host) in plan && SetText(HOST_NAME_ID, t.host) in plan
    requires Server(cfg) != "" ==>
               && SetText(NodeNameFile(cfg), t.nodeName) in plan
               && SetText(BootstrapFile(cfg), t.bootstrap) in plan
    requires SetText(ENCAP_IP, t.encap) in plan && SetText(CONF_FILE, t.conf) in plan
    requires cfg.mode.ExternalIPAM? ==> SetText(NETPLAN_FILE, NETPLAN_TEXT) in plan
    ensures var after := StoreAfter(plan, store);
            && Holds(after, NODE_NAME_ID, t.host) && Holds(after, HOST_NAME_ID, t.host)
            && Holds(after, ENCAP_IP, t.encap) && Holds(after, CONF_FILE, t.conf)
            && (DistinctPaths(cfg) ==>
                  && (Server(cfg) != "" ==>
                        Holds(after, NodeNameFile(cfg), t.nodeName) && Holds(after, BootstrapFile(cfg), t.bootstrap))
                  && (cfg.mode.ExternalIPAM? ==> Holds(after, NETPLAN_FILE, NETPLAN_TEXT)))
  {
    forall a | a in plan && a.SetText? && (a.place.OvsID? || a.place == CONF_FILE || DistinctPaths(cfg))
      ensures Holds(StoreAfter(plan, store), a.place, a.text)
    {
      WrittenTexts(cfg, t, plan, store, a);
    }
  }

  lemma HostTextsInPlan(cfg: Config, inputs: Inputs)
    requires HostName(cfg, inputs.env).Some?
    ensures var plan, host := Plan(cfg, inputs), HostName(cfg, inputs.env).value;
            && SetText(NODE_NAME_ID, host) in plan && SetText(HOST_NAME_ID, host) in plan
            && (Server(cfg) != "" ==>
                  && SetText(NodeNameFile(cfg), host + "\n") in plan
                  && SetText(BootstrapFile(cfg), BootstrapText(Server(cfg), host)) in plan)
  {
    var host := HostName(cfg, inputs.env).value;
    var n, b, c := NamePlan(host), BootstrapPlan(cfg, host), ChassisPlan(cfg, inputs, host);
    forall a | a in n || a in b ensures a in Plan(cfg, inputs) {
      assert a in n + (b + c);
      PlanContents(cfg, inputs, a);
    }
    assert n[0] in n && n[1] in n && (b != [] ==> b[0] in b && b[1] in b);
  }

  lemma IdentityTextsInPlan(cfg: Config, inputs: Inputs)
    requires Identity(cfg, inputs).Some?
    ensures var plan, (vtep, gateway) := Plan(cfg, inputs), Identity(cfg, inputs).value;
            SetText(ENCAP_IP, PrintIP(vtep.ip)) in plan && SetText(CONF_FILE, ConfText(cfg, vtep, gateway)) in plan
  {
    var (vtep, gateway) := Identity(cfg, inputs).value;
    var encap, conf := SetText(ENCAP_IP, PrintIP(vtep.ip)), SetText(CONF_FILE, ConfText(cfg, vtep, gateway));
    IdentityPlanContents(cfg, inputs, vtep, gateway, encap);
    IdentityPlanContents(cfg, inputs, vtep, gateway, conf);
    PlanContents(cfg, inputs, encap);
    PlanContents(cfg, inputs, conf);
  }

  lemma NetplanFileInPlan(cfg: Config, inputs: Inputs)
    ensures cfg.mode.ExternalIPAM? ==> SetText(NETPLAN_FILE, NETPLAN_TEXT) in Plan(cfg, inputs)
  {
    if cfg.mode.ExternalIPAM? {
      assert DiscoveryPlan(cfg, inputs)[0] == SetText(NETPLAN_FILE, NETPLAN_TEXT);
      PlanContents(cfg, inputs, SetText(NETPLAN_FILE, NETPLAN_TEXT));
    }
  }

  /** The network of a completed run: br-ovn carries the VTEP address and is up (internal IPAM), the host
      route and, between subnets, the VTEP route are there, and so are the return rules and route. */
  lemma CompleteRunNetwork(cfg: Config, before: Sys, after: Sys)
    requires Run(cfg, before, true, after)
    ensures Identity(cfg, InputsOf(cfg, before)).Some?
    ensures var (vtep, gateway) := Identity(cfg, InputsOf(cfg, before)).value;
            && HasRoute(after.kernel.routes, HostRoute(cfg, gateway))
            && (cfg.mode.InternalIPAM? ==>
                  && BR_OVN in after.kernel.links && vtep in after.kernel.links[BR_OVN] && BR_OVN in after.kernel.up
                  && (Network(vtep) != cfg.vtepCIDR ==> HasRoute(after.kernel.routes, VtepRoute(cfg, gateway))))
  {
    var start, end := RunParts(cfg, before, true, after);
    var inputs := InputsOf(cfg, start);
    CompletePlanIsKnown(cfg, inputs);
    ConnectivitySettled(cfg, inputs, start.kernel);
    ExecAllKeepsLinks(Plan(cfg, inputs), start.kernel);
  }

  lemma ConnectivitySettled(cfg: Config, inputs: Inputs, k: Kernel)
    requires Identity(cfg, inputs).Some? && (cfg.mode.InternalIPAM? ==> inputs.brOVN.Some?)
    ensures var (vtep, gateway) := Identity(cfg, inputs).value;
            var after := KernelAfter(Plan(cfg, inputs), k);
            && Settled(AddRoute(HostRoute(cfg, gateway)), after)
            && (cfg.mode.InternalIPAM? ==>
                  && Settled(EnsureAddress(BR_OVN, vtep), after) && Settled(RaiseLink(BR_OVN), after)
                  && (Network(vtep) != cfg.vtepCIDR ==> Settled(AddRoute(VtepRoute(cfg, gateway)), after)))
  {
    var (vtep, gateway) := Identity(cfg, inputs).value;
    var link, h := LinkPlan(cfg, inputs, vtep, gateway), AddRoute(HostRoute(cfg, gateway));
    forall a | a in link || a == h ensures Settled(a, KernelAfter(Plan(cfg, inputs), k)) {
      IdentityPlanContents(cfg, inputs, vtep, gateway, a);
      PlanContents(cfg, inputs, a);
      SettledInPlan(Plan(cfg, inputs), k, a);
    }
    if cfg.mode.InternalIPAM? {
      assert link[0] in link && link[1] in link;
      PrintNetInjective(Network(vtep), cfg.vtepCIDR);
      assert SpansSubnets(cfg, vtep) ==> link[2] in link;
    }
  }

  lemma CompleteRunReturnPath(cfg: Config, before: Sys, after: Sys)
    requires Run(cfg, before, true, after)
    ensures FLANNEL_LINK in before.kernel.links && |before.kernel.links[FLANNEL_LINK]| == 1
    ensures OOB_LINK in before.kernel.links && |before.kernel.links[OOB_LINK]| == 1 && EVERYTHING in before.env.gateways
    ensures var p := ReturnPath(cfg, InputsOf(cfg, before));
            && FlannelRule(p) in after.kernel.rules && OOBRule(p) in after.kernel.rules
            && HasRoute(after.kernel.routes, ReturnRoute(p))
  {
    var start, end := RunParts(cfg, before, true, after);
    var inputs := InputsOf(cfg, start);
    CompletePlanIsKnown(cfg, inputs);
    ReturnPathSettled(cfg, inputs, start.kernel);
  }

  lemma ReturnPathSettled(cfg: Config, inputs: Inputs, k: Kernel)
    requires Identity(cfg, inputs).Some? && Unblocked(SymmetricPlan(cfg, inputs))
    ensures inputs.flannel.Some? && |inputs.flannel.value| == 1 && inputs.oob.Some? && |inputs.oob.value| == 1
    ensures EVERYTHING in inputs.env.gateways
    ensures var p, after := ReturnPath(cfg, inputs), KernelAfter(Plan(cfg, inputs), k);
            && Settled(AddRule(FlannelRule(p)), after) && Settled(AddRule(OOBRule(p)), after)
            && Settled(AddRoute(ReturnRoute(p)), after)
  {
    var s := SymmetricPlan(cfg, inputs);
    SymmetricPartMeaning(cfg, inputs, k);
    var p := ReturnPath(cfg, inputs);
    assert s[0] == AddRule(FlannelRule(p)) && s[1] == AddRule(OOBRule(p)) && s[2] == AddRoute(ReturnRoute(p));
    var (vtep, gateway) := Identity(cfg, inputs).value;
    forall a | a in s ensures Settled(a, KernelAfter(Plan(cfg, inputs), k)) {
      IdentityPlanContents(cfg, inputs, vtep, gateway, a);
      PlanContents(cfg, inputs, a);
      SettledInPlan(Plan(cfg, inputs), k, a);
    }
    assert s[0] in s && s[1] in s && s[2] in s;
  }

  /** Runs only ever add: links, routes and rules that were there stay. */
  lemma {:induction false} ExecAllKeepsLinks(plan: seq<Action>, k: Kernel)
    ensures var after := KernelAfter(plan, k);
            && after.links.Keys == k.links.Keys && k.routes <= after.routes
            && (forall r | r in k.rules :: r in after.rules)
            && (forall link | link in k.links :: k.links[link] <= after.links[link])
  {
    if plan != [] {
      var front, last := plan[..|plan| - 1], plan[|plan| - 1];
      ExecAllKeepsLinks(front, k);
      if last.AddRule? {
        InsertContents(KernelAfter(front, k).rules, last.rule);
      }
    }
  }

  /** With a client for the host cluster, a completed run leaves no stale chassis annotation on the host's
      node, and every other annotation as it was. */
  lemma CompleteRunChassis(cfg: Config, before: Sys, after: Sys)
    requires Reaches(Plan(cfg, InputsOf(cfg, before)), before, true, after) && cfg.hasHostClient
    ensures HostName(cfg, before.env).Some?
    ensures var host, id := HostName(cfg, before.env).value, OvsListing.SystemID(before.env.systemIDOutput);
            && id != "" && host in after.kernel.hosts && Chassis.Settled(after.kernel.hosts[host], id)
    ensures after.kernel.hosts.Keys == before.kernel.hosts.Keys
    ensures forall h | h in before.kernel.hosts ::
              after.kernel.hosts[h].annotations - {Chassis.CHASSIS_KEY} ==
                before.kernel.hosts[h].annotations - {Chassis.CHASSIS_KEY}
  {
    var inputs := InputsOf(cfg, before);
    var plan := Plan(cfg, inputs);
    CompletePlanIsKnown(cfg, inputs);
    var host := HostName(cfg, inputs.env).value;
    var c := ChassisPlan(cfg, inputs, host);
    var h := HostPlan(cfg, inputs);
    assert c[0] in h by {
      assert h[|h| - 1] == c[0];
    }
    PlanContents(cfg, inputs, c[0]);
    SettledInPlan(plan, before.kernel, c[0]);
    HostsKeepAnnotations(plan, before.kernel);
  }

  lemma {:induction false} HostsKeepAnnotations(plan: seq<Action>, k: Kernel)
    ensures KernelAfter(plan, k).hosts.Keys == k.hosts.Keys
    ensures forall h | h in k.hosts ::
              KernelAfter(plan, k).hosts[h].annotations - {Chassis.CHASSIS_KEY} ==
                k.hosts[h].annotations - {Chassis.CHASSIS_KEY}
  {
    if plan != [] {
      HostsKeepAnnotations(plan[..|plan| - 1], k);
      ExecKeepsAnnotations(plan[|plan| - 1], KernelAfter(plan[..|plan| - 1], k));
    }
  }

  lemma ExecKeepsAnnotations(a: Action, k: Kernel)
    ensures ExecKernel(a, k).hosts.Keys == k.hosts.Keys
    ensures forall h | h in k.hosts ::
              ExecKernel(a, k).hosts[h].annotations - {Chassis.CHASSIS_KEY} ==
                k.hosts[h].annotations - {Chassis.CHASSIS_KEY}
  {
    if a.CleanChassis? && a.host in k.hosts {
      var annotations := k.hosts[a.host].annotations;
      assert annotations - {Chassis.CHASSIS_KEY} - {Chassis.CHASSIS_KEY} == annotations - {Chassis.CHASSIS_KEY};
    }
  }
}
