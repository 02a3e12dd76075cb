/** What runs promise, in the words of the outside world: every statement names the interfaces, labels,
    files, tables and numbers themselves, and none of the functions by which a run was planned. */
module Promises {
  import opened Wrappers
  import opened Text
  import opened Decimal
  import opened Net
  import opened Routing
  import opened World
  import opened PlanParts
  import opened Interference
  import opened Convergence
  import opened NetworkIdentity
  import opened Outcome
  import opened Provisioner
  import Chassis
  import Netplan
  import OvsListing

  // ------------------------------------------------------------------ the name of the host

  /** Which name the host has: the trimmed value of the one label, or of the legacy one if the first is
      absent; none if the node or both labels are missing or the chosen value is blank. */
  lemma HostNameLiterally(cfg: Config, env: Env)
    ensures cfg.dpuHostName !in env.nodes ==> HostName(cfg, env).None?
    ensures cfg.dpuHostName in env.nodes ==>
              var labels := env.nodes[cfg.dpuHostName];
              var first, legacy := "provisioning.dpu.nvidia.com/dpunode-name", "provisioning.dpu.nvidia.com/host";
              && (first in labels ==>
                    var name := TrimSpace(labels[first]);
                    HostName(cfg, env) == if name == "" then None else Some(name))
              && (first !in labels && legacy in labels ==>
                    var name := TrimSpace(labels[legacy]);
                    HostName(cfg, env) == if name == "" then None else Some(name))
              && (first !in labels && legacy !in labels ==> HostName(cfg, env).None?)
  {
    assert TrimSpace("") == "";
  }

  /** A complete run names the host by the label, whatever the legacy label says, and by the legacy label
      only if the first is absent. */
  lemma CompleteRunNames(cfg: Config, before: Sys, after: Sys)
    requires Run(cfg, before, true, after)
    ensures cfg.dpuHostName in before.env.nodes
    ensures var labels := before.env.nodes[cfg.dpuHostName];
            && ("provisioning.dpu.nvidia.com/dpunode-name" in labels ==>
                  var name := TrimSpace(labels["provisioning.dpu.nvidia.com/dpunode-name"]);
                  && name != "" && Holds(after.store, OvsID("hostname"), name)
                  && Holds(after.store, OvsID("host-k8s-nodename"), name))
            && ("provisioning.dpu.nvidia.com/dpunode-name" !in labels ==>
                  && "provisioning.dpu.nvidia.com/host" in labels
                  && var name := TrimSpace(labels["provisioning.dpu.nvidia.com/host"]);
                     && name != "" && Holds(after.store, OvsID("hostname"), name)
                     && Holds(after.store, OvsID("host-k8s-nodename"), name))
  {
    HostNameLiterally(cfg, before.env);
    CompleteRunHoldsNames(cfg, before, after);
  }

  lemma CompleteRunHoldsNames(cfg: Config, before: Sys, after: Sys)
    requires Run(cfg, before, true, after)
    ensures HostName(cfg, before.env).Some?
    ensures var host := HostName(cfg, before.env).value;
            Holds(after.store, OvsID("hostname"), host) && Holds(after.store, OvsID("host-k8s-nodename"), host)
  {
    var start, end := RunParts(cfg, before, true, after);
    var inputs := InputsOf(cfg, start);
    CompletePlanIsKnown(cfg, inputs);
    PlanActions(cfg, inputs);
    PlanWrites(cfg, inputs, Plan(cfg, inputs));
    HostTextsInPlan(cfg, inputs);
    NamesHold(cfg, TextsOf(cfg, inputs), Plan(cfg, inputs), start.store);
  }

  lemma NamesHold(cfg: Config, t: Texts, plan: seq<Action>, store: map<Location, string>)
    requires AllWrite(cfg, t, plan)
    requires SetText(NODE_NAME_ID, t.host) in plan && SetText(HOST_NAME_ID, t.host) in plan
    ensures Holds(StoreAfter(plan, store), NODE_NAME_ID, t.host) && Holds(StoreAfter(plan, store), HOST_NAME_ID, t.host)
  {
    IdentifiersDiffer();
    forall i | 0 <= i < |plan| && plan[i].SetText? && plan[i].place in [NODE_NAME_ID, HOST_NAME_ID]
      ensures plan[i].text == t.host
    {
      assert Writes(cfg, t, plan[i]);
    }
    WrittenText(plan, store, NODE_NAME_ID, t.host);
    WrittenText(plan, store, HOST_NAME_ID, t.host);
  }

  /** With no name for the host (no node, neither label, or a blank value) no run completes, and none
      changes anything. */
  lemma NamelessRunsFail(cfg: Config, before: Sys, ok: bool, after: Sys)
    requires Run(cfg, before, ok, after)
    requires cfg.dpuHostName in before.env.nodes ==>
               var labels := before.env.nodes[cfg.dpuHostName];
               if "provisioning.dpu.nvidia.com/dpunode-name" in labels
               then TrimSpace(labels["provisioning.dpu.nvidia.com/dpunode-name"]) == ""
               else "provisioning.dpu.nvidia.com/host" in labels ==>
                      TrimSpace(labels["provisioning.dpu.nvidia.com/host"]) == ""
    ensures !ok && OthersWrote(before, after)
  {
    HostNameLiterally(cfg, before.env);
    var start, end := RunParts(cfg, before, ok, after);
    BlockedAtStart(Plan(cfg, InputsOf(cfg, start)), start, ok, end);
    OthersWroteAgain(before, start, after);
  }

  lemma BlockedAtStart(plan: seq<Action>, before: Sys, ok: bool, after: Sys)
    requires plan != [] && plan[0].Fail? && Reaches(plan, before, ok, after)
    ensures !ok && after == before
  {
    forall n | 0 < n <= |plan| ensures !Unblocked(plan[..n]) {
      assert plan[..n][0] == plan[0];
    }
    assert plan[..|plan|] == plan && plan[..0] == [];
    if !ok {
      var n :| 0 <= n < |plan| && StopsAt(plan, n, before, after);
    }
  }

  // -------------------------------------------------------------- the kernel, exactly

  /** Actions on nodes and texts leave links, routes and rules alone. */
  lemma {:induction false} HostPartKernel(plan: seq<Action>, k: Kernel)
    requires forall i | 0 <= i < |plan| :: plan[i].SetText? || plan[i].CleanChassis? || Blocking(plan[i])
    ensures KernelAfter(plan, k) == k.(hosts := KernelAfter(plan, k).hosts)
  {
    if plan != [] {
      HostPartKernel(plan[..|plan| - 1], k);
    }
  }

  lemma HostPlanKernel(cfg: Config, inputs: Inputs, k: Kernel)
    ensures KernelAfter(HostPlan(cfg, inputs), k) == k.(hosts := KernelAfter(HostPlan(cfg, inputs), k).hosts)
  {
    HostPlanActions(cfg, inputs);
    var h := HostPlan(cfg, inputs);
    forall i | 0 <= i < |h| ensures h[i].SetText? || h[i].CleanChassis? || Blocking(h[i]) {
      assert h[i] in h;
    }
    HostPartKernel(h, k);
  }

  lemma DiscoveryPlanKernel(cfg: Config, inputs: Inputs, k: Kernel)
    ensures KernelAfter(DiscoveryPlan(cfg, inputs), k) == k.(hosts := KernelAfter(DiscoveryPlan(cfg, inputs), k).hosts)
  {
    DiscoveryPlanActions(cfg, inputs);
    var d := DiscoveryPlan(cfg, inputs);
    forall i | 0 <= i < |d| ensures d[i].SetText? || Blocking(d[i]) {
      assert d[i] in d;
    }
    HostPartKernel(d, k);
  }

  /** The kernel after a complete link part. */
  function LinkedKernel(cfg: Config, k: Kernel): Kernel
    requires cfg.mode.InternalIPAM?
  {
    var vtep := cfg.mode.vtep;
    k.(links := if BR_OVN in k.links && vtep !in k.links[BR_OVN]
                then k.links[BR_OVN := k.links[BR_OVN] + [vtep]] else k.links,
       up := k.up + {BR_OVN},
       routes := if Network(vtep) != cfg.vtepCIDR
                 then EnsureRoute(k.routes, Route(cfg.vtepCIDR, cfg.mode.gateway, BR_OVN, 0, 254)) else k.routes)
  }

  lemma LinkPlanKernel(cfg: Config, inputs: Inputs, vtep: IPNet, gateway: IPv4, k: Kernel)
    requires Identity(cfg, inputs) == Some((vtep, gateway)) && Unblocked(LinkPlan(cfg, inputs, vtep, gateway))
    ensures KernelAfter(LinkPlan(cfg, inputs, vtep, gateway), k) ==
            if cfg.mode.InternalIPAM? then LinkedKernel(cfg, k) else k
  {
    var link := LinkPlan(cfg, inputs, vtep, gateway);
    if link != [] {
      assert !Blocking(link[0]);
      PrintNetInjective(Network(vtep), cfg.vtepCIDR);
      if SpansSubnets(cfg, vtep) {
        ThreeActions(link, k);
      } else {
        assert link == [] + [link[0], link[1]];
        TwoMore([], link[0], link[1], k);
      }
    }
  }

  /** The kernel after a complete network part. */
  function NetworkedKernel(cfg: Config, inputs: Inputs, k: Kernel): Kernel
    requires Identity(cfg, inputs).Some? && OneAddress(inputs.flannel) && OneAddress(inputs.oob)
    requires EVERYTHING in inputs.env.gateways
  {
    var linked := if cfg.mode.InternalIPAM? then LinkedKernel(cfg, k) else k;
    var p := ReturnPath(cfg, inputs);
    linked.(routes := SymmetricRoutes(p, EnsureRoute(linked.routes, HostRoute(cfg, Identity(cfg, inputs).value.1))),
            rules := SymmetricRules(p, linked.rules))
  }

  lemma IdentityPlanKernel(cfg: Config, inputs: Inputs, k: Kernel)
    requires NetworkKnown(cfg, inputs)
    ensures KernelAfter(IdentityPlan(cfg, inputs), k) == NetworkedKernel(cfg, inputs, k)
  {
    var (vtep, gateway) := Identity(cfg, inputs).value;
    var link, s := LinkPlan(cfg, inputs, vtep, gateway), SymmetricPlan(cfg, inputs);
    var host, encap := AddRoute(HostRoute(cfg, gateway)), SetText(ENCAP_IP, PrintIP(vtep.ip));
    var conf := ConfPlan(cfg, vtep, gateway);
    assert IdentityPlan(cfg, inputs) == (link + [host, encap]) + conf + s;
    LinkPlanStarts(cfg, inputs, vtep, gateway);
    LinkPlanKernel(cfg, inputs, vtep, gateway, k);
    TwoMore(link, host, encap, k);
    KernelAfterAppend((link + [host, encap]) + conf, s, k);
    KernelAfterAppend(link + [host, encap], conf, k);
    OneAction(conf[0], KernelAfter(link + [host, encap], k));
    assert conf == [conf[0]];
    SymmetricPlanCompletes(cfg, inputs);
    SymmetricPartMeaning(cfg, inputs, KernelAfter((link + [host, encap]) + conf, k));
  }

  lemma LinkPlanStarts(cfg: Config, inputs: Inputs, vtep: IPNet, gateway: IPv4)
    requires inputs.brOVN.Some?
    ensures Unblocked(LinkPlan(cfg, inputs, vtep, gateway))
  {
  }

  lemma PlanKernel(cfg: Config, inputs: Inputs, k: Kernel)
    requires Unblocked(Plan(cfg, inputs))
    ensures NetworkKnown(cfg, inputs)
    ensures var after := KernelAfter(Plan(cfg, inputs), k);
            after == NetworkedKernel(cfg, inputs, k.(hosts := after.hosts))
  {
    PlanCompletesExactly(cfg, inputs);
    var h, d, e := HostPlan(cfg, inputs), DiscoveryPlan(cfg, inputs), IdentityPlan(cfg, inputs);
    KernelAfterAppend(h, d + e, k);
    KernelAfterAppend(d, e, KernelAfter(h, k));
    HostPlanKernel(cfg, inputs, k);
    DiscoveryPlanKernel(cfg, inputs, KernelAfter(h, k));
    IdentityPlanKernel(cfg, inputs, KernelAfter(d, KernelAfter(h, k)));
  }

  /** The address of br-ovn and the gateway a run uses: the configured ones, or those it reads. */
  ghost predicate UsedIdentity(cfg: Config, s: Sys, address: IPNet, gateway: IPv4) {
    match cfg.mode
    case InternalIPAM(vtep, gw, _, _) => address == vtep && gateway == gw
    case ExternalIPAM(discovery) =>
      && "br-ovn" in s.kernel.links && s.kernel.links["br-ovn"] == [address]
      && discovery in s.env.gateways && s.env.gateways[discovery] == gateway
  }

  /** Links, routes and rules after a complete run, exactly: with internal IPAM br-ovn is up and has its
      address; then the route to the other VTEPs if they are elsewhere, the route to the host network, and
      the return route; and the two source rules. */
  lemma CompleteRunKernel(cfg: Config, before: Sys, after: Sys, address: IPNet, gateway: IPv4)
    requires Run(cfg, before, true, after) && UsedIdentity(cfg, before, address, gateway)
    ensures "cni0" in before.kernel.links && |before.kernel.links["cni0"]| == 1
    ensures "br-comm-ch" in before.kernel.links && |before.kernel.links["br-comm-ch"]| == 1
    ensures IPNet(0, 0) in before.env.gateways
    ensures after.kernel.rules ==
            EnsureRule(EnsureRule(before.kernel.rules, Rule(31000, Network(before.kernel.links["cni0"][0]), 60)),
                       Rule(32000, IPNet(before.kernel.links["br-comm-ch"][0].ip, 32), 60))
    ensures var vteps := Route(cfg.vtepCIDR, gateway, "br-ovn", 0, 254);
            var host := Route(cfg.hostCIDR, gateway, "br-ovn", 10000, 254);
            var back := Route(cfg.vtepCIDR, before.env.gateways[IPNet(0, 0)], "br-comm-ch", 0, 60);
            var first := if cfg.mode.InternalIPAM? && Network(address) != cfg.vtepCIDR
                         then EnsureRoute(before.kernel.routes, vteps) else before.kernel.routes;
            after.kernel.routes == EnsureRoute(EnsureRoute(first, host), back)
    ensures cfg.mode.ExternalIPAM? ==> after.kernel.links == before.kernel.links && after.kernel.up == before.kernel.up
    ensures cfg.mode.InternalIPAM? ==>
              && "br-ovn" in before.kernel.links && after.kernel.up == before.kernel.up + {"br-ovn"}
              && after.kernel.links == before.kernel.links["br-ovn" :=
                   if address in before.kernel.links["br-ovn"] then before.kernel.links["br-ovn"]
                   else before.kernel.links["br-ovn"] + [address]]
  {
    var start, end := RunParts(cfg, before, true, after);
    var inputs := InputsOf(cfg, start);
    PlanKernel(cfg, inputs, start.kernel);
    IdentityIsUsed(cfg, start, address, gateway);
  }

  lemma IdentityIsUsed(cfg: Config, s: Sys, address: IPNet, gateway: IPv4)
    requires UsedIdentity(cfg, s, address, gateway)
    ensures Identity(cfg, InputsOf(cfg, s)) == Some((address, gateway))
  {
  }

  /** In particular there is a way to the host network, between subnets to the other VTEPs, and back. */
  lemma CompleteRunRoutes(cfg: Config, before: Sys, after: Sys, address: IPNet, gateway: IPv4)
    requires Run(cfg, before, true, after) && UsedIdentity(cfg, before, address, gateway)
    ensures exists r :: r in after.kernel.routes && r.table == 254 && r.network == cfg.hostCIDR
                        && r.gateway == gateway && r.device == "br-ovn"
    ensures cfg.mode.InternalIPAM? && Network(address) != cfg.vtepCIDR ==>
              exists r :: r in after.kernel.routes && r.table == 254 && r.network == cfg.vtepCIDR
                          && r.gateway == gateway && r.device == "br-ovn"
    ensures IPNet(0, 0) in before.env.gateways
    ensures exists r :: r in after.kernel.routes && r.table == 60 && r.network == cfg.vtepCIDR
                        && r.gateway == before.env.gateways[IPNet(0, 0)] && r.device == "br-comm-ch"
  {
    CompleteRunKernel(cfg, before, after, address, gateway);
    var vteps := Route(cfg.vtepCIDR, gateway, "br-ovn", 0, 254);
    var host := Route(cfg.hostCIDR, gateway, "br-ovn", 10000, 254);
    var back := Route(cfg.vtepCIDR, before.env.gateways[IPNet(0, 0)], "br-comm-ch", 0, 60);
    var first := if cfg.mode.InternalIPAM? && Network(address) != cfg.vtepCIDR
                 then EnsureRoute(before.kernel.routes, vteps) else before.kernel.routes;
    EnsuredIsThere(EnsureRoute(first, host), back);
    EnsuredIsThere(first, host);
    EnsuredIsThere(before.kernel.routes, vteps);
  }

  lemma EnsuredIsThere(routes: seq<Route>, r: Route)
    ensures routes <= EnsureRoute(routes, r)
    ensures exists q :: q in EnsureRoute(routes, r) && q.table == r.table && q.network == r.network
                        && q.gateway == r.gateway && q.device == r.device
  {
    if HasRoute(routes, r) {
      var i :| 0 <= i < |routes| && SameRoute(routes[i], r);
      assert routes[i] in routes;
    } else {
      assert r in EnsureRoute(routes, r);
    }
  }

  /** Every complete run uses some identity; with external IPAM br-ovn had exactly one address. */
  lemma CompleteRunHasIdentity(cfg: Config, before: Sys, after: Sys) returns (address: IPNet, gateway: IPv4)
    requires Run(cfg, before, true, after)
    ensures UsedIdentity(cfg, before, address, gateway)
  {
    var start, end := RunParts(cfg, before, true, after);
    CompletePlanIsKnown(cfg, InputsOf(cfg, start));
    address, gateway := Identity(cfg, InputsOf(cfg, start)).value.0, Identity(cfg, InputsOf(cfg, start)).value.1;
  }

  // ------------------------------------------------------------ what comes of it for packets

  /** The rules of a fresh system: local, main and default tables. */
  const FRESH_RULES := [Rule(0, IPNet(0, 0), 255), Rule(32766, IPNet(0, 0), 254), Rule(32767, IPNet(0, 0), 253)]

  lemma EverythingContains(ip: IPv4)
    ensures Contains(IPNet(0, 0), ip)
  {
    Pow32();
    ClearAll(ip, 32);
    ClearAll(0, 32);
  }

  lemma Pow32()
    ensures Pow2(32) == 0x1_0000_0000
  {
    assert Pow2(4) == 16;
    assert Pow2(8) == 0x100;
    assert Pow2(12) == 0x1000;
    assert Pow2(16) == 0x1_0000;
    assert Pow2(20) == 0x10_0000;
    assert Pow2(24) == 0x100_0000;
    assert Pow2(28) == 0x1000_0000;
  }

  lemma {:induction false} ClearAll(ip: nat, k: nat)
    requires ip < Pow2(k)
    ensures ClearLow(ip, k) == 0
    decreases k
  {
    if k > 0 {
      ClearAll(ip / 2, k - 1);
    }
  }

  /** On a fresh system, after a complete run, packets from the pods' network or the out-of-band address to
      the VTEP network leave by the default gateway on the out-of-band interface, whatever the main table
      says; every other packet is routed as by the fresh rules. */
  lemma CompleteRunReturnsPackets(cfg: Config, before: Sys, after: Sys, src: IPv4, dst: IPv4)
    requires Run(cfg, before, true, after) && before.kernel.rules == FRESH_RULES
    requires forall r | r in before.kernel.routes :: r.table != 60 && (r.table == 255 ==> !Contains(r.network, dst))
    ensures "cni0" in before.kernel.links && |before.kernel.links["cni0"]| == 1
    ensures "br-comm-ch" in before.kernel.links && |before.kernel.links["br-comm-ch"]| == 1
    ensures IPNet(0, 0) in before.env.gateways
    ensures var back := Route(cfg.vtepCIDR, before.env.gateways[IPNet(0, 0)], "br-comm-ch", 0, 60);
            var pods, oob := before.kernel.links["cni0"][0], before.kernel.links["br-comm-ch"][0].ip;
            Lookup(after.kernel.rules, after.kernel.routes, src, dst) ==
            if (Contains(pods, src) || src == oob) && Contains(cfg.vtepCIDR, dst) then Some(back)
            else Lookup(FRESH_RULES, after.kernel.routes, src, dst)
  {
    var address, gateway := CompleteRunHasIdentity(cfg, before, after);
    CompleteRunKernel(cfg, before, after, address, gateway);
    var pods, oob := before.kernel.links["cni0"][0], before.kernel.links["br-comm-ch"][0].ip;
    var back := Route(cfg.vtepCIDR, before.env.gateways[IPNet(0, 0)], "br-comm-ch", 0, 60);
    FreshRulesAfter(Network(pods), IPNet(oob, 32));
    NetworkMasked(pods);
    SingleContains(oob, src);
    RoutesAreKnown(before.kernel.routes, after.kernel.routes, Route(cfg.vtepCIDR, gateway, "br-ovn", 0, 254),
                   Route(cfg.hostCIDR, gateway, "br-ovn", 10000, 254), back);
    FreshSystemReturns(before.kernel.routes, after.kernel.routes, Network(pods), IPNet(oob, 32), back, src, dst);
  }

  lemma RoutesAreKnown(before: seq<Route>, after: seq<Route>, vteps: Route, host: Route, back: Route)
    requires forall r | r in before :: r.table != back.table
    requires vteps.table != back.table && host.table != back.table
    requires || after == EnsureRoute(EnsureRoute(EnsureRoute(before, vteps), host), back)
             || after == EnsureRoute(EnsureRoute(before, host), back)
    ensures back in after && forall r | r in after :: r in before || r == back || r == vteps || r == host
  {
  }

  lemma FreshSystemReturns(before: seq<Route>, routes: seq<Route>, pods: IPNet, oob: IPNet, back: Route, src: IPv4,
                           dst: IPv4)
    requires forall r | r in before :: r.table != 60 && (r.table == 255 ==> !Contains(r.network, dst))
    requires forall r | r in routes :: r in before || r == back || r.table == 254
    requires back.table == 60 && back in routes
    ensures var rules := [FRESH_RULES[0], Rule(31000, pods, 60), Rule(32000, oob, 60), FRESH_RULES[1], FRESH_RULES[2]];
            Lookup(rules, routes, src, dst) ==
            if (Contains(pods, src) || Contains(oob, src)) && Contains(back.network, dst) then Some(back)
            else Lookup(FRESH_RULES, routes, src, dst)
  {
    var rules := [FRESH_RULES[0], Rule(31000, pods, 60), Rule(32000, oob, 60), FRESH_RULES[1], FRESH_RULES[2]];
    OnlyReturnRoute(before, routes, back, dst);
    NoLocalRoute(before, routes, dst);
    EverythingContains(src);
    FiveRules(rules, routes, src, dst);
    ThreeRules(FRESH_RULES, routes, src, dst);
  }

  lemma FreshRulesAfter(pods: IPNet, oob: IPNet)
    ensures EnsureRule(EnsureRule(FRESH_RULES, Rule(31000, pods, 60)), Rule(32000, oob, 60)) ==
            [Rule(0, IPNet(0, 0), 255), Rule(31000, pods, 60), Rule(32000, oob, 60),
             Rule(32766, IPNet(0, 0), 254), Rule(32767, IPNet(0, 0), 253)]
  {
    var f, g := Rule(31000, pods, 60), Rule(32000, oob, 60);
    var l, m, d := FRESH_RULES[0], FRESH_RULES[1], FRESH_RULES[2];
    InsertBetween([l], [m, d], f);
    assert FRESH_RULES == [l] + [m, d] && f !in FRESH_RULES;
    InsertBetween([l, f], [m, d], g);
    assert [l] + [f] + [m, d] == [l, f] + [m, d] && g !in [l, f] + [m, d];
  }

  /** A rule goes behind those of lower or equal priority and before the others. */
  lemma {:induction false} InsertBetween(a: seq<Rule>, b: seq<Rule>, r: Rule)
    requires forall i | 0 <= i < |a| :: a[i].priority <= r.priority
    requires b != [] ==> b[0].priority > r.priority
    ensures InsertRule(a + b, r) == a + [r] + b
  {
    if a == [] {
      assert a + b == b;
    } else {
      assert (a + b)[1..] == a[1..] + b;
      InsertBetween(a[1..], b, r);
      assert a == [a[0]] + a[1..];
    }
  }

  lemma OnlyReturnRoute(before: seq<Route>, after: seq<Route>, back: Route, dst: IPv4)
    requires forall r | r in before :: r.table != 60
    requires back.table == 60 && back in after
    requires forall r | r in after :: r in before || r == back || r.table == 254
    ensures Best(after, 60, dst) == if Contains(back.network, dst) then Some(back) else None
  {
    BestIsBest(after, 60, dst);
    var i :| 0 <= i < |after| && after[i] == back;
    assert Contains(back.network, dst) ==> Covers(after[i], 60, dst);
  }

  lemma NoLocalRoute(before: seq<Route>, after: seq<Route>, dst: IPv4)
    requires forall r | r in before && r.table == 255 :: !Contains(r.network, dst)
    requires forall r: Route | r in after :: r in before || r.table == 60 || r.table == 254
    ensures Best(after, 255, dst).None?
  {
    BestIsBest(after, 255, dst);
  }

  lemma FiveRules(rules: seq<Rule>, routes: seq<Route>, src: IPv4, dst: IPv4)
    requires |rules| == 5
    ensures Lookup(rules, routes, src, dst) ==
            if Resolves(rules[0], routes, src, dst) then Best(routes, rules[0].table, dst)
            else if Resolves(rules[1], routes, src, dst) then Best(routes, rules[1].table, dst)
            else if Resolves(rules[2], routes, src, dst) then Best(routes, rules[2].table, dst)
            else if Resolves(rules[3], routes, src, dst) then Best(routes, rules[3].table, dst)
            else if Resolves(rules[4], routes, src, dst) then Best(routes, rules[4].table, dst)
            else None
  {
    ThreeRules(rules[2..], routes, src, dst);
    assert rules[1..][1..] == rules[2..];
  }

  lemma ThreeRules(rules: seq<Rule>, routes: seq<Route>, src: IPv4, dst: IPv4)
    requires |rules| == 3
    ensures Lookup(rules, routes, src, dst) ==
            if Resolves(rules[0], routes, src, dst) then Best(routes, rules[0].table, dst)
            else if Resolves(rules[1], routes, src, dst) then Best(routes, rules[1].table, dst)
            else if Resolves(rules[2], routes, src, dst) then Best(routes, rules[2].table, dst)
            else None
  {
    assert rules[1..][1..] == rules[2..] && rules[2..][1..] == [];
    assert Lookup([], routes, src, dst) == None;
    assert Lookup(rules[2..], routes, src, dst) ==
      if Resolves(rules[2], routes, src, dst) then Best(routes, rules[2].table, dst) else None;
  }

  // --------------------------------------------------------------- the texts, line by line

  /** The file for OVN Kubernetes. */
  function ConfLines(cfg: Config, address: IPNet, gateway: IPv4): seq<string> {
    ["[Gateway]", "next-hop=" + PrintIP(gateway), "router-subnet=" + PrintNet(Network(address))]
    + (if cfg.ovnNamespace.Some? then ["", "[kubernetes]", "ovn-config-namespace=" + cfg.ovnNamespace.value] else [])
    + (if cfg.lease.Some?
       then ["", "[ovnkubenode]", "dpu-node-lease-renew-interval=" + Itoa(cfg.lease.value.0),
             "dpu-node-lease-duration=" + Itoa(cfg.lease.value.1)]
       else [])
  }

  lemma {:induction false} UnlinesAppend(a: seq<string>, b: seq<string>)
    ensures OvsListing.Unlines(a + b) == OvsListing.Unlines(a) + OvsListing.Unlines(b)
  {
    if a == [] {
      assert a + b == b;
    } else {
      assert (a + b)[1..] == a[1..] + b;
      UnlinesAppend(a[1..], b);
    }
  }

  lemma OneLine(a: string)
    ensures OvsListing.Unlines([a]) == a + "\n"
  {
    assert [a][1..] == [];
  }

  lemma ThreeLines(a: string, b: string, c: string)
    ensures OvsListing.Unlines([a, b, c]) == (a + "\n") + (b + "\n") + (c + "\n")
  {
    OneLine(a);
    OneLine(b);
    OneLine(c);
    assert [a, b, c] == [a] + [b] + [c];
    UnlinesAppend([a] + [b], [c]);
    UnlinesAppend([a], [b]);
  }

  lemma GatewayLines(cfg: Config, address: IPNet, gateway: IPv4)
    ensures var hop, subnet := "next-hop=" + PrintIP(gateway), "router-subnet=" + PrintNet(Network(address));
            OvsListing.Unlines(["[Gateway]", hop, subnet]) == "[Gateway]\n" + (hop + "\n") + (subnet + "\n")
  {
    ThreeLines("[Gateway]", "next-hop=" + PrintIP(gateway), "router-subnet=" + PrintNet(Network(address)));
    assert "[Gateway]" + "\n" == "[Gateway]\n";
  }

  lemma NamespaceLines(namespace: string)
    ensures OvsListing.Unlines(["", "[kubernetes]", "ovn-config-namespace=" + namespace]) ==
            "\n[kubernetes]\n" + ("ovn-config-namespace=" + namespace + "\n")
  {
    ThreeLines("", "[kubernetes]", "ovn-config-namespace=" + namespace);
    assert ("" + "\n") + ("[kubernetes]" + "\n") == "\n[kubernetes]\n";
  }

  lemma LeaseLines(renew: string, duration: string)
    ensures OvsListing.Unlines(["", "[ovnkubenode]", renew, duration]) ==
            "\n[ovnkubenode]\n" + (renew + "\n") + (duration + "\n")
  {
    ThreeLines("", "[ovnkubenode]", renew);
    OneLine(duration);
    assert ["", "[ovnkubenode]", renew, duration] == ["", "[ovnkubenode]", renew] + [duration];
    UnlinesAppend(["", "[ovnkubenode]", renew], [duration]);
    assert ("" + "\n") + ("[ovnkubenode]" + "\n") == "\n[ovnkubenode]\n";
  }

  lemma ConfTextIsLines(cfg: Config, address: IPNet, gateway: IPv4)
    ensures ConfText(cfg, address, gateway) == OvsListing.Unlines(ConfLines(cfg, address, gateway))
  {
    var a := ["[Gateway]", "next-hop=" + PrintIP(gateway), "router-subnet=" + PrintNet(Network(address))];
    var b := if cfg.ovnNamespace.Some?
             then ["", "[kubernetes]", "ovn-config-namespace=" + cfg.ovnNamespace.value] else [];
    var c := if cfg.lease.Some?
             then ["", "[ovnkubenode]", "dpu-node-lease-renew-interval=" + Itoa(cfg.lease.value.0),
                   "dpu-node-lease-duration=" + Itoa(cfg.lease.value.1)]
             else [];
    UnlinesAppend(a + b, c);
    UnlinesAppend(a, b);
    GatewayLines(cfg, address, gateway);
    if cfg.ovnNamespace.Some? {
      NamespaceLines(cfg.ovnNamespace.value);
    }
    if cfg.lease.Some? {
      LeaseLines("dpu-node-lease-renew-interval=" + Itoa(cfg.lease.value.0),
                 "dpu-node-lease-duration=" + Itoa(cfg.lease.value.1));
    }
  }

  lemma BootstrapTextIsLines(server: string, host: string)
    ensures BootstrapText(server, host) == OvsListing.Unlines(["server: " + server, "as: system:node:" + host])
  {
    OneLine("server: " + server);
    OneLine("as: system:node:" + host);
    assert ["server: " + server, "as: system:node:" + host] == ["server: " + server] + ["as: system:node:" + host];
    UnlinesAppend(["server: " + server], ["as: system:node:" + host]);
  }

  function NodeNamePath(cfg: Config): string {
    if cfg.nodeNamePath == "" then "/var/run/ovn-kubernetes/host-node-name" else cfg.nodeNamePath
  }

  function BootstrapPath(cfg: Config): string {
    if cfg.bootstrapPath == "" then "/host-kubernetes/kubelet.conf" else cfg.bootstrapPath
  }

  /** After a complete run the encapsulation address and the file for OVN Kubernetes tell the address of
      br-ovn and the gateway; with an API server the node's name and the kubeconfig are written; with
      external IPAM the netplan file is. */
  lemma CompleteRunFiles(cfg: Config, before: Sys, after: Sys, address: IPNet, gateway: IPv4, host: string)
    requires Run(cfg, before, true, after) && UsedIdentity(cfg, before, address, gateway)
    requires Holds(after.store, OvsID("hostname"), host)
    requires "/etc/openvswitch/ovn_k8s.conf" !in [NodeNamePath(cfg), BootstrapPath(cfg)]
    ensures Holds(after.store, OvsID("ovn-encap-ip"), PrintIP(address.ip))
    ensures Holds(after.store, File("/etc/openvswitch/ovn_k8s.conf"),
                  OvsListing.Unlines(ConfLines(cfg, address, gateway)))
    ensures var server := TrimSpace(cfg.k8sAPIServer); var netplan := "/etc/netplan/80-br-ovn.yaml";
            NodeNamePath(cfg) != BootstrapPath(cfg) && netplan !in [NodeNamePath(cfg), BootstrapPath(cfg)] ==>
              && (server != "" ==>
                    && Holds(after.store, File(NodeNamePath(cfg)), host + "\n")
                    && Holds(after.store, File(BootstrapPath(cfg)),
                             OvsListing.Unlines(["server: " + server, "as: system:node:" + host])))
              && (cfg.mode.ExternalIPAM? ==> Holds(after.store, File(netplan), NETPLAN_TEXT))
  {
    CompleteRunTexts(cfg, before, after);
    IdentityIsUsed(cfg, before, address, gateway);
    ConfTextIsLines(cfg, address, gateway);
    BootstrapTextIsLines(TrimSpace(cfg.k8sAPIServer), host);
  }

  // ------------------------------------------------------------------ nothing else, ever

  lemma {:induction false} RulesOrigin(plan: seq<Action>, k: Kernel, r: Rule)
    requires r in KernelAfter(plan, k).rules
    ensures r in k.rules || AddRule(r) in plan
  {
    if plan != [] {
      var front, last := plan[..|plan| - 1], plan[|plan| - 1];
      var middle := KernelAfter(front, k);
      if last.AddRule? {
        InsertContents(middle.rules, last.rule);
      }
      if r in middle.rules {
        RulesOrigin(front, k, r);
      } else {
        assert last == AddRule(r) && last in plan;
      }
    }
  }

  lemma ReachesRules(plan: seq<Action>, before: Sys, ok: bool, after: Sys, r: Rule)
    requires Reaches(plan, before, ok, after) && r in after.kernel.rules
    ensures r in before.kernel.rules || AddRule(r) in plan
  {
    if ok {
      RulesOrigin(plan, before.kernel, r);
    } else {
      var n :| 0 <= n < |plan| && StopsAt(plan, n, before, after);
      var middle, a := ExecAll(plan[..n], before), plan[n];
      if a.AddRule? {
        InsertContents(middle.kernel.rules, a.rule);
      }
      if r in middle.kernel.rules {
        RulesOrigin(plan[..n], before.kernel, r);
        assert AddRule(r) in plan[..n] ==> AddRule(r) in plan;
      } else {
        assert plan[n] == AddRule(r) && plan[n] in plan;
      }
    }
  }

  lemma AddRuleInPlan(cfg: Config, inputs: Inputs, r: Rule)
    requires AddRule(r) in Plan(cfg, inputs)
    ensures || (OneAddress(inputs.flannel) && r == Rule(31000, Network(inputs.flannel.value[0]), 60))
            || (OneAddress(inputs.oob) && r == Rule(32000, IPNet(inputs.oob.value[0].ip, 32), 60))
  {
    var a := AddRule(r);
    PlanContents(cfg, inputs, a);
    HostPlanActions(cfg, inputs);
    DiscoveryPlanActions(cfg, inputs);
    var (vtep, gateway) := Identity(cfg, inputs).value;
    IdentityPlanContents(cfg, inputs, vtep, gateway, a);
    LinkPlanActions(cfg, inputs, vtep, gateway);
    assert a in OOBPlan(cfg, inputs) || OneAddress(inputs.flannel);
  }

  lemma AddRouteInPlan(cfg: Config, inputs: Inputs, r: Route)
    requires AddRoute(r) in Plan(cfg, inputs)
    ensures Identity(cfg, inputs).Some?
    ensures var gateway := Identity(cfg, inputs).value.1;
            || (cfg.mode.InternalIPAM? && r == Route(cfg.vtepCIDR, gateway, "br-ovn", 0, 254))
            || r == Route(cfg.hostCIDR, gateway, "br-ovn", 10000, 254)
            || (IPNet(0, 0) in inputs.env.gateways
                && r == Route(cfg.vtepCIDR, inputs.env.gateways[IPNet(0, 0)], "br-comm-ch", 0, 60))
  {
    var a := AddRoute(r);
    PlanContents(cfg, inputs, a);
    HostPlanActions(cfg, inputs);
    DiscoveryPlanActions(cfg, inputs);
    var (vtep, gateway) := Identity(cfg, inputs).value;
    IdentityPlanContents(cfg, inputs, vtep, gateway, a);
    LinkPlanActions(cfg, inputs, vtep, gateway);
    if a in SymmetricPlan(cfg, inputs) {
      assert a in OOBPlan(cfg, inputs);
    }
  }

  /** Whatever a run adds, complete or stopped, is one of these: routes to the other VTEPs and the host
      network by the gateway it uses, the return route by the default gateway, and the two source rules. */
  lemma RunAddsOnly(cfg: Config, before: Sys, ok: bool, after: Sys)
    requires Run(cfg, before, ok, after)
    ensures forall r | r in after.kernel.routes && r !in before.kernel.routes ::
              || (r.device == "br-ovn" && r.table == 254
                  && (exists address :: UsedIdentity(cfg, before, address, r.gateway))
                  && (|| (r.network == cfg.hostCIDR && r.metric == 10000)
                      || (cfg.mode.InternalIPAM? && r.network == cfg.vtepCIDR && r.metric == 0)))
              || (IPNet(0, 0) in before.env.gateways
                  && r == Route(cfg.vtepCIDR, before.env.gateways[IPNet(0, 0)], "br-comm-ch", 0, 60))
    ensures forall r | r in after.kernel.rules && r !in before.kernel.rules ::
              || ("cni0" in before.kernel.links && |before.kernel.links["cni0"]| == 1
                  && r == Rule(31000, Network(before.kernel.links["cni0"][0]), 60))
              || ("br-comm-ch" in before.kernel.links && |before.kernel.links["br-comm-ch"]| == 1
                  && r == Rule(32000, IPNet(before.kernel.links["br-comm-ch"][0].ip, 32), 60))
    ensures after.env == before.env && after.servers == before.servers
  {
    var start, end := RunParts(cfg, before, ok, after);
    var inputs := InputsOf(cfg, start);
    var plan := Plan(cfg, inputs);
    forall r | r in after.kernel.rules && r !in before.kernel.rules ensures AddRule(r) in plan {
      ReachesRules(plan, start, ok, end, r);
    }
    forall r | r in after.kernel.routes && r !in before.kernel.routes ensures AddRoute(r) in plan {
      ReachesOrigin(plan, start, ok, end, CONF_FILE, r);
    }
    forall r | AddRule(r) in plan
      ensures || (OneAddress(inputs.flannel) && r == Rule(31000, Network(inputs.flannel.value[0]), 60))
              || (OneAddress(inputs.oob) && r == Rule(32000, IPNet(inputs.oob.value[0].ip, 32), 60))
    {
      AddRuleInPlan(cfg, inputs, r);
    }
    forall r | AddRoute(r) in plan
      ensures || (r.device == "br-ovn" && r.table == 254
                  && (exists address :: UsedIdentity(cfg, before, address, r.gateway))
                  && (|| (r.network == cfg.hostCIDR && r.metric == 10000)
                      || (cfg.mode.InternalIPAM? && r.network == cfg.vtepCIDR && r.metric == 0)))
              || (IPNet(0, 0) in before.env.gateways
                  && r == Route(cfg.vtepCIDR, before.env.gateways[IPNet(0, 0)], "br-comm-ch", 0, 60))
    {
      AddRouteInPlan(cfg, inputs, r);
      var (address, gateway) := Identity(cfg, inputs).value;
      assert UsedIdentity(cfg, before, address, gateway);
    }
    KeepsServers(plan, start, ok, end);
  }

  lemma KeepsServers(plan: seq<Action>, before: Sys, ok: bool, after: Sys)
    requires Reaches(plan, before, ok, after)
    ensures after.env == before.env && after.servers == before.servers
  {
    if !ok {
      var n :| 0 <= n < |plan| && StopsAt(plan, n, before, after);
    }
  }

  /** The texts that belong to a run. */
  ghost predicate RunText(cfg: Config, s: Sys, place: Location, text: string) {
    || (HostName(cfg, s.env).Some? && HostText(cfg, HostName(cfg, s.env).value, place, text))
    || (cfg.mode.ExternalIPAM? && place == File("/etc/netplan/80-br-ovn.yaml") && text == NETPLAN_TEXT)
    || (exists address, gateway ::
          UsedIdentity(cfg, s, address, gateway) && IdentityText(cfg, address, gateway, place, text))
  }

  predicate HostText(cfg: Config, host: string, place: Location, text: string) {
    || (place in [OvsID("hostname"), OvsID("host-k8s-nodename")] && text == host)
    || (TrimSpace(cfg.k8sAPIServer) != ""
        && (|| (place == File(NodeNamePath(cfg)) && text == host + "\n")
            || (place == File(BootstrapPath(cfg)) && text == BootstrapText(TrimSpace(cfg.k8sAPIServer), host))))
  }

  predicate IdentityText(cfg: Config, address: IPNet, gateway: IPv4, place: Location, text: string) {
    || (place == OvsID("ovn-encap-ip") && text == PrintIP(address.ip))
    || (place == File("/etc/openvswitch/ovn_k8s.conf") && text == ConfText(cfg, address, gateway))
  }

  lemma OfHostText(cfg: Config, host: string, a: Action)
    requires OfHost(cfg, host, a) && a.SetText?
    ensures HostText(cfg, host, a.place, a.text)
  {
  }

  lemma OfIdentityText(cfg: Config, address: IPNet, gateway: IPv4, a: Action)
    requires OfIdentity(cfg, address, gateway, a) && a.SetText?
    ensures IdentityText(cfg, address, gateway, a.place, a.text)
  {
  }

  lemma PermittedText(cfg: Config, s: Sys, a: Action)
    requires Permitted(cfg, InputsOf(cfg, s), a) && a.SetText?
    ensures RunText(cfg, s, a.place, a.text)
  {
    var inputs := InputsOf(cfg, s);
    var host, identity := HostName(cfg, inputs.env), Identity(cfg, inputs);
    if host.Some? && OfHost(cfg, host.value, a) {
      OfHostText(cfg, host.value, a);
    } else if identity.Some? && OfIdentity(cfg, identity.value.0, identity.value.1, a) {
      OfIdentityText(cfg, identity.value.0, identity.value.1, a);
      assert UsedIdentity(cfg, s, identity.value.0, identity.value.1);
    }
  }

  /** The texts a run may change, complete or stopped: these places and no others, and each identifier
      only to its text, each file only to a part of its text. */
  lemma RunWritesOnly(cfg: Config, before: Sys, ok: bool, after: Sys, place: Location) returns (text: string)
    requires Run(cfg, before, ok, after) && Changed(before, after, place)
    ensures RunText(cfg, before, place, text) && after.store[place] <= text
    ensures place.OvsID? ==> after.store[place] == text
  {
    var start, end := RunParts(cfg, before, ok, after);
    var plan := Plan(cfg, InputsOf(cfg, start));
    ReachesOrigin(plan, start, ok, end, place, Route(cfg.vtepCIDR, 0, "", 0, 0));
    PlanActions(cfg, InputsOf(cfg, start));
    text := WrittenPermitted(cfg, start, plan, place, after.store[place]);
    SameRunText(cfg, start, before, place, text);
  }

  lemma WrittenPermitted(cfg: Config, s: Sys, plan: seq<Action>, place: Location, part: string) returns (text: string)
    requires WrittenBy(plan, place, part) && AllPermitted(cfg, InputsOf(cfg, s), plan)
    ensures RunText(cfg, s, place, text) && part <= text && (place.OvsID? ==> part == text)
  {
    var i :| 0 <= i < |plan| && plan[i].SetText? && plan[i].place == place && part <= plan[i].text
             && (place.OvsID? ==> part == plan[i].text);
    text := plan[i].text;
    PermittedText(cfg, s, plan[i]);
  }

  lemma SameRunText(cfg: Config, s: Sys, t: Sys, place: Location, text: string)
    requires RunText(cfg, s, place, text) && s.env == t.env && s.kernel.links == t.kernel.links
    ensures RunText(cfg, t, place, text)
  {
    if address: IPNet, gateway: IPv4 :|
      UsedIdentity(cfg, s, address, gateway) && IdentityText(cfg, address, gateway, place, text)
    {
      assert UsedIdentity(cfg, t, address, gateway);
    }
  }

  // ------------------------------------------------------------- the chassis annotation

  /** The node without its chassis annotation, one version later. */
  predicate Cleaned(before: Chassis.HostNode, after: Chassis.HostNode) {
    after == before.(annotations := before.annotations - {"k8s.ovn.org/node-chassis-id"}, version := before.version + 1)
  }

  predicate Stale(n: Chassis.HostNode, id: string) {
    && "k8s.ovn.org/node-chassis-id" in n.annotations
    && TrimSpace(n.annotations["k8s.ovn.org/node-chassis-id"]) !in ["", id]
  }

  lemma StaleIsNeeded(n: Chassis.HostNode, id: string)
    ensures Chassis.NeedsCleanup(n, id) <==> Stale(n, id)
    ensures Cleaned(n, Chassis.WithoutChassis(n))
  {
  }

  /** What a run may do to nodes. */
  ghost predicate NodesCleaned(before: map<string, Chassis.HostNode>, after: map<string, Chassis.HostNode>,
                               host: string, id: string) {
    && after.Keys == before.Keys
    && forall h | h in before ::
         after[h] == before[h] || (h == host && Stale(before[h], id) && Cleaned(before[h], after[h]))
  }

  /** A complete run that nobody disturbs: a stale chassis annotation (neither blank nor the local
      identifier, once trimmed) is gone from the host's node and nothing else of any node has changed;
      without a client for the host cluster no node has. */
  lemma CompleteRunCleansNode(cfg: Config, before: Sys, after: Sys)
    requires Reaches(Plan(cfg, InputsOf(cfg, before)), before, true, after)
    ensures HostName(cfg, before.env).Some?
    ensures !cfg.hasHostClient ==> after.kernel.hosts == before.kernel.hosts
    ensures cfg.hasHostClient ==>
              var host, id := HostName(cfg, before.env).value, OvsListing.SystemID(before.env.systemIDOutput);
              && id != "" && host in before.kernel.hosts && host in after.kernel.hosts
              && !Stale(after.kernel.hosts[host], id)
              && NodesCleaned(before.kernel.hosts, after.kernel.hosts, host, id)
  {
    var inputs := InputsOf(cfg, before);
    var plan := Plan(cfg, inputs);
    CompletePlanIsKnown(cfg, inputs);
    var host, id := HostName(cfg, before.env).value, OvsListing.SystemID(before.env.systemIDOutput);
    PlanCleansOnly(cfg, inputs, host);
    NodesOrigin(plan, before.kernel, host, id);
    if cfg.hasHostClient {
      CompleteRunChassis(cfg, before, after);
      StaleIsNeeded(after.kernel.hosts[host], id);
    } else {
      NoCleaningNoChange(plan, before.kernel);
    }
  }

  lemma PlanCleansOnly(cfg: Config, inputs: Inputs, host: string)
    requires HostName(cfg, inputs.env) == Some(host)
    ensures var plan, id := Plan(cfg, inputs), OvsListing.SystemID(inputs.env.systemIDOutput);
            forall i | 0 <= i < |plan| && plan[i].CleanChassis? ::
              cfg.hasHostClient && plan[i] == CleanChassis(host, id)
  {
    var plan, id := Plan(cfg, inputs), OvsListing.SystemID(inputs.env.systemIDOutput);
    forall i | 0 <= i < |plan| && plan[i].CleanChassis?
      ensures cfg.hasHostClient && plan[i] == CleanChassis(host, id)
    {
      CleaningInPlan(cfg, inputs, host, plan[i]);
    }
  }

  lemma CleaningInPlan(cfg: Config, inputs: Inputs, host: string, a: Action)
    requires HostName(cfg, inputs.env) == Some(host) && a in Plan(cfg, inputs) && a.CleanChassis?
    ensures cfg.hasHostClient && a == CleanChassis(host, OvsListing.SystemID(inputs.env.systemIDOutput))
  {
    PlanContents(cfg, inputs, a);
    DiscoveryPlanActions(cfg, inputs);
    IdentityPlanTouchesNoNode(cfg, inputs);
    var n, b, c := NamePlan(host), BootstrapPlan(cfg, host), ChassisPlan(cfg, inputs, host);
    assert a in n + (b + c);
    assert a in c;
  }

  lemma {:induction false} NodesOrigin(plan: seq<Action>, k: Kernel, host: string, id: string)
    requires forall i | 0 <= i < |plan| && plan[i].CleanChassis? :: plan[i] == CleanChassis(host, id)
    ensures NodesCleaned(k.hosts, KernelAfter(plan, k).hosts, host, id)
  {
    if plan != [] {
      var front, last := plan[..|plan| - 1], plan[|plan| - 1];
      NodesOrigin(front, k, host, id);
      var middle := KernelAfter(front, k);
      if last.CleanChassis? && host in k.hosts {
        CleanOnce(k.hosts[host], middle.hosts[host], id);
        StaleIsNeeded(middle.hosts[host], id);
      }
    }
  }

  /** A node that was cleaned is not stale any more. */
  lemma CleanOnce(before: Chassis.HostNode, after: Chassis.HostNode, id: string)
    ensures Cleaned(before, after) ==> !Stale(after, id)
  {
  }

  lemma {:induction false} NoCleaningNoChange(plan: seq<Action>, k: Kernel)
    requires forall i | 0 <= i < |plan| :: !plan[i].CleanChassis?
    ensures KernelAfter(plan, k).hosts == k.hosts
  {
    if plan != [] {
      NoCleaningNoChange(plan[..|plan| - 1], k);
    }
  }

  // ------------------------------------------------------------------------ the DHCP server

  /** The command line that serves an address to the host. */
  function DhcpCommand(vtep: IPNet, gateway: IPv4, pfIP: IPv4, ovnMTU: int, vtepCIDR: IPNet, mac: string): seq<string> {
    ["--keep-in-foreground", "--port=0", "--log-facility=-", "--interface=br-ovn", "--dhcp-option=option:router",
     "--dhcp-option=option:mtu," + Itoa(ovnMTU + 60),
     "--dhcp-range=" + (PrintIP(Network(vtep).ip) + ",static"),
     "--dhcp-host=" + (mac + "," + PrintIP(pfIP))]
    + if Network(vtep) == vtepCIDR then []
      else ["--dhcp-option=option:classless-static-route," + (PrintNet(vtepCIDR) + "," + PrintIP(gateway))]
  }

  lemma DhcpArgsLiterally(cfg: Config, env: Env)
    requires cfg.mode.InternalIPAM?
    ensures DhcpArgs(cfg, env) ==
            var m := cfg.mode;
            if env.pfMAC.None? || m.ovnMTU == 0 || m.ovnMTU > 9156 then None
            else Some(DhcpCommand(m.vtep, m.gateway, m.pfIP, m.ovnMTU, cfg.vtepCIDR, env.pfMAC.value))
  {
    PrintNetInjective(Network(cfg.mode.vtep), cfg.vtepCIDR);
    assert "--interface=" + BR_OVN == "--interface=br-ovn";
  }

  /** A successful RunOnce is a complete run, after which, with internal IPAM, a server is running: the one
      it started, with this command line, or the one remembered from before. With external IPAM none is
      started. */
  lemma RunOnceServes(cfg: Config, before: Sys, command: Option<seq<string>>, after: Sys, command': Option<seq<string>>)
    requires RanOnce(cfg, before, command, true, after, command')
    ensures Run(cfg, before, true, after.(servers := before.servers))
    ensures cfg.mode.ExternalIPAM? ==> command' == command && after.servers == before.servers
    ensures cfg.mode.InternalIPAM? ==> command'.Some?
    ensures cfg.mode.InternalIPAM? && command.Some? ==> command' == command && after.servers == before.servers
    ensures cfg.mode.InternalIPAM? && command.None? ==>
              && after.servers == before.servers + [command'.value]
              && before.env.pfMAC.Some? && cfg.mode.ovnMTU != 0 && cfg.mode.ovnMTU <= 9156
              && var m := cfg.mode;
                 command'.value ==
                 DhcpCommand(m.vtep, m.gateway, m.pfIP, m.ovnMTU, cfg.vtepCIDR, before.env.pfMAC.value)
  {
    var configured, middle :|
      && Run(cfg, before, configured, middle)
      && if configured && cfg.mode.InternalIPAM? then Starts(cfg, middle, command, true, after, command')
         else true == configured && after == middle && command' == command;
    RunAddsOnly(cfg, before, configured, middle);
    assert after.(servers := before.servers) == middle;
    if cfg.mode.InternalIPAM? {
      DhcpArgsLiterally(cfg, before.env);
    }
  }

  /** A RunOnce that fails starts nothing. */
  lemma FailedRunOnceStartsNothing(cfg: Config, before: Sys, command: Option<seq<string>>, after: Sys,
                                   command': Option<seq<string>>)
    requires RanOnce(cfg, before, command, false, after, command')
    ensures after.servers == before.servers && command' == command
  {
    var configured, middle :|
      && Run(cfg, before, configured, middle)
      && if configured && cfg.mode.InternalIPAM? then Starts(cfg, middle, command, false, after, command')
         else false == configured && after == middle && command' == command;
    RunAddsOnly(cfg, before, configured, middle);
  }

  // --------------------------------------------------------------------------- the order

  /** A run of two parts stopped in the first, or completed it and went on with the second. */
  lemma ReachesSplit(p: seq<Action>, q: seq<Action>, before: Sys, ok: bool, after: Sys)
    requires Reaches(p + q, before, ok, after)
    ensures || (!ok && Reaches(p, before, false, after))
            || (Reaches(p, before, true, ExecAll(p, before)) && Reaches(q, ExecAll(p, before), ok, after))
            || (!ok && q == [] && Reaches(p, before, true, ExecAll(p, before)))
  {
    if ok {
      UnblockedAppend(p, q);
      ExecAllAppend(p, q, before);
    } else {
      var n :| 0 <= n < |p + q| && StopsAt(p + q, n, before, after);
      if n < |p| {
        assert (p + q)[..n] == p[..n] && (p + q)[n] == p[n];
        assert StopsAt(p, n, before, after);
      } else {
        var m := n - |p|;
        assert (p + q)[..n] == p + q[..m] && (p + q)[n] == q[m];
        UnblockedAppend(p, q[..m]);
        ExecAllAppend(p, q[..m], before);
        assert StopsAt(q, m, ExecAll(p, before), after);
      }
    }
  }

  lemma HostPartStops(plan: seq<Action>, before: Sys, after: Sys)
    requires Reaches(plan, before, false, after)
    requires forall i | 0 <= i < |plan| :: plan[i].SetText? || plan[i].CleanChassis? || Blocking(plan[i])
    ensures after.kernel == before.kernel.(hosts := after.kernel.hosts)
  {
    var n :| 0 <= n < |plan| && StopsAt(plan, n, before, after);
    HostPartKernel(plan[..n], before.kernel);
  }

  lemma HostPlanStops(cfg: Config, inputs: Inputs, before: Sys, after: Sys)
    requires Reaches(HostPlan(cfg, inputs), before, false, after) && SeparatePaths(cfg)
    ensures after.kernel == before.kernel.(hosts := after.kernel.hosts)
    ensures !Changed(before, after, ENCAP_IP) && !Changed(before, after, CONF_FILE)
  {
    HostPlanActions(cfg, inputs);
    var h := HostPlan(cfg, inputs);
    forall i | 0 <= i < |h|
      ensures h[i].SetText? || h[i].CleanChassis? || Blocking(h[i])
      ensures h[i].SetText? ==> h[i].place != ENCAP_IP && h[i].place != CONF_FILE
    {
      assert h[i] in h;
      IdentifiersDiffer();
    }
    HostPartStops(h, before, after);
    ReachesOrigin(h, before, false, after, ENCAP_IP, Route(cfg.vtepCIDR, 0, "", 0, 0));
    ReachesOrigin(h, before, false, after, CONF_FILE, Route(cfg.vtepCIDR, 0, "", 0, 0));
  }

  /** The chassis annotation is seen to first: without a system identifier, or without the host's node, a
      run with a client for the host cluster never gets to the network. */
  lemma ChassisComesFirst(cfg: Config, before: Sys, ok: bool, after: Sys)
    requires Run(cfg, before, ok, after) && cfg.hasHostClient && SeparatePaths(cfg)
    requires || OvsListing.SystemID(before.env.systemIDOutput) == ""
             || (HostName(cfg, before.env).Some? && HostName(cfg, before.env).value !in before.kernel.hosts)
    ensures !ok && after.kernel == before.kernel.(hosts := after.kernel.hosts)
    ensures !Changed(before, after, OvsID("ovn-encap-ip"))
    ensures !Changed(before, after, File("/etc/openvswitch/ovn_k8s.conf"))
  {
    var start, end := RunParts(cfg, before, ok, after);
    var inputs := InputsOf(cfg, start);
    HostPlanCompletes(cfg, inputs);
    ReachesSplit(HostPlan(cfg, inputs), NetworkPlan(cfg, inputs), start, ok, end);
    HostPlanStops(cfg, inputs, start, end);
  }

  /** Everything of a plan before the return path. */
  function BeforeReturnPath(cfg: Config, inputs: Inputs): seq<Action>
    requires Identity(cfg, inputs).Some?
  {
    var (vtep, gateway) := Identity(cfg, inputs).value;
    HostPlan(cfg, inputs) + (DiscoveryPlan(cfg, inputs)
                             + (ConnectivityPlan(cfg, inputs, vtep, gateway) + ConfPlan(cfg, vtep, gateway)))
  }

  lemma PlanEndsWithReturnPath(cfg: Config, inputs: Inputs)
    requires Identity(cfg, inputs).Some?
    ensures Plan(cfg, inputs) == BeforeReturnPath(cfg, inputs) + SymmetricPlan(cfg, inputs)
  {
    var (vtep, gateway) := Identity(cfg, inputs).value;
    Reassociate(HostPlan(cfg, inputs), DiscoveryPlan(cfg, inputs), ConnectivityPlan(cfg, inputs, vtep, gateway),
                ConfPlan(cfg, vtep, gateway), SymmetricPlan(cfg, inputs));
  }

  lemma Reassociate(h: seq<Action>, d: seq<Action>, c: seq<Action>, f: seq<Action>, s: seq<Action>)
    ensures h + (d + (c + f + s)) == h + (d + (c + f)) + s
  {
  }

  lemma NoRuleBefore(cfg: Config, inputs: Inputs, r: Rule)
    requires Identity(cfg, inputs).Some?
    ensures AddRule(r) !in BeforeReturnPath(cfg, inputs)
  {
    var (vtep, gateway) := Identity(cfg, inputs).value;
    HostPlanActions(cfg, inputs);
    DiscoveryPlanActions(cfg, inputs);
    LinkPlanActions(cfg, inputs, vtep, gateway);
    NotInFour(HostPlan(cfg, inputs), DiscoveryPlan(cfg, inputs), LinkPlan(cfg, inputs, vtep, gateway),
              [AddRoute(HostRoute(cfg, gateway)), SetText(OvsID("ovn-encap-ip"), PrintIP(vtep.ip))],
              ConfPlan(cfg, vtep, gateway), AddRule(r));
  }

  lemma NotInFour(h: seq<Action>, d: seq<Action>, link: seq<Action>, rest: seq<Action>, f: seq<Action>, a: Action)
    requires a !in h && a !in d && a !in link && a !in rest && a !in f
    ensures a !in h + (d + ((link + rest) + f))
  {
  }

  /** The return path comes last: when a run has added a source rule, all else of that run is in place. */
  lemma RulesComeLast(cfg: Config, before: Sys, ok: bool, after: Sys, r: Rule)
    requires Run(cfg, before, ok, after) && r in after.kernel.rules && r !in before.kernel.rules
    requires SeparatePaths(cfg)
    ensures exists address, gateway ::
              && UsedIdentity(cfg, before, address, gateway)
              && Holds(after.store, OvsID("ovn-encap-ip"), PrintIP(address.ip))
              && Holds(after.store, File("/etc/openvswitch/ovn_k8s.conf"), ConfText(cfg, address, gateway))
              && HasRoute(after.kernel.routes, Route(cfg.hostCIDR, gateway, "br-ovn", 10000, 254))
  {
    var start, end := RunParts(cfg, before, ok, after);
    var inputs := InputsOf(cfg, start);
    ReachesRules(Plan(cfg, inputs), start, ok, end, r);
    RuleNeedsIdentity(cfg, inputs, r);
    var (address, gateway) := Identity(cfg, inputs).value;
    var p, q := BeforeReturnPath(cfg, inputs), SymmetricPlan(cfg, inputs);
    PlanEndsWithReturnPath(cfg, inputs);
    ReachesSplit(p, q, start, ok, end);
    NoRuleBefore(cfg, inputs, r);
    if !ok && Reaches(p, start, false, end) {
      ReachesRules(p, start, false, end, r);
      assert false;
    }
    if q == [] {
      assert false;
    }
    AfterReturnPathStarts(cfg, inputs, start, ok, end);
    assert UsedIdentity(cfg, before, address, gateway);
  }

  lemma AfterReturnPathStarts(cfg: Config, inputs: Inputs, start: Sys, ok: bool, end: Sys)
    requires Identity(cfg, inputs).Some? && SeparatePaths(cfg)
    requires Reaches(SymmetricPlan(cfg, inputs), ExecAll(BeforeReturnPath(cfg, inputs), start), ok, end)
    ensures var (address, gateway) := Identity(cfg, inputs).value;
            && Holds(end.store, ENCAP_IP, PrintIP(address.ip))
            && Holds(end.store, CONF_FILE, ConfText(cfg, address, gateway))
            && HasRoute(end.kernel.routes, HostRoute(cfg, gateway))
  {
    var (address, gateway) := Identity(cfg, inputs).value;
    var middle := ExecAll(BeforeReturnPath(cfg, inputs), start);
    BeforeReturnPathHolds(cfg, inputs, start);
    SymmetricKeepsTexts(cfg, inputs, middle, ok, end);
    ReachesKeepsRoutes(SymmetricPlan(cfg, inputs), middle, ok, end, HostRoute(cfg, gateway));
  }

  lemma RuleNeedsIdentity(cfg: Config, inputs: Inputs, r: Rule)
    requires AddRule(r) in Plan(cfg, inputs)
    ensures Identity(cfg, inputs).Some? && SymmetricPlan(cfg, inputs) != []
  {
    PlanContents(cfg, inputs, AddRule(r));
    HostPlanActions(cfg, inputs);
    DiscoveryPlanActions(cfg, inputs);
  }

  lemma BeforeReturnPathHolds(cfg: Config, inputs: Inputs, s: Sys)
    requires Identity(cfg, inputs).Some? && SeparatePaths(cfg)
    ensures var (address, gateway) := Identity(cfg, inputs).value;
            var middle := ExecAll(BeforeReturnPath(cfg, inputs), s);
            && Holds(middle.store, ENCAP_IP, PrintIP(address.ip))
            && Holds(middle.store, CONF_FILE, ConfText(cfg, address, gateway))
            && HasRoute(middle.kernel.routes, HostRoute(cfg, gateway))
  {
    var (address, gateway) := Identity(cfg, inputs).value;
    var p := BeforeReturnPath(cfg, inputs);
    var c, f := ConnectivityPlan(cfg, inputs, address, gateway), ConfPlan(cfg, address, gateway);
    var encap, conf, host := SetText(ENCAP_IP, PrintIP(address.ip)), f[0], AddRoute(HostRoute(cfg, gateway));
    assert c[|c| - 1] == encap && c[|c| - 2] == host;
    InLater(HostPlan(cfg, inputs), DiscoveryPlan(cfg, inputs), c, f);
    PlanEndsWithReturnPath(cfg, inputs);
    PlanUsesIdentity(cfg, inputs);
    KnownFront(cfg, inputs, p, SymmetricPlan(cfg, inputs));
    KnownTextHolds(cfg, inputs, p, s.store, encap);
    KnownTextHolds(cfg, inputs, p, s.store, conf);
    SettledInPlan(p, s.kernel, host);
  }

  lemma InLater(h: seq<Action>, d: seq<Action>, c: seq<Action>, f: seq<Action>)
    ensures forall a | a in c || a in f :: a in h + (d + (c + f))
  {
  }

  lemma KnownFront(cfg: Config, inputs: Inputs, p: seq<Action>, q: seq<Action>)
    requires AllKnown(cfg, inputs, p + q)
    ensures AllKnown(cfg, inputs, p)
  {
    forall i | 0 <= i < |p| ensures IdentityIsKnown(cfg, inputs, p[i]) {
      assert (p + q)[i] == p[i];
    }
  }

  lemma KnownTextHolds(cfg: Config, inputs: Inputs, plan: seq<Action>, store: map<Location, string>, a: Action)
    requires AllKnown(cfg, inputs, plan) && a in plan && a.SetText? && (a.place == ENCAP_IP || a.place == CONF_FILE)
    ensures Holds(StoreAfter(plan, store), a.place, a.text)
  {
    forall i | 0 <= i < |plan| && plan[i].SetText? && plan[i].place == a.place ensures plan[i].text == a.text {
      assert IdentityIsKnown(cfg, inputs, plan[i]) && IdentityIsKnown(cfg, inputs, a);
    }
    WrittenText(plan, store, a.place, a.text);
  }

  lemma {:induction false} StoreUntouched(plan: seq<Action>, store: map<Location, string>)
    requires forall i | 0 <= i < |plan| :: !plan[i].SetText?
    ensures StoreAfter(plan, store) == store
  {
    if plan != [] {
      StoreUntouched(plan[..|plan| - 1], store);
    }
  }

  lemma SymmetricKeepsTexts(cfg: Config, inputs: Inputs, before: Sys, ok: bool, after: Sys)
    requires Reaches(SymmetricPlan(cfg, inputs), before, ok, after)
    ensures after.store == before.store
  {
    SymmetricPlanActions(cfg, inputs);
    TextFreeKeepsStore(SymmetricPlan(cfg, inputs), before, ok, after);
  }

  lemma TextFreeKeepsStore(plan: seq<Action>, before: Sys, ok: bool, after: Sys)
    requires Reaches(plan, before, ok, after) && forall a | a in plan :: !a.SetText?
    ensures after.store == before.store
  {
    if ok {
      StoreUntouched(plan, before.store);
    } else {
      var n :| 0 <= n < |plan| && StopsAt(plan, n, before, after);
      StoreUntouched(plan[..n], before.store);
      assert plan[n] in plan;
    }
  }

  lemma ReachesKeepsRoutes(plan: seq<Action>, before: Sys, ok: bool, after: Sys, r: Route)
    requires Reaches(plan, before, ok, after) && HasRoute(before.kernel.routes, r)
    ensures HasRoute(after.kernel.routes, r)
  {
    if ok {
      ExecAllKeepsLinks(plan, before.kernel);
    } else {
      var n :| 0 <= n < |plan| && StopsAt(plan, n, before, after);
      StopKeepsRoutes(plan, n, before, after);
    }
    LongerHasRoute(before.kernel.routes, after.kernel.routes, r);
  }

  lemma StopKeepsRoutes(plan: seq<Action>, n: nat, before: Sys, after: Sys)
    requires n < |plan| && StopsAt(plan, n, before, after)
    ensures before.kernel.routes <= after.kernel.routes
  {
    ExecAllKeepsLinks(plan[..n], before.kernel);
    TornKeepsRoutes(plan[n], ExecAll(plan[..n], before), after);
  }

  lemma TornKeepsRoutes(a: Action, before: Sys, after: Sys)
    requires Torn(a, before, after)
    ensures before.kernel.routes <= after.kernel.routes
  {
  }

  lemma LongerHasRoute(a: seq<Route>, b: seq<Route>, r: Route)
    requires a <= b && HasRoute(a, r)
    ensures HasRoute(b, r)
  {
    var i :| 0 <= i < |a| && SameRoute(a[i], r);
    assert SameRoute(b[i], r);
  }

  // -------------------------------------------------------------------- why runs may fail

  /** The only reasons for a run to fail while every external call succeeds. */
  lemma UnusableLiterally(cfg: Config, s: Sys, before: Netplan.State, after: Netplan.State)
    requires Unusable(cfg, InputsOf(cfg, s), before, after)
    ensures || HostName(cfg, s.env).None?
            || (cfg.hasHostClient && OvsListing.SystemID(s.env.systemIDOutput) == "")
            || (cfg.mode.ExternalIPAM? && "br-ovn" in s.kernel.links && |s.kernel.links["br-ovn"]| != 1
                && exists checked: nat, written: nat ::
                     && before.now <= checked <= written
                     && after == Netplan.Attempt(before, checked, written, Netplan.Completes))
            || ("cni0" in s.kernel.links && |s.kernel.links["cni0"]| != 1)
            || ("br-comm-ch" in s.kernel.links && |s.kernel.links["br-comm-ch"]| != 1)
  {
  }

  lemma MTULiterally(ovnMTU: int)
    ensures ValidMTU(ovnMTU + GENEVE_HEADER_SIZE) <==> ovnMTU != 0 && ovnMTU <= 9156
  {
  }
}
