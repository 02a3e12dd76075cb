/** With external IPAM the address of br-ovn and the gateway are discovered anew by every run. No run,
    however it ends and whatever earlier runs remembered, writes an identity it did not read itself. */
module NetworkIdentity {
  import opened Wrappers
  import opened Net
  import opened Routing
  import opened World
  import opened PlanParts
  import opened Interference

  // ------------------------------------------------------- where changes come from

  /** Every changed text was written, in whole or for a file in part, by an action of the plan. */
  ghost predicate WrittenBy(plan: seq<Action>, place: Location, text: string) {
    exists i | 0 <= i < |plan| ::
      plan[i].SetText? && plan[i].place == place && text <= plan[i].text && (place.OvsID? ==> text == plan[i].text)
  }

  lemma {:induction false} StoreOrigin(plan: seq<Action>, store: map<Location, string>, place: Location)
    ensures var after := StoreAfter(plan, store);
            place in after ==> (place in store && after[place] == store[place]) || WrittenBy(plan, place, after[place])
  {
    if plan != [] {
      var front, last := plan[..|plan| - 1], plan[|plan| - 1];
      StoreOrigin(front, store, place);
      var middle, after := StoreAfter(front, store), StoreAfter(plan, store);
      if place in after {
        if last.SetText? && last.place == place {
          assert plan[|plan| - 1].text == after[place];
        } else if WrittenBy(front, place, middle[place]) {
          WrittenByMore(plan, |plan| - 1, place, middle[place]);
        }
      }
    }
  }

  lemma WrittenByMore(plan: seq<Action>, n: nat, place: Location, text: string)
    requires n <= |plan| && WrittenBy(plan[..n], place, text)
    ensures WrittenBy(plan, place, text)
  {
    var i :| 0 <= i < n && plan[..n][i].SetText? && plan[..n][i].place == place && text <= plan[..n][i].text
             && (place.OvsID? ==> text == plan[..n][i].text);
    assert plan[i] == plan[..n][i];
  }

  lemma {:induction false} RoutesOrigin(plan: seq<Action>, k: Kernel, r: Route)
    requires r in KernelAfter(plan, k).routes
    ensures r in k.routes || AddRoute(r) in plan
  {
    if plan != [] {
      var front, last := plan[..|plan| - 1], plan[|plan| - 1];
      if r in KernelAfter(front, k).routes {
        RoutesOrigin(front, k, r);
      } else {
        assert last == AddRoute(r);
        assert last in plan;
      }
    }
  }

  /** What any run, complete or stopped, changed in the store and the routes comes from its plan. */
  lemma ReachesOrigin(plan: seq<Action>, before: Sys, ok: bool, after: Sys, place: Location, r: Route)
    requires Reaches(plan, before, ok, after)
    ensures place in after.store ==>
              (place in before.store && after.store[place] == before.store[place])
                || WrittenBy(plan, place, after.store[place])
    ensures r in after.kernel.routes ==> r in before.kernel.routes || AddRoute(r) in plan
  {
    if ok {
      StoreOrigin(plan, before.store, place);
      if r in after.kernel.routes {
        RoutesOrigin(plan, before.kernel, r);
      }
    } else {
      var n :| 0 <= n < |plan| && StopsAt(plan, n, before, after);
      StopOrigin(plan, n, before, after, place, r);
    }
  }

  lemma StopOrigin(plan: seq<Action>, n: nat, before: Sys, after: Sys, place: Location, r: Route)
    requires n < |plan| && StopsAt(plan, n, before, after)
    ensures place in after.store ==>
              (place in before.store && after.store[place] == before.store[place])
                || WrittenBy(plan, place, after.store[place])
    ensures r in after.kernel.routes ==> r in before.kernel.routes || AddRoute(r) in plan
  {
    var middle, a := ExecAll(plan[..n], before), plan[n];
    StoreOrigin(plan[..n], before.store, place);
    if place in middle.store && WrittenBy(plan[..n], place, middle.store[place]) {
      WrittenByMore(plan, n, place, middle.store[place]);
    }
    if a.SetText? && a.place == place && place in after.store && after.store != middle.store {
      TornText(a, middle, after);
      assert WrittenBy(plan, place, after.store[place]);
    }
    if r in middle.kernel.routes {
      RoutesOrigin(plan[..n], before.kernel, r);
      if AddRoute(r) in plan[..n] {
        assert AddRoute(r) in plan;
      }
    } else if r in after.kernel.routes {
      assert a == AddRoute(r);
      assert plan[n] in plan;
    }
  }

  lemma TornText(a: Action, before: Sys, after: Sys)
    requires a.SetText? && Torn(a, before, after) && after.store != before.store
    ensures a.place in after.store && after.store[a.place] <= a.text
    ensures a.place.OvsID? ==> after.store[a.place] == a.text
  {
  }

  // ------------------------------------------------------ identity actions of a plan

  /** The configured paths do not collide with the configuration file for OVN Kubernetes. */
  predicate SeparatePaths(cfg: Config) {
    NodeNameFile(cfg) != CONF_FILE && BootstrapFile(cfg) != CONF_FILE
  }

  /** Actions that carry the identity of br-ovn. */
  predicate CarriesIdentity(a: Action) {
    || (a.AddRoute? && a.route.device == BR_OVN)
    || (a.SetText? && (a.place == ENCAP_IP || a.place == CONF_FILE))
  }

  predicate UsesIdentity(cfg: Config, a: Action, vtep: IPNet, gateway: IPv4) {
    && (a.AddRoute? ==> a.route.gateway == gateway)
    && (a.SetText? && a.place == ENCAP_IP ==> a.text == PrintIP(vtep.ip))
    && (a.SetText? && a.place == CONF_FILE ==> a.text == ConfText(cfg, vtep, gateway))
  }

  ghost predicate IdentityIsKnown(cfg: Config, inputs: Inputs, a: Action) {
    CarriesIdentity(a) ==>
      && Identity(cfg, inputs).Some?
      && UsesIdentity(cfg, a, Identity(cfg, inputs).value.0, Identity(cfg, inputs).value.1)
  }

  ghost predicate AllKnown(cfg: Config, inputs: Inputs, plan: seq<Action>) {
    forall i | 0 <= i < |plan| :: IdentityIsKnown(cfg, inputs, plan[i])
  }

  lemma PlanUsesIdentity(cfg: Config, inputs: Inputs)
    requires SeparatePaths(cfg)
    ensures AllKnown(cfg, inputs, Plan(cfg, inputs))
  {
    PlanActions(cfg, inputs);
    PermittedUseIdentity(cfg, inputs, Plan(cfg, inputs));
  }

  lemma PermittedUseIdentity(cfg: Config, inputs: Inputs, plan: seq<Action>)
    requires SeparatePaths(cfg) && AllPermitted(cfg, inputs, plan)
    ensures AllKnown(cfg, inputs, plan)
  {
    forall i | 0 <= i < |plan| ensures IdentityIsKnown(cfg, inputs, plan[i]) {
      assert Permitted(cfg, inputs, plan[i]);
    }
  }

  // ------------------------------------------------------------------- the theorems

  /** The single address br-ovn had when a run read it, if it had exactly one. */
  function ReadAddress(s: Sys): Option<IPNet> {
    if BR_OVN in s.kernel.links && |s.kernel.links[BR_OVN]| == 1 then Some(s.kernel.links[BR_OVN][0]) else None
  }

  function ReadGateway(cfg: Config, s: Sys): Option<IPv4>
    requires cfg.mode.ExternalIPAM?
  {
    if cfg.mode.discovery in s.env.gateways then Some(s.env.gateways[cfg.mode.discovery]) else None
  }

  /** Whatever a run with external IPAM changed about routes on br-ovn, the encapsulation address or the
      configuration file, it changed to what it read itself. The state before the run is arbitrary, and
      so is what earlier runs remembered. */
  lemma IdentityIsFresh(cfg: Config, before: Sys, ok: bool, after: Sys, r: Route)
    requires cfg.mode.ExternalIPAM? && SeparatePaths(cfg) && Run(cfg, before, ok, after)
    ensures r in after.kernel.routes && r !in before.kernel.routes && r.device == BR_OVN ==>
              ReadAddress(before).Some? && ReadGateway(cfg, before) == Some(r.gateway)
    ensures Changed(before, after, ENCAP_IP) ==>
              ReadAddress(before).Some? && after.store[ENCAP_IP] == PrintIP(ReadAddress(before).value.ip)
    ensures Changed(before, after, CONF_FILE) ==>
              && ReadAddress(before).Some? && ReadGateway(cfg, before).Some?
              && after.store[CONF_FILE] <= ConfText(cfg, ReadAddress(before).value, ReadGateway(cfg, before).value)
  {
    var start, end := RunParts(cfg, before, ok, after);
    QuietIdentityIsFresh(cfg, start, ok, end, r);
  }

  predicate Changed(before: Sys, after: Sys, place: Location) {
    place in after.store && (place in before.store ==> after.store[place] != before.store[place])
  }

  lemma QuietIdentityIsFresh(cfg: Config, before: Sys, ok: bool, after: Sys, r: Route)
    requires cfg.mode.ExternalIPAM? && SeparatePaths(cfg)
    requires Reaches(Plan(cfg, InputsOf(cfg, before)), before, ok, after)
    ensures r in after.kernel.routes && r !in before.kernel.routes && r.device == BR_OVN ==>
              ReadAddress(before).Some? && ReadGateway(cfg, before) == Some(r.gateway)
    ensures Changed(before, after, ENCAP_IP) ==>
              ReadAddress(before).Some? && after.store[ENCAP_IP] == PrintIP(ReadAddress(before).value.ip)
    ensures Changed(before, after, CONF_FILE) ==>
              && ReadAddress(before).Some? && ReadGateway(cfg, before).Some?
              && after.store[CONF_FILE] <= ConfText(cfg, ReadAddress(before).value, ReadGateway(cfg, before).value)
  {
    var inputs := InputsOf(cfg, before);
    PlanUsesIdentity(cfg, inputs);
    KnownIdentityIsFresh(cfg, inputs, Plan(cfg, inputs), before, ok, after, r);
  }

  lemma KnownIdentityIsFresh(cfg: Config, inputs: Inputs, plan: seq<Action>, before: Sys, ok: bool, after: Sys,
                             r: Route)
    requires AllKnown(cfg, inputs, plan) && Reaches(plan, before, ok, after)
    ensures r in after.kernel.routes && r !in before.kernel.routes && r.device == BR_OVN ==>
              Identity(cfg, inputs).Some? && Identity(cfg, inputs).value.1 == r.gateway
    ensures Changed(before, after, ENCAP_IP) ==>
              Identity(cfg, inputs).Some? && after.store[ENCAP_IP] == PrintIP(Identity(cfg, inputs).value.0.ip)
    ensures Changed(before, after, CONF_FILE) ==>
              && Identity(cfg, inputs).Some?
              && after.store[CONF_FILE] <= ConfText(cfg, Identity(cfg, inputs).value.0, Identity(cfg, inputs).value.1)
  {
    ReachesOrigin(plan, before, ok, after, ENCAP_IP, r);
    ReachesOrigin(plan, before, ok, after, CONF_FILE, r);
    if Changed(before, after, ENCAP_IP) {
      KnownText(cfg, inputs, plan, ENCAP_IP, after.store[ENCAP_IP]);
    }
    if Changed(before, after, CONF_FILE) {
      KnownText(cfg, inputs, plan, CONF_FILE, after.store[CONF_FILE]);
    }
    if AddRoute(r) in plan && r.device == BR_OVN {
      var i :| 0 <= i < |plan| && plan[i] == AddRoute(r);
      assert IdentityIsKnown(cfg, inputs, plan[i]);
    }
  }

  lemma KnownText(cfg: Config, inputs: Inputs, plan: seq<Action>, place: Location, text: string)
    requires AllKnown(cfg, inputs, plan) && WrittenBy(plan, place, text) && (place == ENCAP_IP || place == CONF_FILE)
    ensures Identity(cfg, inputs).Some?
    ensures place == ENCAP_IP ==> text == PrintIP(Identity(cfg, inputs).value.0.ip)
    ensures place == CONF_FILE ==> text <= ConfText(cfg, Identity(cfg, inputs).value.0, Identity(cfg, inputs).value.1)
  {
    var i :| 0 <= i < |plan| && plan[i].SetText? && plan[i].place == place && text <= plan[i].text
             && (place.OvsID? ==> text == plan[i].text);
    assert IdentityIsKnown(cfg, inputs, plan[i]);
  }

  /** A run that sees no address or several on br-ovn never completes and makes none of these writes. */
  lemma NoIdentityNoWrites(cfg: Config, before: Sys, ok: bool, after: Sys)
    requires cfg.mode.ExternalIPAM? && SeparatePaths(cfg) && ReadAddress(before).None? && Run(cfg, before, ok, after)
    ensures !ok
    ensures forall r :: r in after.kernel.routes && r.device == BR_OVN ==> r in before.kernel.routes
    ensures forall place | place == ENCAP_IP || place == CONF_FILE ::
              place in after.store ==> place in before.store && after.store[place] == before.store[place]
  {
    forall r ensures r in after.kernel.routes && r.device == BR_OVN ==> r in before.kernel.routes {
      IdentityIsFresh(cfg, before, ok, after, r);
    }
    IdentityIsFresh(cfg, before, ok, after, Route(cfg.vtepCIDR, 0, OOB_LINK, 0, 0));
    var start, end := RunParts(cfg, before, ok, after);
    var inputs := InputsOf(cfg, start);
    var plan, d := Plan(cfg, inputs), DiscoveryPlan(cfg, inputs);
    assert plan[|HostPlan(cfg, inputs)| + 1] == d[1];
    assert Blocking(d[1]);
  }

  // ---------------------------------------------------------------- a refused host route

  /** Where in a plan the host route is added. */
  function HostRouteAt(cfg: Config, inputs: Inputs): nat
    requires Identity(cfg, inputs).Some?
  {
    var (vtep, gateway) := Identity(cfg, inputs).value;
    |HostPlan(cfg, inputs)| + |DiscoveryPlan(cfg, inputs)| + |LinkPlan(cfg, inputs, vtep, gateway)|
  }

  lemma HostRouteInPlan(cfg: Config, inputs: Inputs)
    requires Identity(cfg, inputs).Some?
    ensures var (vtep, gateway) := Identity(cfg, inputs).value;
            var n, plan := HostRouteAt(cfg, inputs), Plan(cfg, inputs);
            && n < |plan| && plan[n] == AddRoute(HostRoute(cfg, gateway))
            && plan[..n] == HostPlan(cfg, inputs) + DiscoveryPlan(cfg, inputs) + LinkPlan(cfg, inputs, vtep, gateway)
  {
    var (vtep, gateway) := Identity(cfg, inputs).value;
    var h, d, link := HostPlan(cfg, inputs), DiscoveryPlan(cfg, inputs), LinkPlan(cfg, inputs, vtep, gateway);
    var host, encap := AddRoute(HostRoute(cfg, gateway)), SetText(ENCAP_IP, PrintIP(vtep.ip));
    var rest := [encap] + ConfPlan(cfg, vtep, gateway) + SymmetricPlan(cfg, inputs);
    assert IdentityPlan(cfg, inputs) == link + [host] + rest;
    PlanSplits(h, d, link, host, rest);
  }

  lemma PlanSplits(h: seq<Action>, d: seq<Action>, link: seq<Action>, host: Action, rest: seq<Action>)
    ensures var plan, n := h + (d + (link + [host] + rest)), |h| + |d| + |link|;
            plan[..n] == h + d + link && plan[n] == host
  {
  }

  /** A run that stops at the host route (say, because the kernel refuses it beside one for the same
      network and metric by an earlier gateway) leaves the encapsulation address and the configuration
      file as they were. */
  lemma RefusedHostRouteStops(cfg: Config, before: Sys, after: Sys)
    requires SeparatePaths(cfg) && Identity(cfg, InputsOf(cfg, before)).Some?
    requires HostRouteAt(cfg, InputsOf(cfg, before)) < |Plan(cfg, InputsOf(cfg, before))|
    requires StopsAt(Plan(cfg, InputsOf(cfg, before)), HostRouteAt(cfg, InputsOf(cfg, before)), before, after)
    ensures !Changed(before, after, ENCAP_IP) && !Changed(before, after, CONF_FILE)
  {
    var inputs := InputsOf(cfg, before);
    var n, plan := HostRouteAt(cfg, inputs), Plan(cfg, inputs);
    HostRouteInPlan(cfg, inputs);
    EarlyPartsWriteNeither(cfg, inputs);
    StoreOrigin(plan[..n], before.store, ENCAP_IP);
    StoreOrigin(plan[..n], before.store, CONF_FILE);
  }

  lemma EarlyPartsWriteNeither(cfg: Config, inputs: Inputs)
    requires SeparatePaths(cfg) && Identity(cfg, inputs).Some?
    ensures var (vtep, gateway) := Identity(cfg, inputs).value;
            var early := HostPlan(cfg, inputs) + DiscoveryPlan(cfg, inputs) + LinkPlan(cfg, inputs, vtep, gateway);
            forall i | 0 <= i < |early| && early[i].SetText? ::
              early[i].place != ENCAP_IP && early[i].place != CONF_FILE
  {
    var (vtep, gateway) := Identity(cfg, inputs).value;
    HostPlanActions(cfg, inputs);
    DiscoveryPlanActions(cfg, inputs);
    LinkPlanActions(cfg, inputs, vtep, gateway);
    EarlyWrites(cfg, HostPlan(cfg, inputs), DiscoveryPlan(cfg, inputs), LinkPlan(cfg, inputs, vtep, gateway),
                HostName(cfg, inputs.env).GetOr(""), vtep, gateway);
  }

  lemma EarlyWrites(cfg: Config, h: seq<Action>, d: seq<Action>, link: seq<Action>, host: string, vtep: IPNet,
                    gateway: IPv4)
    requires SeparatePaths(cfg)
    requires forall a | a in h :: a.Fail? || OfHost(cfg, host, a)
    requires forall a | a in d :: OfDiscovery(a)
    requires forall a | a in link :: OfLink(cfg, vtep, gateway, a)
    ensures forall i | 0 <= i < |h + d + link| && (h + d + link)[i].SetText? ::
              (h + d + link)[i].place != ENCAP_IP && (h + d + link)[i].place != CONF_FILE
  {
    assert |NODE_NAME_ID.key| == 17 && |HOST_NAME_ID.key| == 8 && |ENCAP_IP.key| == 12;
    assert |OVN_CONF_PATH| == 29 && |NETPLAN_PATH| == 27;
    forall i | 0 <= i < |h + d + link| && (h + d + link)[i].SetText?
      ensures (h + d + link)[i].place != ENCAP_IP && (h + d + link)[i].place != CONF_FILE
    {
      var a := (h + d + link)[i];
      assert a in h || a in d || a in link;
    }
  }
}
