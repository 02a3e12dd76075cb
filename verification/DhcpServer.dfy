/** The DHCP server for the host's interface: at most one in the life of the process, only with
    internal IPAM, only after a complete configuration, and consistent with the routes. */
module DhcpServer {
  import opened Wrappers
  import opened Net
  import opened Routing
  import opened World
  import opened PlanParts
  import opened Provisioner
  import opened Interference
  import Convergence
  import Decimal

  /** The outside world and the command the process remembers. */
  datatype Process = Process(sys: Sys, command: Option<seq<string>>)

  /** One call of RunOnce, one tick of the configuration loop, or any change by the outside world, which
      starts no server on the process's behalf. */
  ghost predicate ProcessStep(cfg: Config, before: Process, after: Process) {
    || RanOnce(cfg, before.sys, before.command, true, after.sys, after.command)
    || RanOnce(cfg, before.sys, before.command, false, after.sys, after.command)
    || (Step(cfg, before.sys, after.sys) && after.command == before.command)
    || (after.sys.servers == before.sys.servers && after.command == before.command)
  }

  ghost predicate Life(cfg: Config, states: seq<Process>) {
    && states != [] && states[0].command.None?
    && forall i | 0 <= i < |states| - 1 :: ProcessStep(cfg, states[i], states[i + 1])
  }

  lemma RunsStartNothing(plan: seq<Action>, before: Sys, ok: bool, after: Sys)
    requires Reaches(plan, before, ok, after)
    ensures after.servers == before.servers && after.env == before.env
  {
    if !ok {
      var k :| 0 <= k < |plan| && StopsAt(plan, k, before, after);
    }
  }

  lemma RunStartsNothing(cfg: Config, before: Sys, ok: bool, after: Sys)
    requires Run(cfg, before, ok, after)
    ensures after.servers == before.servers && after.env == before.env
  {
    var start, end := RunParts(cfg, before, ok, after);
    RunsStartNothing(Plan(cfg, InputsOf(cfg, start)), start, ok, end);
  }

  /** How one RunOnce can change what is running: not at all, or by one server, with internal IPAM and
      after a complete configuration. */
  lemma RunOnceServers(cfg: Config, before: Process, ok: bool, after: Process)
    requires RanOnce(cfg, before.sys, before.command, ok, after.sys, after.command)
    ensures (after.sys.servers == before.sys.servers && after.command == before.command)
            || (&& ok && before.command.None? && cfg.mode.InternalIPAM?
                && after.command.Some? && after.command == DhcpArgs(cfg, before.sys.env)
                && after.sys.servers == before.sys.servers + [after.command.value]
                && Run(cfg, before.sys, true, after.sys.(servers := before.sys.servers)))
  {
    var configured, middle :|
      && Run(cfg, before.sys, configured, middle)
      && if configured && cfg.mode.InternalIPAM? then Starts(cfg, middle, before.command, ok, after.sys, after.command)
         else ok == configured && after.sys == middle && after.command == before.command;
    RunStartsNothing(cfg, before.sys, configured, middle);
    if after.sys != middle {
      assert after.sys.(servers := before.sys.servers) == middle;
    }
  }

  lemma StepServers(cfg: Config, before: Process, after: Process)
    requires ProcessStep(cfg, before, after)
    ensures (after.sys.servers == before.sys.servers && after.command == before.command)
            || (before.command.None? && cfg.mode.InternalIPAM? && after.command.Some?
                && after.sys.servers == before.sys.servers + [after.command.value])
  {
    if RanOnce(cfg, before.sys, before.command, true, after.sys, after.command) {
      RunOnceServers(cfg, before, true, after);
    } else if RanOnce(cfg, before.sys, before.command, false, after.sys, after.command) {
      RunOnceServers(cfg, before, false, after);
    } else if Run(cfg, before.sys, true, after.sys) {
      RunStartsNothing(cfg, before.sys, true, after.sys);
    } else if Run(cfg, before.sys, false, after.sys) {
      RunStartsNothing(cfg, before.sys, false, after.sys);
    }
  }

  /** Over the whole life of the process at most one server is started, none with external IPAM, and
      the process remembers it exactly when there is one. */
  lemma {:induction false} AtMostOneServer(cfg: Config, states: seq<Process>, i: nat)
    requires Life(cfg, states) && i < |states|
    ensures states[i].sys.servers ==
            states[0].sys.servers + if states[i].command.Some? then [states[i].command.value] else []
    ensures cfg.mode.ExternalIPAM? ==> states[i].command.None?
    decreases i
  {
    if i == 0 {
      assert states[0].sys.servers + [] == states[0].sys.servers;
    } else {
      AtMostOneServer(cfg, states, i - 1);
      assert ProcessStep(cfg, states[i - 1], states[i - 1 + 1]);
      StepServers(cfg, states[i - 1], states[i]);
      if states[i - 1].command.None? {
        assert states[i - 1].sys.servers == states[0].sys.servers;
      }
    }
  }

  // ------------------------------------------------------------ agreement with the routes

  lemma HeadsDiffer(s: string, p: string, x: string, k: nat)
    requires k < |s| && k < |p| && s[k] != p[k]
    ensures s != p + x
  {
    assert (p + x)[k] == p[k];
  }

  lemma FixedArgumentsDiffer(network: IPNet, gateway: IPv4)
    ensures StaticRouteOption(network, gateway) !in
            ["--keep-in-foreground", "--port=0", "--log-facility=-", "--interface=" + BR_OVN,
             "--dhcp-option=option:router"]
  {
    var head, tail := "--dhcp-option=option:classless-static-route,", PrintNet(network) + "," + PrintIP(gateway);
    HeadsDiffer("--keep-in-foreground", head, tail, 2);
    HeadsDiffer("--port=0", head, tail, 2);
    HeadsDiffer("--log-facility=-", head, tail, 2);
    HeadsDiffer("--interface=" + BR_OVN, head, tail, 2);
    HeadsDiffer("--dhcp-option=option:router", head, tail, 21);
  }

  lemma StaticRouteIsNoBaseArgument(own: IPNet, pfIP: IPv4, mtu: int, mac: string, network: IPNet, gateway: IPv4)
    ensures StaticRouteOption(network, gateway) !in BaseDhcpArgs(own, pfIP, mtu, mac)
  {
    var o := StaticRouteOption(network, gateway);
    var m, r, h := "--dhcp-option=option:mtu,", "--dhcp-range=", "--dhcp-host=";
    var base := BaseDhcpArgs(own, pfIP, mtu, mac);
    FixedArgumentsDiffer(network, gateway);
    OptionHead(network, gateway);
    HeadsDiffer(o, m, Decimal.Itoa(mtu), 21);
    HeadsDiffer(o, r, PrintIP(own.ip) + ",static", 7);
    HeadsDiffer(o, h, mac + "," + PrintIP(pfIP), 7);
    assert base[..5] ==
      ["--keep-in-foreground", "--port=0", "--log-facility=-", "--interface=" + BR_OVN, "--dhcp-option=option:router"];
    assert base == base[..5] + [base[5], base[6], base[7]];
  }

  lemma OptionHead(network: IPNet, gateway: IPv4)
    ensures var o := StaticRouteOption(network, gateway); |o| > 21 && o[7] == 'o' && o[21] == 'c'
  {
  }

  /** What follows the link part of a plan with internal IPAM. */
  function AfterLink(cfg: Config, inputs: Inputs): seq<Action>
    requires cfg.mode.InternalIPAM?
  {
    [AddRoute(HostRoute(cfg, cfg.mode.gateway)), SetText(OvsID("ovn-encap-ip"), PrintIP(cfg.mode.vtep.ip))]
    + ConfPlan(cfg, cfg.mode.vtep, cfg.mode.gateway) + SymmetricPlan(cfg, inputs)
  }

  lemma AfterLinkHasNoVtepRoute(cfg: Config, inputs: Inputs)
    requires cfg.mode.InternalIPAM?
    ensures AddRoute(VtepRoute(cfg, cfg.mode.gateway)) !in AfterLink(cfg, inputs)
  {
    SymmetricPlanActions(cfg, inputs);
  }

  lemma InternalPlanParts(cfg: Config, inputs: Inputs)
    requires cfg.mode.InternalIPAM?
    ensures Plan(cfg, inputs) ==
            HostPlan(cfg, inputs) + (LinkPlan(cfg, inputs, cfg.mode.vtep, cfg.mode.gateway) + AfterLink(cfg, inputs))
  {
    var vtep, gateway := cfg.mode.vtep, cfg.mode.gateway;
    Regroup(HostPlan(cfg, inputs), LinkPlan(cfg, inputs, vtep, gateway),
            [AddRoute(HostRoute(cfg, gateway)), SetText(OvsID("ovn-encap-ip"), PrintIP(vtep.ip))],
            ConfPlan(cfg, vtep, gateway), SymmetricPlan(cfg, inputs));
  }

  lemma Regroup(a: seq<Action>, b: seq<Action>, c: seq<Action>, d: seq<Action>, e: seq<Action>)
    ensures a + ([] + (((b + c) + d) + e)) == a + (b + ((c + d) + e))
  {
  }

  lemma VtepRouteInLink(cfg: Config, inputs: Inputs)
    requires cfg.mode.InternalIPAM?
    ensures var link := LinkPlan(cfg, inputs, cfg.mode.vtep, cfg.mode.gateway);
            && link != []
            && (link[0] != Fail ==>
                 (AddRoute(VtepRoute(cfg, cfg.mode.gateway)) in link <==> SpansSubnets(cfg, cfg.mode.vtep)))
  {
    var link := LinkPlan(cfg, inputs, cfg.mode.vtep, cfg.mode.gateway);
    if link[0] != Fail && SpansSubnets(cfg, cfg.mode.vtep) {
      assert link[2] == AddRoute(VtepRoute(cfg, cfg.mode.gateway));
    }
  }

  lemma VtepRouteInPlan(cfg: Config, inputs: Inputs)
    requires cfg.mode.InternalIPAM? && Unblocked(Plan(cfg, inputs))
    ensures AddRoute(VtepRoute(cfg, cfg.mode.gateway)) in Plan(cfg, inputs) <==> SpansSubnets(cfg, cfg.mode.vtep)
  {
    var r := AddRoute(VtepRoute(cfg, cfg.mode.gateway));
    var h, link, rest :=
      HostPlan(cfg, inputs), LinkPlan(cfg, inputs, cfg.mode.vtep, cfg.mode.gateway), AfterLink(cfg, inputs);
    HostPlanActions(cfg, inputs);
    AfterLinkHasNoVtepRoute(cfg, inputs);
    InternalPlanParts(cfg, inputs);
    assert r !in h && r !in rest;
    assert r in h + (link + rest) <==> r in link;
    assert Plan(cfg, inputs)[|h|] == (link + rest)[0];
    VtepRouteInLink(cfg, inputs);
  }

  /** The started server hands out the static route to the VTEP CIDR exactly when the configuration put
      that route on br-ovn, with the same network and gateway; and that is exactly when the network of
      br-ovn is not the whole VTEP CIDR. */
  lemma StaticRouteMatchesKernel(cfg: Config, inputs: Inputs, args: seq<string>)
    requires cfg.mode.InternalIPAM? && Unblocked(Plan(cfg, inputs)) && DhcpArgs(cfg, inputs.env) == Some(args)
    ensures StaticRouteOption(cfg.vtepCIDR, cfg.mode.gateway) in args
            <==> AddRoute(VtepRoute(cfg, cfg.mode.gateway)) in Plan(cfg, inputs)
    ensures StaticRouteOption(cfg.vtepCIDR, cfg.mode.gateway) in args <==> Network(cfg.mode.vtep) != cfg.vtepCIDR
  {
    var m := cfg.mode;
    VtepRouteInPlan(cfg, inputs);
    StaticRouteIsNoBaseArgument(Network(m.vtep), m.pfIP, m.ovnMTU + GENEVE_HEADER_SIZE, inputs.env.pfMAC.value,
                                cfg.vtepCIDR, m.gateway);
    PrintNetInjective(Network(m.vtep), cfg.vtepCIDR);
  }

  /** A server that hands out the static route runs beside a kernel that has the route, with the same
      network and gateway: whoever asks it is sent where the host itself sends its packets. */
  lemma ServedRouteIsInstalled(cfg: Config, before: Process, after: Process)
    requires RanOnce(cfg, before.sys, before.command, true, after.sys, after.command)
    requires before.command.None? && after.command.Some?
    ensures cfg.mode.InternalIPAM?
    ensures StaticRouteOption(cfg.vtepCIDR, cfg.mode.gateway) in after.command.value ==>
              HasRoute(after.sys.kernel.routes, VtepRoute(cfg, cfg.mode.gateway))
  {
    RunOnceServers(cfg, before, true, after);
    var configured := after.sys.(servers := before.sys.servers);
    var start, end := RunParts(cfg, before.sys, true, configured);
    var plan := Plan(cfg, InputsOf(cfg, start));
    StaticRouteMatchesKernel(cfg, InputsOf(cfg, start), after.command.value);
    if AddRoute(VtepRoute(cfg, cfg.mode.gateway)) in plan {
      Convergence.PlanSettles(plan, start.kernel);
      var i :| 0 <= i < |plan| && plan[i] == AddRoute(VtepRoute(cfg, cfg.mode.gateway));
      assert Convergence.Settled(plan[i], end.kernel);
    }
  }
}
