/** The DPU CNI provisioner. Host stands for everything outside the process; each of its methods is
    one external call, which may fail, and on failure may or may not have taken effect. Provisioner
    follows the program method by method, and every method performs its part of World.Plan. */
module Provisioner {
  import opened Wrappers
  import opened Text
  import opened Decimal
  import opened Net
  import opened Routing
  import opened World
  import opened PlanParts
  import Chassis
  import Convergence
  import Json
  import Netplan
  import OvsListing
  import opened Interference

  /** What a merge patch sent to the host cluster may have done to a node. */
  ghost predicate Patched(name: string, patch: Json.JSON, before: Sys, ok: bool, after: Sys)
    requires name in before.kernel.hosts
  {
    var served := Chassis.ServePatch(before.kernel.hosts[name], patch);
    && (ok ==> served.Some?)
    && ((!ok && after == before)
        || (served.Some? && after == WithHosts(before, before.kernel.hosts[name := served.value])))
  }

  /** Sending a merge patch, with other writers before and after the server takes it. */
  ghost predicate PatchedAmid(name: string, patch: Json.JSON, before: Sys, ok: bool, after: Sys)
    requires name in before.kernel.hosts
  {
    exists start: Sys, end: Sys ::
      && OthersWrote(before, start) && Patched(name, patch, start, ok, end) && OthersWrote(end, after)
  }

  class Host {
    var sys: Sys

    /** How many external calls have reported an error so far. */
    var faults: nat

    constructor (initial: Sys)
      ensures sys == initial && faults == 0
    {
      sys, faults := initial, 0;
    }

    method GetNodeLabels(name: string) returns (r: Option<map<string, string>>)
      modifies this`faults
      ensures faults >= old(faults) && (r.None? ==> faults > old(faults))
      ensures r.Some? ==> name in sys.env.nodes && r.value == sys.env.nodes[name]
    {
      var answered: bool := *;
      if name in sys.env.nodes && answered {
        return Some(sys.env.nodes[name]);
      }
      faults := faults + 1;
      return None;
    }

    method SetExternalID(key: string, value: string) returns (ok: bool)
      modifies this
      ensures faults >= old(faults) && (!ok ==> faults > old(faults))
      ensures ok ==> sys == Exec(SetText(OvsID(key), value), old(sys))
      ensures !ok ==> Torn(SetText(OvsID(key), value), old(sys), sys)
    {
      ok := *;
      var lost: bool := *;
      if ok || lost {
        sys := Exec(SetText(OvsID(key), value), sys);
      }
      faults := if ok then faults else faults + 1;
    }

    method WriteFile(path: string, text: string) returns (ok: bool)
      modifies this
      ensures faults >= old(faults) && (!ok ==> faults > old(faults))
      ensures ok ==> sys == Exec(SetText(File(path), text), old(sys))
      ensures !ok ==> Torn(SetText(File(path), text), old(sys), sys)
    {
      ok := *;
      if ok {
        sys := Exec(SetText(File(path), text), sys);
        return;
      }
      faults := faults + 1;
      var n :| 0 <= n <= |text|;
      if * {
        sys := Exec(SetText(File(path), text[..n]), sys);
      }
    }

    method GetSystemIDOutput() returns (r: Option<string>)
      modifies this`faults
      ensures faults >= old(faults) && (r.None? ==> faults > old(faults))
      ensures r.Some? ==> r.value == sys.env.systemIDOutput
    {
      if * {
        return Some(sys.env.systemIDOutput);
      }
      faults := faults + 1;
      return None;
    }

    /** Other clients of the host cluster's API server rewrite any nodes, any number of times. */
    method OthersWrite()
      modifies this`sys
      ensures OthersWrote(old(sys), sys)
    {
      OthersRest(sys);
      var writes :| writes >= 0;
      for i := 0 to writes
        invariant OthersWrote(old(sys), sys)
      {
        var name: string, node: Chassis.HostNode := *, *;
        if name in sys.kernel.hosts && Chassis.WellFormed(node) && node.version > sys.kernel.hosts[name].version {
          ghost var before := sys;
          sys := WithHosts(sys, sys.kernel.hosts[name := node]);
          OthersWroteAgain(old(sys), before, sys);
        }
      }
    }

    method GetHostNode(name: string) returns (r: Option<Chassis.HostNode>)
      modifies this
      ensures faults >= old(faults) && (r.None? ==> faults > old(faults))
      ensures OthersWrote(old(sys), sys)
      ensures r.Some? ==> name in sys.kernel.hosts && r.value == sys.kernel.hosts[name]
    {
      OthersWrite();
      var answered: bool := *;
      if name in sys.kernel.hosts && answered {
        return Some(sys.kernel.hosts[name]);
      }
      faults := faults + 1;
      return None;
    }

    /** Sends a merge patch to the host cluster's API server, which others have written to since. */
    method PatchHostNode(name: string, patch: Json.JSON) returns (ok: bool)
      requires name in sys.kernel.hosts
      modifies this
      ensures faults >= old(faults) && (!ok ==> faults > old(faults))
      ensures PatchedAmid(name, patch, old(sys), ok, sys)
    {
      OthersWrite();
      ghost var start := sys;
      ok := ServePatch(name, patch);
      ghost var end := sys;
      OthersWrite();
      assert OthersWrote(old(sys), start) && Patched(name, patch, start, ok, end) && OthersWrote(end, sys);
    }

    method ServePatch(name: string, patch: Json.JSON) returns (ok: bool)
      requires name in sys.kernel.hosts
      modifies this
      ensures faults >= old(faults) && (!ok ==> faults > old(faults))
      ensures Patched(name, patch, old(sys), ok, sys)
    {
      var served := Chassis.ServePatch(sys.kernel.hosts[name], patch);
      ok := *;
      ok := ok && served.Some?;
      var lost: bool := *;
      if served.Some? && (ok || lost) {
        sys := WithHosts(sys, sys.kernel.hosts[name := served.value]);
      }
      faults := if ok then faults else faults + 1;
    }

    /** The time between two runs, in which the outside world changes as it likes. */
    method Wait()
      requires GoodHosts(sys)
      modifies this`sys
      ensures Outside(old(sys), sys)
    {
      var env: Env, links: map<string, seq<IPNet>>, hosts: map<string, Chassis.HostNode>, elapsed: nat := *, *, *, *;
      var after := sys.(env := env, kernel := sys.kernel.(links := links, hosts := hosts),
                        netplan := sys.netplan.(now := sys.netplan.now + elapsed));
      if GoodHosts(after) {
        sys := after;
      }
    }

    method GetLinkIPAddresses(link: string) returns (r: Option<seq<IPNet>>)
      modifies this`faults
      ensures faults >= old(faults) && (r.None? ==> faults > old(faults))
      ensures r.Some? ==> LinkAddresses(sys, link) == r
    {
      var answered: bool := *;
      if link in sys.kernel.links && answered {
        return Some(sys.kernel.links[link]);
      }
      faults := faults + 1;
      return None;
    }

    method LinkIPAddressExists(link: string, ip: IPNet) returns (r: Option<bool>)
      modifies this`faults
      ensures faults >= old(faults) && (r.None? ==> faults > old(faults))
      ensures r.Some? ==> link in sys.kernel.links && r.value == (ip in sys.kernel.links[link])
    {
      var answered: bool := *;
      if link in sys.kernel.links && answered {
        return Some(ip in sys.kernel.links[link]);
      }
      faults := faults + 1;
      return None;
    }

    method SetLinkIPAddress(link: string, ip: IPNet) returns (ok: bool)
      requires link in sys.kernel.links
      modifies this
      ensures faults >= old(faults) && (!ok ==> faults > old(faults))
      ensures var links := old(sys).kernel.links;
              var added := old(sys).(kernel := old(sys).kernel.(links := links[link := links[link] + [ip]]));
              sys == added || (!ok && sys == old(sys))
    {
      ok := *;
      var lost: bool := *;
      if ok || lost {
        sys := sys.(kernel := sys.kernel.(links := sys.kernel.links[link := sys.kernel.links[link] + [ip]]));
      }
      faults := if ok then faults else faults + 1;
    }

    method SetLinkUp(link: string) returns (ok: bool)
      modifies this
      ensures faults >= old(faults) && (!ok ==> faults > old(faults))
      ensures ok ==> sys == Exec(RaiseLink(link), old(sys))
      ensures !ok ==> Torn(RaiseLink(link), old(sys), sys)
    {
      ok := *;
      var lost: bool := *;
      if ok || lost {
        sys := Exec(RaiseLink(link), sys);
      }
      faults := if ok then faults else faults + 1;
    }

    method RouteExists(r: Route) returns (found: Option<bool>)
      modifies this`faults
      ensures faults >= old(faults) && (found.None? ==> faults > old(faults))
      ensures found.Some? ==> found.value == HasRoute(sys.kernel.routes, r)
    {
      if * {
        return Some(HasRoute(sys.kernel.routes, r));
      }
      faults := faults + 1;
      return None;
    }

    method AppendRoute(r: Route) returns (ok: bool)
      modifies this
      ensures faults >= old(faults) && (!ok ==> faults > old(faults))
      ensures var added := old(sys).(kernel := old(sys).kernel.(routes := old(sys).kernel.routes + [r]));
              sys == added || (!ok && sys == old(sys))
    {
      ok := *;
      var lost: bool := *;
      if ok || lost {
        sys := sys.(kernel := sys.kernel.(routes := sys.kernel.routes + [r]));
      }
      faults := if ok then faults else faults + 1;
    }

    method RuleExists(r: Rule) returns (found: Option<bool>)
      modifies this`faults
      ensures faults >= old(faults) && (found.None? ==> faults > old(faults))
      ensures found.Some? ==> found.value == (r in sys.kernel.rules)
    {
      if * {
        return Some(r in sys.kernel.rules);
      }
      faults := faults + 1;
      return None;
    }

    method AppendRule(r: Rule) returns (ok: bool)
      modifies this
      ensures faults >= old(faults) && (!ok ==> faults > old(faults))
      ensures var added := old(sys).(kernel := old(sys).kernel.(rules := InsertRule(old(sys).kernel.rules, r)));
              sys == added || (!ok && sys == old(sys))
    {
      ok := *;
      var lost: bool := *;
      if ok || lost {
        sys := sys.(kernel := sys.kernel.(rules := InsertRule(sys.kernel.rules, r)));
      }
      faults := if ok then faults else faults + 1;
    }

    method GetGateway(network: IPNet) returns (r: Option<IPv4>)
      modifies this`faults
      ensures faults >= old(faults) && (r.None? ==> faults > old(faults))
      ensures r.Some? ==> network in sys.env.gateways && r.value == sys.env.gateways[network]
    {
      var answered: bool := *;
      if network in sys.env.gateways && answered {
        return Some(sys.env.gateways[network]);
      }
      faults := faults + 1;
      return None;
    }

    /** The clock never goes back. */
    method Now() returns (now: nat)
      modifies this`sys
      ensures now >= old(sys).netplan.now
      ensures sys == old(sys).(netplan := old(sys).netplan.(now := now))
    {
      var elapsed :| elapsed >= 0;
      now := sys.netplan.now + elapsed;
      sys := sys.(netplan := sys.netplan.(now := now));
    }

    method ReadStamp() returns (ok: bool, stamp: Option<string>)
      modifies this`faults
      ensures faults >= old(faults) && (!ok ==> faults > old(faults))
      ensures ok ==> stamp == sys.netplan.stamp
    {
      ok, stamp := *, sys.netplan.stamp;
      faults := if ok then faults else faults + 1;
    }

    /** Runs `netplan apply`; a success is recorded with the second it was decided in. */
    method RunNetplan(start: nat) returns (ok: bool)
      modifies this
      ensures faults >= old(faults) && (!ok ==> faults > old(faults))
      ensures !ok ==> sys == old(sys)
      ensures ok ==>
                sys == old(sys).(netplan :=
                  old(sys).netplan.(applies := old(sys).netplan.applies + [Netplan.Apply(start, None)]))
    {
      ok := *;
      if ok {
        sys := sys.(netplan := sys.netplan.(applies := sys.netplan.applies + [Netplan.Apply(start, None)]));
      } else {
        faults := faults + 1;
      }
    }

    /** Writes the stamp; if the write stops early, some prefix of it stays on disk. */
    method WriteStamp(second: nat) returns (ok: bool)
      requires sys.netplan.applies != [] && sys.netplan.applies[|sys.netplan.applies| - 1].stamped.None?
      modifies this
      ensures faults >= old(faults) && (!ok ==> faults > old(faults))
      ensures var before := old(sys).netplan; var text := Itoa(second); var last := |before.applies| - 1;
              if ok then
                sys == old(sys).(netplan :=
                  before.(stamp := Some(text), applies :=
                    before.applies[last := before.applies[last].(stamped := Some(second))]))
              else
                sys == old(sys) || exists n | 0 <= n <= |text| ::
                  sys == old(sys).(netplan := before.(stamp := Some(text[..n])))
    {
      var text := Itoa(second);
      ok := *;
      if ok {
        var applies, last := sys.netplan.applies, |sys.netplan.applies| - 1;
        sys := sys.(netplan :=
          sys.netplan.(stamp := Some(text), applies := applies[last := applies[last].(stamped := Some(second))]));
        return;
      }
      faults := faults + 1;
      var n :| 0 <= n <= |text|;
      if * {
        sys := sys.(netplan := sys.netplan.(stamp := Some(text[..n])));
      }
    }

    method GetHostPFMACAddress() returns (r: Option<string>)
      modifies this`faults
      ensures faults >= old(faults) && (r.None? ==> faults > old(faults))
      ensures r.Some? ==> sys.env.pfMAC == r
    {
      var answered: bool := *;
      if sys.env.pfMAC.Some? && answered {
        return sys.env.pfMAC;
      }
      faults := faults + 1;
      return None;
    }

    method StartDnsmasq(args: seq<string>) returns (ok: bool)
      modifies this
      ensures faults >= old(faults) && (!ok ==> faults > old(faults))
      ensures sys == if ok then old(sys).(servers := old(sys).servers + [args]) else old(sys)
    {
      ok := *;
      if ok {
        sys := sys.(servers := sys.servers + [args]);
      } else {
        faults := faults + 1;
      }
    }
  }

  // ---------------------------------------------------------------------- DHCP arguments

  const GENEVE_HEADER_SIZE := 60
  const MAX_MTU := 9216

  function StaticRouteOption(network: IPNet, gateway: IPv4): string {
    "--dhcp-option=option:classless-static-route," + (PrintNet(network) + "," + PrintIP(gateway))
  }

  function BaseDhcpArgs(network: IPNet, pfIP: IPv4, mtu: int, mac: string): seq<string> {
    ["--keep-in-foreground",
     "--port=0",
     "--log-facility=-",
     "--interface=" + BR_OVN,
     "--dhcp-option=option:router",
     "--dhcp-option=option:mtu," + Itoa(mtu),
     "--dhcp-range=" + (PrintIP(network.ip) + ",static"),
     "--dhcp-host=" + (mac + "," + PrintIP(pfIP))]
  }

  predicate ValidMTU(mtu: int) {
    mtu != GENEVE_HEADER_SIZE && mtu <= MAX_MTU
  }

  /** The command line of the DHCP server, if one can be started. */
  function DhcpArgs(cfg: Config, env: Env): Option<seq<string>> {
    match cfg.mode
    case ExternalIPAM(_) => None
    case InternalIPAM(vtep, gateway, pfIP, ovnMTU) =>
      var mtu := ovnMTU + GENEVE_HEADER_SIZE;
      if env.pfMAC.None? || !ValidMTU(mtu) then None
      else Some(BaseDhcpArgs(Network(vtep), pfIP, mtu, env.pfMAC.value)
                + if SpansSubnets(cfg, vtep) then [StaticRouteOption(cfg.vtepCIDR, gateway)] else [])
  }

  lemma TheseAreDhcpArgs(cfg: Config, env: Env, args: seq<string>)
    requires cfg.mode.InternalIPAM? && env.pfMAC.Some? && ValidMTU(cfg.mode.ovnMTU + GENEVE_HEADER_SIZE)
    requires var m := cfg.mode;
             var base := BaseDhcpArgs(Network(m.vtep), m.pfIP, m.ovnMTU + GENEVE_HEADER_SIZE, env.pfMAC.value);
             args == if SpansSubnets(cfg, m.vtep) then base + [StaticRouteOption(cfg.vtepCIDR, m.gateway)] else base
    ensures DhcpArgs(cfg, env) == Some(args)
  {
    if !SpansSubnets(cfg, cfg.mode.vtep) {
      assert args + [] == args;
    }
  }

  /** Starting the server when none is remembered: it starts with the right arguments or not at all. */
  ghost predicate Starts(cfg: Config, before: Sys, command: Option<seq<string>>, ok: bool, after: Sys,
                         command': Option<seq<string>>) {
    if command.Some? then ok && after == before && command' == command
    else if ok then
      && DhcpArgs(cfg, before.env).Some?
      && command' == DhcpArgs(cfg, before.env)
      && after == before.(servers := before.servers + [command'.value])
    else after == before && command'.None?
  }

  /** One RunOnce: a configuration run and, with internal IPAM and only if it completed, the server. */
  ghost predicate RanOnce(cfg: Config, before: Sys, command: Option<seq<string>>, ok: bool, after: Sys,
                          command': Option<seq<string>>) {
    exists configured: bool, middle: Sys ::
      && Run(cfg, before, configured, middle)
      && if configured && cfg.mode.InternalIPAM? then Starts(cfg, middle, command, ok, after, command')
         else ok == configured && after == middle && command' == command
  }

  // ------------------------------------------------ why a run fails although every call succeeds

  predicate NoSystemID(cfg: Config, inputs: Inputs) {
    cfg.hasHostClient && OvsListing.SystemID(inputs.env.systemIDOutput) == ""
  }

  predicate NoSingleAddress(addresses: Option<seq<IPNet>>) {
    addresses.Some? && |addresses.value| != 1
  }

  /** Without a single address on br-ovn, netplan has been applied, or is in its cooldown. */
  ghost predicate NetworkUnusable(cfg: Config, inputs: Inputs, before: Netplan.State, after: Netplan.State) {
    || (cfg.mode.ExternalIPAM? && NoSingleAddress(inputs.brOVN) && Netplan.Applied(before, after))
    || NoSingleAddress(inputs.flannel) || NoSingleAddress(inputs.oob)
  }

  /** What a run reads is of no use: the only other reason for a run to fail than a failing call. */
  ghost predicate Unusable(cfg: Config, inputs: Inputs, before: Netplan.State, after: Netplan.State) {
    HostName(cfg, inputs.env).None? || NoSystemID(cfg, inputs) || NetworkUnusable(cfg, inputs, before, after)
  }

  lemma NothingToClean(name: string, systemID: string, s: Sys)
    requires name in s.kernel.hosts && !Chassis.NeedsCleanup(s.kernel.hosts[name], systemID)
    ensures Reaches([CleanChassis(name, systemID)], s, true, s)
  {
    ReachesOne(CleanChassis(name, systemID), s, true, s);
  }

  /** A patch computed from a node that was read earlier, whoever wrote to the node since. */
  lemma PatchCleansChassis(name: string, systemID: string, read: Sys, before: Sys, ok: bool, after: Sys)
    requires GoodHosts(read) && name in read.kernel.hosts && Chassis.NeedsCleanup(read.kernel.hosts[name], systemID)
    requires OthersWrote(read, before)
    requires Patched(name, Chassis.CleanupPatch(read.kernel.hosts[name]), before, ok, after)
    ensures Reaches([CleanChassis(name, systemID)], before, ok, after)
  {
    assert Rewritten(read.kernel.hosts[name], before.kernel.hosts[name]);
    Chassis.CleanupServed(read.kernel.hosts[name], before.kernel.hosts[name]);
    ReachesOne(CleanChassis(name, systemID), before, ok, after);
  }

  lemma PatchAmidCleansChassis(name: string, systemID: string, before: Sys, ok: bool, after: Sys)
    requires GoodHosts(before) && name in before.kernel.hosts
    requires Chassis.NeedsCleanup(before.kernel.hosts[name], systemID)
    requires PatchedAmid(name, Chassis.CleanupPatch(before.kernel.hosts[name]), before, ok, after)
    ensures Amid([CleanChassis(name, systemID)], before, ok, after)
  {
    var patch := Chassis.CleanupPatch(before.kernel.hosts[name]);
    var start, end :| OthersWrote(before, start) && Patched(name, patch, start, ok, end) && OthersWrote(end, after);
    PatchCleansChassis(name, systemID, before, start, ok, end);
  }

  lemma PatchKeepsInputs(cfg: Config, name: string, patch: Json.JSON, before: Sys, ok: bool, after: Sys)
    requires name in before.kernel.hosts && PatchedAmid(name, patch, before, ok, after)
    ensures InputsOf(cfg, after) == InputsOf(cfg, before)
  {
    var start, end :| OthersWrote(before, start) && Patched(name, patch, start, ok, end) && OthersWrote(end, after);
    OthersKeepInputs(cfg, before, start);
    SameInputs(cfg, start, end);
    OthersKeepInputs(cfg, end, after);
  }

  lemma SameInputs(cfg: Config, before: Sys, after: Sys)
    requires after.env == before.env && after.kernel.links == before.kernel.links
    requires after.kernel.hosts.Keys == before.kernel.hosts.Keys
    ensures InputsOf(cfg, after) == InputsOf(cfg, before)
  {
  }

  lemma DiscoveryPlanHostFree(cfg: Config, inputs: Inputs)
    ensures HostFree(DiscoveryPlan(cfg, inputs))
  {
    DiscoveryPlanActions(cfg, inputs);
  }

  lemma IdentityPlanHostFree(cfg: Config, inputs: Inputs)
    ensures HostFree(IdentityPlan(cfg, inputs))
  {
    IdentityPlanTouchesNoNode(cfg, inputs);
  }

  lemma HostFreeAppend(p: seq<Action>, q: seq<Action>)
    requires HostFree(p) && HostFree(q)
    ensures HostFree(p + q)
  {
  }

  lemma NetworkPlanHostFree(cfg: Config, inputs: Inputs)
    ensures HostFree(NetworkPlan(cfg, inputs))
  {
    DiscoveryPlanHostFree(cfg, inputs);
    IdentityPlanHostFree(cfg, inputs);
    HostFreeAppend(DiscoveryPlan(cfg, inputs), IdentityPlan(cfg, inputs));
  }

  class DPUCNIProvisioner {
    const cfg: Config
    const host: Host
    var vtepIPNet: Option<IPNet>
    var gateway: Option<IPv4>
    var dhcpCommand: Option<seq<string>>

    /** With internal IPAM the identity is the configured one throughout. */
    ghost predicate Valid()
      reads this
    {
      cfg.mode.InternalIPAM? ==> vtepIPNet == Some(cfg.mode.vtep) && gateway == Some(cfg.mode.gateway)
    }

    constructor (cfg: Config, host: Host)
      ensures this.cfg == cfg && this.host == host && Valid() && dhcpCommand.None?
    {
      this.cfg := cfg;
      this.host := host;
      match cfg.mode {
        case InternalIPAM(vtep, gw, _, _) => vtepIPNet, gateway := Some(vtep), Some(gw);
        case ExternalIPAM(_) => vtepIPNet, gateway := None, None;
      }
      dhcpCommand := None;
    }

    /** What this run reads. */
    ghost function In(): Inputs
      reads host
    {
      InputsOf(cfg, host.sys)
    }

    // ------------------------------------------------------------- the three *IfNot* helpers

    method SetLinkIPAddressIfNotSet(link: string, ip: IPNet) returns (ok: bool)
      modifies host
      ensures host.faults >= old(host.faults) && (!ok ==> host.faults > old(host.faults))
      ensures link == BR_OVN && cfg.mode.InternalIPAM? ==> In() == old(In())
      ensures link !in old(host.sys).kernel.links ==> !ok && host.sys == old(host.sys)
      ensures Reaches([EnsureAddress(link, ip)], old(host.sys), ok, host.sys)
    {
      ghost var before := host.sys;
      var has := host.LinkIPAddressExists(link, ip);
      ok := true;
      if has.None? {
        ok := false;
      } else if !has.value {
        ok := host.SetLinkIPAddress(link, ip);
      }
      ReachesOne(EnsureAddress(link, ip), before, ok, host.sys);
    }

    method AddRouteIfNotExists(r: Route) returns (ok: bool)
      modifies host
      ensures host.faults >= old(host.faults) && (!ok ==> host.faults > old(host.faults))
      ensures In() == old(In())
      ensures Reaches([AddRoute(r)], old(host.sys), ok, host.sys)
    {
      ghost var before := host.sys;
      var has := host.RouteExists(r);
      ok := true;
      if has.None? {
        ok := false;
      } else if !has.value {
        ok := host.AppendRoute(r);
      }
      ReachesOne(AddRoute(r), before, ok, host.sys);
    }

    method AddRuleIfNotExists(r: Rule) returns (ok: bool)
      modifies host
      ensures host.faults >= old(host.faults) && (!ok ==> host.faults > old(host.faults))
      ensures In() == old(In())
      ensures Reaches([AddRule(r)], old(host.sys), ok, host.sys)
    {
      ghost var before := host.sys;
      var has := host.RuleExists(r);
      ok := true;
      if has.None? {
        ok := false;
      } else if !has.value {
        ok := host.AppendRule(r);
      }
      ReachesOne(AddRule(r), before, ok, host.sys);
    }

    method SetText(place: Location, text: string) returns (ok: bool)
      modifies host
      ensures host.faults >= old(host.faults) && (!ok ==> host.faults > old(host.faults))
      ensures In() == old(In())
      ensures host.sys.kernel == old(host.sys.kernel)
      ensures Reaches([World.SetText(place, text)], old(host.sys), ok, host.sys)
    {
      ghost var before := host.sys;
      match place {
        case OvsID(key) => ok := host.SetExternalID(key, text);
        case File(path) => ok := host.WriteFile(path, text);
      }
      ReachesOne(World.SetText(place, text), before, ok, host.sys);
    }

    // -------------------------------------------------------------------- host identity

    method FindAndSetKubernetesHostNameInOVS() returns (ok: bool, hostName: string)
      modifies host
      ensures host.faults >= old(host.faults)
      ensures !ok ==> host.faults > old(host.faults) || HostName(cfg, host.sys.env).None?
      ensures In() == old(In()) && host.sys.kernel == old(host.sys.kernel)
      ensures HostName(cfg, host.sys.env).None? ==> !ok && Reaches([Fail], old(host.sys), false, host.sys)
      ensures HostName(cfg, host.sys.env).Some? ==>
                && Reaches(NamePlan(HostName(cfg, host.sys.env).value), old(host.sys), ok, host.sys)
                && (ok ==> hostName == HostName(cfg, host.sys.env).value)
    {
      ghost var before := host.sys;
      ok, hostName := false, "";
      ReachesFailed([Fail], before);
      ghost var known := HostName(cfg, before.env);
      if known.Some? {
        ReachesFailed(NamePlan(known.value), before);
      }
      var labels := host.GetNodeLabels(cfg.dpuHostName);
      if labels.None? {
        return;
      }
      var raw := "";
      if DPU_NODE_LABEL in labels.value {
        raw := labels.value[DPU_NODE_LABEL];
      } else if LEGACY_HOST_LABEL in labels.value {
        raw := labels.value[LEGACY_HOST_LABEL];
      } else {
        assert TrimSpace("") == "";
        return;
      }
      hostName := TrimSpace(raw);
      if hostName == "" {
        return;
      }
      ghost var p, q :=
        [World.SetText(OvsID("host-k8s-nodename"), hostName)], [World.SetText(OvsID("hostname"), hostName)];
      assert NamePlan(hostName) == p + q;
      ok := SetText(OvsID("host-k8s-nodename"), hostName);
      if !ok {
        ReachesStopped(p, q, before, host.sys);
        return;
      }
      ghost var middle := host.sys;
      ok := SetText(OvsID("hostname"), hostName);
      ReachesThen(p, q, before, middle, ok, host.sys);
    }

    method WriteHostIdentityBootstrapArtifacts(hostName: string) returns (ok: bool)
      modifies host
      ensures host.faults >= old(host.faults) && (!ok ==> host.faults > old(host.faults))
      ensures In() == old(In()) && host.sys.kernel == old(host.sys.kernel)
      ensures Reaches(BootstrapPlan(cfg, hostName), old(host.sys), ok, host.sys)
    {
      ghost var before := host.sys;
      var server := TrimSpace(cfg.k8sAPIServer);
      if server == "" {
        ReachesNothing(before);
        return true;
      }
      var nodeNamePath := if cfg.nodeNamePath == "" then DEFAULT_NODE_NAME_PATH else cfg.nodeNamePath;
      var bootstrapPath := if cfg.bootstrapPath == "" then DEFAULT_BOOTSTRAP_PATH else cfg.bootstrapPath;
      ghost var p := [World.SetText(File(nodeNamePath), hostName + "\n")];
      ghost var q := [World.SetText(File(bootstrapPath), BootstrapText(server, hostName))];
      assert BootstrapPlan(cfg, hostName) == p + q;
      ok := SetText(File(nodeNamePath), hostName + "\n");
      if !ok {
        ReachesStopped(p, q, before, host.sys);
        return;
      }
      ghost var middle := host.sys;
      ok := SetText(File(bootstrapPath), BootstrapText(server, hostName));
      ReachesThen(p, q, before, middle, ok, host.sys);
    }

    /** Reads the host's node and removes a stale chassis annotation. Others may write to the node before
        the read, between the read and the patch, and after it; the reconciliation is still one atomic
        action among theirs. */
    method ReconcileHostNodeChassisID(hostName: string) returns (ok: bool)
      requires GoodHosts(host.sys)
      modifies host
      ensures host.faults >= old(host.faults)
      ensures !ok ==> host.faults > old(host.faults) || NoSystemID(cfg, In())
      ensures In() == old(In())
      ensures Amid(ChassisPlan(cfg, In(), hostName), old(host.sys), ok, host.sys)
    {
      ghost var before := host.sys;
      ghost var plan := ChassisPlan(cfg, In(), hostName);
      if !cfg.hasHostClient {
        ReachesNothing(before);
        Undisturbed(plan, before, true, before);
        return true;
      }
      ReachesFailed(plan, before);
      Undisturbed(plan, before, false, before);
      var out := host.GetSystemIDOutput();
      if out.None? {
        return false;
      }
      var systemID := OvsListing.SystemID(out.value);
      if systemID == "" {
        return false;
      }
      var node := host.GetHostNode(hostName);
      OthersKeepInputs(cfg, before, host.sys);
      if node.None? {
        FailedAmid(plan, before, host.sys);
        return false;
      }
      assert plan == [CleanChassis(hostName, systemID)];
      ghost var read := host.sys;
      OthersKeepGoodHosts(before, read);
      ok := RemoveStaleChassisID(hostName, systemID, node.value);
      AmidLater(plan, before, read, ok, host.sys);
    }

    /** The part of the reconciliation after the read. */
    method RemoveStaleChassisID(hostName: string, systemID: string, node: Chassis.HostNode) returns (ok: bool)
      requires GoodHosts(host.sys) && hostName in host.sys.kernel.hosts && host.sys.kernel.hosts[hostName] == node
      modifies host
      ensures host.faults >= old(host.faults) && (!ok ==> host.faults > old(host.faults))
      ensures In() == old(In())
      ensures Amid([CleanChassis(hostName, systemID)], old(host.sys), ok, host.sys)
    {
      ghost var before := host.sys;
      var current := Chassis.ChassisOf(node);
      if current == "" || current == systemID {
        NothingToClean(hostName, systemID, before);
        Undisturbed([CleanChassis(hostName, systemID)], before, true, before);
        return true;
      }
      ok := host.PatchHostNode(hostName, Chassis.CleanupPatch(node));
      PatchAmidCleansChassis(hostName, systemID, before, ok, host.sys);
      PatchKeepsInputs(cfg, hostName, Chassis.CleanupPatch(node), before, ok, host.sys);
    }

    // ------------------------------------------------------------------ br-ovn discovery

    /** Runs `netplan apply` unless a recent one succeeded. */
    method RunNetplanApply() returns (ok: bool)
      modifies host
      ensures host.faults >= old(host.faults)
      ensures host.faults == old(host.faults) ==> Netplan.Applied(old(host.sys).netplan, host.sys.netplan)
      ensures host.sys == old(host.sys).(netplan := host.sys.netplan)
      ensures Netplan.Attempted(old(host.sys).netplan, host.sys.netplan)
    {
      ghost var before := host.sys.netplan;
      var read, stamp := host.ReadStamp();
      if !read {
        assert host.sys.netplan == Netplan.Attempt(before, before.now, before.now, Netplan.ReadFails);
        return false;
      }
      var last := 0;
      if stamp.GetOr("") != "" {
        var parsed := Atoi(stamp.value);
        if parsed.None? {
          assert host.sys.netplan == Netplan.Attempt(before, before.now, before.now, Netplan.Completes);
          return false;
        }
        last := parsed.value;
      }
      assert Netplan.StampValue(stamp) == Some(last);
      var checked := host.Now();
      if Netplan.CoolingDown(last, checked) {
        assert host.sys.netplan == Netplan.Attempt(before, checked, checked, Netplan.Completes);
        return true;
      }
      ok := host.RunNetplan(Netplan.Seconds(checked));
      if !ok {
        assert host.sys.netplan == Netplan.Attempt(before, checked, checked, Netplan.CommandFails);
        return;
      }
      var written := host.Now();
      var second := Netplan.Seconds(written);
      ghost var ran := host.sys.netplan;
      assert ran.applies == before.applies + [Netplan.Apply(Netplan.Seconds(checked), None)];
      ok := host.WriteStamp(second);
      if ok {
        assert host.sys.netplan == Netplan.Attempt(before, checked, written, Netplan.Completes);
      } else if host.sys.netplan == ran {
        assert host.sys.netplan == Netplan.Attempt(before, checked, written, Netplan.OpenFails);
      } else {
        ghost var text := Itoa(second);
        ghost var n: nat :| n <= |text| && host.sys.netplan == ran.(stamp := Some(text[..n]));
        assert n == |text| ==> text[..n] == text;
        assert host.sys.netplan == Netplan.Attempt(before, checked, written, Netplan.Torn(n));
      }
    }

    /** Asks for an address for br-ovn and adopts the one it has. */
    method ConfigureBROVN() returns (ok: bool)
      requires cfg.mode.ExternalIPAM?
      modifies this`vtepIPNet, this`gateway, host
      ensures host.faults >= old(host.faults)
      ensures !ok ==>
                || host.faults > old(host.faults)
                || (NoSingleAddress(In().brOVN) && Netplan.Applied(old(host.sys).netplan, host.sys.netplan))
      ensures In() == old(In())
      ensures Reaches(DiscoveryPlan(cfg, In()), old(host.sys), ok, host.sys)
      ensures ok ==> vtepIPNet.Some? && gateway.Some? && Identity(cfg, In()) == Some((vtepIPNet.value, gateway.value))
    {
      ghost var before := host.sys;
      ghost var p := [World.SetText(File(NETPLAN_PATH), NETPLAN_TEXT)];
      ghost var rest := DiscoveryPlan(cfg, In())[1..];
      assert DiscoveryPlan(cfg, In()) == p + rest;
      ok := SetText(File(NETPLAN_PATH), NETPLAN_TEXT);
      if !ok {
        ReachesStopped(p, rest, before, host.sys);
        return;
      }
      ghost var middle := host.sys;
      if rest == [] {
        assert p + rest == p;
        ReachesLate(p, before, middle);
      } else {
        ReachesFailed(rest, middle);
        ReachesThen(p, rest, before, middle, false, middle);
      }
      var addresses := host.GetLinkIPAddresses(BR_OVN);
      if addresses.None? {
        return false;
      }
      if |addresses.value| != 1 {
        ok := RunNetplanApply();
        assert rest == [ApplyNetplan];
        ReachesOne(ApplyNetplan, middle, false, host.sys);
        ReachesThen(p, rest, before, middle, false, host.sys);
        return false;
      }
      vtepIPNet := Some(addresses.value[0]);
      var found := host.GetGateway(cfg.mode.discovery);
      if found.None? {
        return false;
      }
      gateway := found;
      return true;
    }

    // ---------------------------------------------------------------------- connectivity

    /** The network of an address, found by printing it and parsing the text again. */
    method NetworkOf(address: IPNet) returns (network: IPNet)
      ensures network == Network(address)
    {
      ParsePrintedNet(address);
      var parsed := ParseCIDR(PrintNet(address));
      network := parsed.value.1;
    }

    /** Whether the network of br-ovn is another one than the VTEP CIDR, judging by their texts. */
    method NeedsVtepRoute(vtep: IPNet) returns (needs: bool)
      ensures needs == SpansSubnets(cfg, vtep)
    {
      var network := NetworkOf(vtep);
      needs := PrintNet(network) != PrintNet(cfg.vtepCIDR);
    }

    method ConfigureLink() returns (ok: bool)
      requires Valid() && cfg.mode.InternalIPAM?
      modifies host
      ensures host.faults >= old(host.faults) && (!ok ==> host.faults > old(host.faults))
      ensures In() == old(In())
      ensures Reaches(LinkPlan(cfg, In(), cfg.mode.vtep, cfg.mode.gateway), old(host.sys), ok, host.sys)
    {
      ghost var before := host.sys;
      ghost var plan := LinkPlan(cfg, In(), vtepIPNet.value, gateway.value);
      ReachesFailed(plan, before);
      ghost var a, b := [EnsureAddress(BR_OVN, vtepIPNet.value)], [RaiseLink(BR_OVN)];
      ghost var c := if SpansSubnets(cfg, vtepIPNet.value) then [AddRoute(VtepRoute(cfg, gateway.value))] else [];
      ok := SetLinkIPAddressIfNotSet(BR_OVN, vtepIPNet.value);
      if !ok {
        ReachesStopped(a, b + c, before, host.sys);
        assert BR_OVN in before.kernel.links ==> plan == a + (b + c);
        return;
      }
      assert plan == a + (b + c);
      ghost var middle := host.sys;
      ok := RaiseLinkAndAddRoute();
      ReachesThen(a, b + c, before, middle, ok, host.sys);
    }

    /** The part after the address: the link goes up and, between subnets, the route to other VTEPs is added. */
    method RaiseLinkAndAddRoute() returns (ok: bool)
      requires Valid() && cfg.mode.InternalIPAM?
      modifies host
      ensures host.faults >= old(host.faults) && (!ok ==> host.faults > old(host.faults))
      ensures In() == old(In())
      ensures Reaches([RaiseLink(BR_OVN)]
                      + (if SpansSubnets(cfg, cfg.mode.vtep) then [AddRoute(VtepRoute(cfg, cfg.mode.gateway))] else []),
                      old(host.sys), ok, host.sys)
    {
      ghost var before := host.sys;
      ghost var b := [RaiseLink(BR_OVN)];
      ghost var c := if SpansSubnets(cfg, vtepIPNet.value) then [AddRoute(VtepRoute(cfg, gateway.value))] else [];
      ok := host.SetLinkUp(BR_OVN);
      ReachesOne(RaiseLink(BR_OVN), before, ok, host.sys);
      if !ok {
        ReachesStopped(b, c, before, host.sys);
        return;
      }
      ghost var middle := host.sys;
      var needs := NeedsVtepRoute(vtepIPNet.value);
      if needs {
        ok := AddRouteIfNotExists(VtepRoute(cfg, gateway.value));
      } else {
        ReachesNothing(middle);
      }
      ReachesThen(b, c, before, middle, ok, host.sys);
    }

    method ConfigurePodToPodOnDifferentNodeConnectivity() returns (ok: bool)
      requires Valid() && vtepIPNet.Some? && gateway.Some?
      modifies host
      ensures host.faults >= old(host.faults) && (!ok ==> host.faults > old(host.faults))
      ensures In() == old(In())
      ensures Reaches(ConnectivityPlan(cfg, In(), vtepIPNet.value, gateway.value), old(host.sys), ok, host.sys)
    {
      ghost var before := host.sys;
      ghost var a := LinkPlan(cfg, In(), vtepIPNet.value, gateway.value);
      ghost var b := [AddRoute(HostRoute(cfg, gateway.value))];
      ghost var c := [World.SetText(OvsID("ovn-encap-ip"), PrintIP(vtepIPNet.value.ip))];
      assert ConnectivityPlan(cfg, In(), vtepIPNet.value, gateway.value) == a + (b + c);
      ok := true;
      if cfg.mode.InternalIPAM? {
        ok := ConfigureLink();
      } else {
        ReachesNothing(before);
      }
      if !ok {
        ReachesStopped(a, b + c, before, host.sys);
        return;
      }
      ghost var s1 := host.sys;
      ok := AddRouteIfNotExists(HostRoute(cfg, gateway.value));
      if !ok {
        ReachesStopped(b, c, s1, host.sys);
        ReachesThen(a, b + c, before, s1, false, host.sys);
        return;
      }
      ghost var s2 := host.sys;
      ok := SetText(OvsID("ovn-encap-ip"), PrintIP(vtepIPNet.value.ip));
      ReachesThen(b, c, s1, s2, ok, host.sys);
      ReachesThen(a, b + c, before, s1, ok, host.sys);
    }

    method WriteFilesForOVN() returns (ok: bool)
      requires vtepIPNet.Some? && gateway.Some?
      modifies host
      ensures host.faults >= old(host.faults) && (!ok ==> host.faults > old(host.faults))
      ensures In() == old(In())
      ensures Reaches(ConfPlan(cfg, vtepIPNet.value, gateway.value), old(host.sys), ok, host.sys)
    {
      var network := NetworkOf(vtepIPNet.value);
      var content := "[Gateway]\n";
      content := content + ("next-hop=" + PrintIP(gateway.value) + "\n");
      content := content + ("router-subnet=" + PrintNet(network) + "\n");
      var namespace, lease := "", "";
      if cfg.ovnNamespace.Some? {
        namespace := "\n[kubernetes]\n";
        namespace := namespace + ("ovn-config-namespace=" + cfg.ovnNamespace.value + "\n");
      }
      content := content + namespace;
      if cfg.lease.Some? {
        lease := "\n[ovnkubenode]\n";
        lease := lease + ("dpu-node-lease-renew-interval=" + Itoa(cfg.lease.value.0) + "\n");
        lease := lease + ("dpu-node-lease-duration=" + Itoa(cfg.lease.value.1) + "\n");
      }
      content := content + lease;
      assert content == ConfText(cfg, vtepIPNet.value, gateway.value);
      ok := SetText(File(OVN_CONF_PATH), content);
    }

    // ----------------------------------------------------------------- symmetric routing

    method ConfigureSymmetricRouting() returns (ok: bool)
      modifies host
      ensures host.faults >= old(host.faults)
      ensures !ok ==> host.faults > old(host.faults) || NoSingleAddress(In().flannel) || NoSingleAddress(In().oob)
      ensures In() == old(In())
      ensures Reaches(SymmetricPlan(cfg, In()), old(host.sys), ok, host.sys)
    {
      ghost var before := host.sys;
      ReachesFailed(SymmetricPlan(cfg, In()), before);
      var flannel := host.GetLinkIPAddresses(FLANNEL_LINK);
      if flannel.None? || |flannel.value| != 1 {
        return false;
      }
      var flannelNetwork := NetworkOf(flannel.value[0]);
      var rule := Rule(FLANNEL_PRIORITY, flannelNetwork, SOURCE_TABLE);
      ok := AddRuleIfNotExists(rule);
      if !ok {
        ReachesStopped([AddRule(rule)], OOBPlan(cfg, In()), before, host.sys);
        return;
      }
      ghost var middle := host.sys;
      ok := ConfigureOOBRouting();
      ReachesThen([AddRule(rule)], OOBPlan(cfg, In()), before, middle, ok, host.sys);
    }

    method ConfigureOOBRouting() returns (ok: bool)
      modifies host
      ensures host.faults >= old(host.faults)
      ensures !ok ==> host.faults > old(host.faults) || NoSingleAddress(In().oob)
      ensures In() == old(In())
      ensures Reaches(OOBPlan(cfg, In()), old(host.sys), ok, host.sys)
    {
      ghost var before := host.sys;
      ReachesFailed(OOBPlan(cfg, In()), before);
      var oob := host.GetLinkIPAddresses(OOB_LINK);
      if oob.None? || |oob.value| != 1 {
        return false;
      }
      var rule := Rule(OOB_PRIORITY, Single(oob.value[0].ip), SOURCE_TABLE);
      ghost var rest := OOBPlan(cfg, In())[1..];
      assert OOBPlan(cfg, In()) == [AddRule(rule)] + rest;
      ok := AddRuleIfNotExists(rule);
      if !ok {
        ReachesStopped([AddRule(rule)], rest, before, host.sys);
        return;
      }
      ghost var middle := host.sys;
      ReachesFailed(rest, middle);
      ReachesThen([AddRule(rule)], rest, before, middle, false, middle);
      var defaultGateway := host.GetGateway(EVERYTHING);
      if defaultGateway.None? {
        return false;
      }
      ok := AddRouteIfNotExists(Route(cfg.vtepCIDR, defaultGateway.value, OOB_LINK, 0, SOURCE_TABLE));
      ReachesThen([AddRule(rule)], rest, before, middle, ok, host.sys);
    }

    // -------------------------------------------------------------------------- the runs

    /** The part of a run that concerns the identity of the host. */
    method ConfigureHost() returns (ok: bool)
      requires GoodHosts(host.sys)
      modifies host
      ensures host.faults >= old(host.faults)
      ensures !ok ==> host.faults > old(host.faults) || HostName(cfg, In().env).None? || NoSystemID(cfg, In())
      ensures In() == old(In())
      ensures Amid(HostPlan(cfg, In()), old(host.sys), ok, host.sys)
    {
      ghost var before := host.sys;
      ghost var plan := HostPlan(cfg, In());
      var hostName;
      ok, hostName := FindAndSetKubernetesHostNameInOVS();
      ghost var known := HostName(cfg, before.env);
      if known.Some? {
        var rest := BootstrapPlan(cfg, known.value) + ChassisPlan(cfg, In(), known.value);
        if !ok {
          ReachesStopped(NamePlan(known.value), rest, before, host.sys);
        }
      }
      if !ok {
        Undisturbed(plan, before, false, host.sys);
        return;
      }
      ghost var a, b, c := NamePlan(hostName), BootstrapPlan(cfg, hostName), ChassisPlan(cfg, In(), hostName);
      ghost var middle := host.sys;
      ok := ConfigureNamedHost(hostName);
      ReachesThenAmid(a, b + c, before, middle, ok, host.sys);
    }

    /** The part of a run that needs the host's name. */
    method ConfigureNamedHost(hostName: string) returns (ok: bool)
      requires GoodHosts(host.sys)
      modifies host
      ensures host.faults >= old(host.faults)
      ensures !ok ==> host.faults > old(host.faults) || NoSystemID(cfg, In())
      ensures In() == old(In())
      ensures Amid(BootstrapPlan(cfg, hostName) + ChassisPlan(cfg, In(), hostName), old(host.sys), ok, host.sys)
    {
      ghost var before := host.sys;
      ghost var b, c := BootstrapPlan(cfg, hostName), ChassisPlan(cfg, In(), hostName);
      ok := WriteHostIdentityBootstrapArtifacts(hostName);
      if !ok {
        ReachesStopped(b, c, before, host.sys);
        Undisturbed(b + c, before, false, host.sys);
        return;
      }
      ghost var middle := host.sys;
      ok := ReconcileHostNodeChassisID(hostName);
      ReachesThenAmid(b, c, before, middle, ok, host.sys);
    }

    /** The part of a run from the discovery of br-ovn on. */
    method ConfigureNetwork() returns (ok: bool)
      requires Valid()
      modifies this`vtepIPNet, this`gateway, host
      ensures host.faults >= old(host.faults)
      ensures !ok ==>
                || host.faults > old(host.faults)
                || NetworkUnusable(cfg, In(), old(host.sys).netplan, host.sys.netplan)
      ensures Valid()
      ensures In() == old(In())
      ensures Reaches(NetworkPlan(cfg, In()), old(host.sys), ok, host.sys)
    {
      ghost var before := host.sys;
      ghost var d, e := DiscoveryPlan(cfg, In()), IdentityPlan(cfg, In());
      ok := true;
      if cfg.mode.ExternalIPAM? {
        ok := ConfigureBROVN();
      } else {
        ReachesNothing(before);
      }
      if !ok {
        ReachesStopped(d, e, before, host.sys);
        return;
      }
      ghost var s1 := host.sys;
      ok := ConfigureWithIdentity();
      ReachesThen(d, e, before, s1, ok, host.sys);
    }

    /** The part of a run after the address of br-ovn and the gateway are known. */
    method ConfigureWithIdentity() returns (ok: bool)
      requires Valid() && vtepIPNet.Some? && gateway.Some?
      requires Identity(cfg, In()) == Some((vtepIPNet.value, gateway.value))
      modifies host
      ensures host.faults >= old(host.faults)
      ensures !ok ==> host.faults > old(host.faults) || NoSingleAddress(In().flannel) || NoSingleAddress(In().oob)
      ensures In() == old(In())
      ensures Reaches(IdentityPlan(cfg, In()), old(host.sys), ok, host.sys)
    {
      ghost var before := host.sys;
      ghost var vtep, gw := vtepIPNet.value, gateway.value;
      ghost var f, g, k := ConnectivityPlan(cfg, In(), vtep, gw), ConfPlan(cfg, vtep, gw), SymmetricPlan(cfg, In());
      assert IdentityPlan(cfg, In()) == f + (g + k);
      ok := ConfigurePodToPodOnDifferentNodeConnectivity();
      if !ok {
        ReachesStopped(f, g + k, before, host.sys);
        return;
      }
      ghost var s1 := host.sys;
      ok := WriteFilesForOVN();
      if !ok {
        ReachesStopped(g, k, s1, host.sys);
        ReachesThen(f, g + k, before, s1, false, host.sys);
        return;
      }
      ghost var s2 := host.sys;
      ok := ConfigureSymmetricRouting();
      ReachesThen(g, k, s1, s2, ok, host.sys);
      ReachesThen(f, g + k, before, s1, ok, host.sys);
    }

    /** One configuration run: it performs the plan for what it reads, whatever was remembered from
        earlier runs, with other clients of the host cluster writing at any moment. */
    method Configure() returns (ok: bool)
      requires Valid() && GoodHosts(host.sys)
      modifies this`vtepIPNet, this`gateway, host
      ensures host.faults >= old(host.faults)
      ensures !ok ==>
                || host.faults > old(host.faults)
                || Unusable(cfg, In(), old(host.sys).netplan, host.sys.netplan)
      ensures Valid() && GoodHosts(host.sys)
      ensures In() == old(In())
      ensures Run(cfg, old(host.sys), ok, host.sys)
    {
      ghost var before := host.sys;
      ghost var p, q := HostPlan(cfg, In()), NetworkPlan(cfg, In());
      ok := ConfigureHost();
      if !ok {
        AmidStopped(p, q, before, host.sys);
        Convergence.RunKeepsGoodHosts(cfg, before, ok, host.sys);
        return;
      }
      ghost var middle := host.sys;
      ok := ConfigureNetwork();
      NetworkPlanHostFree(cfg, In());
      AmidThenReaches(p, q, before, middle, ok, host.sys);
      Convergence.RunKeepsGoodHosts(cfg, before, ok, host.sys);
    }

    /** The configuration loop, for the ticks that come before the process is told to stop: each tick is
        one run, and a run that fails is only logged. */
    method EnsureConfiguration(ticks: nat) returns (ghost states: seq<Sys>)
      requires Valid() && GoodHosts(host.sys)
      modifies this`vtepIPNet, this`gateway, host
      ensures Valid() && GoodHosts(host.sys)
      ensures History(cfg, states) && AllTicked(cfg, states, ticks)
      ensures states[0] == old(host.sys) && states[2 * ticks] == host.sys
    {
      states := [host.sys];
      for tick := 0 to ticks
        invariant Valid() && GoodHosts(host.sys)
        invariant History(cfg, states) && AllTicked(cfg, states, tick)
        invariant states[0] == old(host.sys) && states[2 * tick] == host.sys
      {
        host.Wait();
        ghost var before, earlier := host.sys, states;
        ChainGrows(states, StepOf(cfg), before);
        states := states + [before];
        var ok := Configure();
        assert Step(cfg, before, host.sys);
        ChainGrows(states, StepOf(cfg), host.sys);
        TicksGrow(cfg, earlier, tick, before, host.sys);
        states := states + [host.sys];
      }
    }

    method StartDHCPServer() returns (ok: bool)
      requires Valid() && cfg.mode.InternalIPAM?
      modifies this`dhcpCommand, host
      ensures host.faults >= old(host.faults)
      ensures !ok ==> host.faults > old(host.faults) || !ValidMTU(cfg.mode.ovnMTU + GENEVE_HEADER_SIZE)
      ensures Starts(cfg, old(host.sys), old(dhcpCommand), ok, host.sys, dhcpCommand)
    {
      if dhcpCommand.Some? {
        return true;
      }
      var mac := host.GetHostPFMACAddress();
      if mac.None? {
        return false;
      }
      var args := BuildDhcpArgs(mac.value, host.sys.env);
      if args.None? {
        return false;
      }
      ok := host.StartDnsmasq(args.value);
      if ok {
        dhcpCommand := args;
      }
    }

    /** The command line, or nothing if the MTU of the PF is out of range. */
    method BuildDhcpArgs(mac: string, ghost env: Env) returns (args: Option<seq<string>>)
      requires Valid() && cfg.mode.InternalIPAM?
      requires env.pfMAC == Some(mac)
      ensures args == DhcpArgs(cfg, env)
    {
      var network := NetworkOf(vtepIPNet.value);
      var mtu := cfg.mode.ovnMTU + GENEVE_HEADER_SIZE;
      if mtu == GENEVE_HEADER_SIZE || mtu > MAX_MTU {
        return None;
      }
      var line := BaseDhcpArgs(network, cfg.mode.pfIP, mtu, mac);
      if PrintNet(network) != PrintNet(cfg.vtepCIDR) {
        line := line + [StaticRouteOption(cfg.vtepCIDR, gateway.value)];
      }
      TheseAreDhcpArgs(cfg, env, line);
      return Some(line);
    }

    method RunOnce() returns (ok: bool)
      requires Valid() && GoodHosts(host.sys)
      modifies this`vtepIPNet, this`gateway, this`dhcpCommand, host
      ensures host.faults >= old(host.faults)
      ensures !ok ==>
                || host.faults > old(host.faults)
                || Unusable(cfg, In(), old(host.sys).netplan, host.sys.netplan)
                || (cfg.mode.InternalIPAM? && !ValidMTU(cfg.mode.ovnMTU + GENEVE_HEADER_SIZE))
      ensures Valid() && GoodHosts(host.sys)
      ensures RanOnce(cfg, old(host.sys), old(dhcpCommand), ok, host.sys, dhcpCommand)
    {
      ok := Configure();
      ghost var middle := host.sys;
      ghost var configured := ok;
      if !ok {
        return;
      }
      if cfg.mode.InternalIPAM? {
        ok := StartDHCPServer();
      }
    }
  }
}
