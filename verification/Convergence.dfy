/** Configuration runs may stop at any external call, in any number, and be tried again: the first run
    that completes leaves exactly what a single complete run would have left. */
module Convergence {
  import opened Net
  import opened Routing
  import opened World
  import opened PlanParts
  import Chassis
  import opened Interference

  // ------------------------------------------------------------- actions that are done

  /** The effect of an action is in place. */
  predicate Settled(a: Action, k: Kernel) {
    match a
    case EnsureAddress(link, ip) => link in k.links ==> ip in k.links[link]
    case RaiseLink(link) => link in k.up
    case AddRoute(r) => HasRoute(k.routes, r)
    case AddRule(r) => r in k.rules
    case CleanChassis(host, id) => host in k.hosts ==> !Chassis.NeedsCleanup(k.hosts[host], id)
    case _ => true
  }

  lemma SettledAfter(a: Action, k: Kernel)
    ensures Settled(a, ExecKernel(a, k))
  {
    match a
    case AddRoute(r) =>
      if !HasRoute(k.routes, r) {
        assert SameRoute((k.routes + [r])[|k.routes|], r);
      }
    case AddRule(r) => InsertContents(k.rules, r);
    case _ =>
  }

  lemma SettledStays(a: Action, b: Action, k: Kernel)
    requires Settled(a, k)
    ensures Settled(a, ExecKernel(b, k))
  {
    if b.AddRule? {
      InsertContents(k.rules, b.rule);
    }
    if a.AddRoute? && b.AddRoute? {
      var i :| 0 <= i < |k.routes| && SameRoute(k.routes[i], a.route);
      assert ExecKernel(b, k).routes[i] == k.routes[i];
    }
  }

  lemma SettledIdle(a: Action, k: Kernel)
    requires Settled(a, k)
    ensures ExecKernel(a, k) == k
  {
    if a.RaiseLink? {
      assert k.up + {a.link} == k.up;
    }
  }

  lemma {:induction false} PlanSettles(plan: seq<Action>, k: Kernel)
    ensures forall i | 0 <= i < |plan| :: Settled(plan[i], KernelAfter(plan, k))
  {
    if plan != [] {
      var front, last := plan[..|plan| - 1], plan[|plan| - 1];
      PlanSettles(front, k);
      SettledAfter(last, KernelAfter(front, k));
      forall i | 0 <= i < |front| ensures Settled(plan[i], KernelAfter(plan, k)) {
        assert plan[i] == front[i];
        SettledStays(front[i], last, KernelAfter(front, k));
      }
    }
  }

  lemma {:induction false} SettledPlanIdle(plan: seq<Action>, k: Kernel)
    requires forall i | 0 <= i < |plan| :: Settled(plan[i], k)
    ensures KernelAfter(plan, k) == k
  {
    if plan != [] {
      SettledPlanIdle(plan[..|plan| - 1], k);
      SettledIdle(plan[|plan| - 1], k);
    }
  }

  /** Starting over after a prefix of the plan ends where a run from the start ends. */
  lemma KernelRedo(plan: seq<Action>, n: nat, k: Kernel)
    requires n <= |plan|
    ensures KernelAfter(plan, KernelAfter(plan[..n], k)) == KernelAfter(plan, k)
  {
    var middle := KernelAfter(plan[..n], k);
    PlanSettles(plan[..n], k);
    SettledPlanIdle(plan[..n], middle);
    assert plan == plan[..n] + plan[n..];
    KernelAfterAppend(plan[..n], plan[n..], middle);
    KernelAfterAppend(plan[..n], plan[n..], k);
  }

  // -------------------------------------------------------------------- overwriting

  /** What a plan writes, wherever it starts from. */
  function Written(plan: seq<Action>): map<Location, string> {
    StoreAfter(plan, map[])
  }

  lemma {:induction false} StoreIsOverwritten(plan: seq<Action>, store: map<Location, string>)
    ensures StoreAfter(plan, store) == store + Written(plan)
  {
    if plan != [] {
      StoreIsOverwritten(plan[..|plan| - 1], store);
    }
  }

  lemma WrittenPrefix(plan: seq<Action>, n: nat)
    requires n <= |plan|
    ensures Written(plan[..n]).Keys <= Written(plan).Keys
  {
    assert plan == plan[..n] + plan[n..];
    StoreAfterAppend(plan[..n], plan[n..], map[]);
    StoreIsOverwritten(plan[n..], Written(plan[..n]));
  }

  /** Whatever a stopped run left at the places the plan writes is overwritten by the next run. */
  lemma StoreRedo(plan: seq<Action>, store: map<Location, string>, left: map<Location, string>)
    requires left.Keys <= store.Keys + Written(plan).Keys && store.Keys <= left.Keys
    requires forall p | p in store && p !in Written(plan) :: left[p] == store[p]
    ensures StoreAfter(plan, left) == StoreAfter(plan, store)
  {
    StoreIsOverwritten(plan, store);
    StoreIsOverwritten(plan, left);
    assert left + Written(plan) == store + Written(plan);
  }

  lemma StoreRedoPrefix(plan: seq<Action>, n: nat, store: map<Location, string>)
    requires n <= |plan|
    ensures StoreAfter(plan, StoreAfter(plan[..n], store)) == StoreAfter(plan, store)
  {
    StoreIsOverwritten(plan[..n], store);
    WrittenPrefix(plan, n);
    StoreRedo(plan, store, StoreAfter(plan[..n], store));
  }

  lemma StoreRedoTorn(plan: seq<Action>, n: nat, store: map<Location, string>, text: string)
    requires n < |plan| && plan[n].SetText?
    ensures StoreAfter(plan, StoreAfter(plan[..n], store)[plan[n].place := text]) == StoreAfter(plan, store)
  {
    StoreIsOverwritten(plan[..n], store);
    WrittenPrefix(plan, n);
    WrittenPrefix(plan, n + 1);
    assert plan[..n + 1][..n] == plan[..n] && plan[..n + 1][n] == plan[n];
    StoreRedo(plan, store, StoreAfter(plan[..n], store)[plan[n].place := text]);
  }

  // ------------------------------------------------------------------- stopped runs

  /** A complete run after a stopped one ends as if the stopped one had not happened. */
  lemma StoppedRunAbsorbed(plan: seq<Action>, n: nat, before: Sys, after: Sys)
    requires Unblocked(plan) && n < |plan| && StopsAt(plan, n, before, after)
    ensures ExecAll(plan, after) == ExecAll(plan, before)
  {
    var middle := ExecAll(plan[..n], before);
    KernelRedo(plan, n, before.kernel);
    KernelRedo(plan, n + 1, before.kernel);
    assert !Blocking(plan[n]);
    assert plan[..n + 1][..n] == plan[..n] && plan[..n + 1][n] == plan[n];
    if plan[n].SetText? {
      if after == middle {
        StoreRedoPrefix(plan, n, before.store);
      } else {
        StoreRedoTorn(plan, n, before.store, after.store[plan[n].place]);
        assert after.store == middle.store[plan[n].place := after.store[plan[n].place]];
      }
    } else {
      StoreRedoPrefix(plan, n, before.store);
      StoreRedoPrefix(plan, n + 1, before.store);
    }
  }

  lemma RunAbsorbed(plan: seq<Action>, before: Sys, ok: bool, after: Sys)
    requires Unblocked(plan) && Reaches(plan, before, ok, after)
    ensures ExecAll(plan, after) == ExecAll(plan, before)
  {
    if ok {
      assert plan[..|plan|] == plan;
      KernelRedo(plan, |plan|, before.kernel);
      StoreRedoPrefix(plan, |plan|, before.store);
    } else {
      var n :| 0 <= n < |plan| && StopsAt(plan, n, before, after);
      StoppedRunAbsorbed(plan, n, before, after);
    }
  }

  // ---------------------------------------------------------- a run keeps its inputs

  /** Only br-ovn is ever given an address, and only with internal IPAM. */
  predicate KeepsInputs(cfg: Config, a: Action) {
    a.EnsureAddress? ==> a.link == BR_OVN && cfg.mode.InternalIPAM?
  }

  lemma PlanKeepsInputs(cfg: Config, inputs: Inputs)
    ensures forall i | 0 <= i < |Plan(cfg, inputs)| :: KeepsInputs(cfg, Plan(cfg, inputs)[i])
  {
    PlanActions(cfg, inputs);
    PermittedKeepInputs(cfg, inputs, Plan(cfg, inputs));
  }

  lemma PermittedKeepInputs(cfg: Config, inputs: Inputs, plan: seq<Action>)
    requires AllPermitted(cfg, inputs, plan)
    ensures forall i | 0 <= i < |plan| :: KeepsInputs(cfg, plan[i])
  {
    forall i | 0 <= i < |plan| ensures KeepsInputs(cfg, plan[i]) {
      assert Permitted(cfg, inputs, plan[i]);
    }
  }

  lemma ExecKeepsInputs(cfg: Config, a: Action, s: Sys)
    requires KeepsInputs(cfg, a)
    ensures InputsOf(cfg, Exec(a, s)) == InputsOf(cfg, s)
  {
  }

  lemma {:induction false} ExecAllKeepsInputs(cfg: Config, plan: seq<Action>, s: Sys)
    requires forall i | 0 <= i < |plan| :: KeepsInputs(cfg, plan[i])
    ensures InputsOf(cfg, ExecAll(plan, s)) == InputsOf(cfg, s)
  {
    if plan != [] {
      ExecAllKeepsInputs(cfg, plan[..|plan| - 1], s);
      ExecKeepsInputs(cfg, plan[|plan| - 1], ExecAll(plan[..|plan| - 1], s));
    }
  }

  lemma TornKeepsInputs(cfg: Config, a: Action, before: Sys, after: Sys)
    requires KeepsInputs(cfg, a) && Torn(a, before, after)
    ensures InputsOf(cfg, after) == InputsOf(cfg, before)
  {
    ExecKeepsInputs(cfg, a, before);
  }

  lemma StopKeepsInputs(cfg: Config, plan: seq<Action>, n: nat, before: Sys, after: Sys)
    requires forall i | 0 <= i < |plan| :: KeepsInputs(cfg, plan[i])
    requires n < |plan| && StopsAt(plan, n, before, after)
    ensures InputsOf(cfg, after) == InputsOf(cfg, before)
  {
    ExecAllKeepsInputs(cfg, plan[..n], before);
    TornKeepsInputs(cfg, plan[n], ExecAll(plan[..n], before), after);
  }

  /** No run changes what later runs read, nor do other writers during it. */
  lemma RunKeepsInputs(cfg: Config, before: Sys, ok: bool, after: Sys)
    requires Run(cfg, before, ok, after)
    ensures InputsOf(cfg, after) == InputsOf(cfg, before)
  {
    var start, end := RunParts(cfg, before, ok, after);
    QuietRunKeepsInputs(cfg, start, ok, end);
    OthersKeepInputs(cfg, end, after);
  }

  lemma QuietRunKeepsInputs(cfg: Config, before: Sys, ok: bool, after: Sys)
    requires Reaches(Plan(cfg, InputsOf(cfg, before)), before, ok, after)
    ensures InputsOf(cfg, after) == InputsOf(cfg, before)
  {
    var plan := Plan(cfg, InputsOf(cfg, before));
    PlanKeepsInputs(cfg, InputsOf(cfg, before));
    ReachesKeepsInputs(cfg, plan, before, ok, after);
  }

  lemma ReachesKeepsInputs(cfg: Config, plan: seq<Action>, before: Sys, ok: bool, after: Sys)
    requires forall i | 0 <= i < |plan| :: KeepsInputs(cfg, plan[i])
    requires Reaches(plan, before, ok, after)
    ensures InputsOf(cfg, after) == InputsOf(cfg, before)
  {
    if ok {
      ExecAllKeepsInputs(cfg, plan, before);
    } else {
      var n :| 0 <= n < |plan| && StopsAt(plan, n, before, after);
      StopKeepsInputs(cfg, plan, n, before, after);
    }
  }

  lemma ExecKeepsGoodHosts(a: Action, s: Sys)
    requires GoodHosts(s)
    ensures GoodHosts(Exec(a, s))
  {
  }

  lemma TornKeepsGoodHosts(a: Action, before: Sys, after: Sys)
    requires GoodHosts(before) && Torn(a, before, after)
    ensures GoodHosts(after)
  {
    ExecKeepsGoodHosts(a, before);
  }

  lemma {:induction false} ExecAllKeepsGoodHosts(plan: seq<Action>, s: Sys)
    requires GoodHosts(s)
    ensures GoodHosts(ExecAll(plan, s))
  {
    if plan != [] {
      ExecAllKeepsGoodHosts(plan[..|plan| - 1], s);
      ExecKeepsGoodHosts(plan[|plan| - 1], ExecAll(plan[..|plan| - 1], s));
    }
  }

  /** Node objects stay well formed, so runs can follow one another. */
  lemma ReachesKeepsGoodHosts(plan: seq<Action>, before: Sys, ok: bool, after: Sys)
    requires GoodHosts(before) && Reaches(plan, before, ok, after)
    ensures GoodHosts(after)
  {
    if ok {
      ExecAllKeepsGoodHosts(plan, before);
    } else {
      var n :| 0 <= n < |plan| && StopsAt(plan, n, before, after);
      ExecAllKeepsGoodHosts(plan[..n], before);
      TornKeepsGoodHosts(plan[n], ExecAll(plan[..n], before), after);
    }
  }

  lemma RunKeepsGoodHosts(cfg: Config, before: Sys, ok: bool, after: Sys)
    requires GoodHosts(before) && Run(cfg, before, ok, after)
    ensures GoodHosts(after)
  {
    var start, end := RunParts(cfg, before, ok, after);
    OthersKeepGoodHosts(before, start);
    ReachesKeepsGoodHosts(Plan(cfg, InputsOf(cfg, start)), start, ok, end);
    OthersKeepGoodHosts(end, after);
  }

  // -------------------------------------------------------------------- convergence

  /** One configuration run, stopped or complete, that nobody else disturbs. */
  ghost predicate QuietRun(cfg: Config, before: Sys, after: Sys) {
    var plan := Plan(cfg, InputsOf(cfg, before));
    Reaches(plan, before, true, after) || Reaches(plan, before, false, after)
  }

  /** Any number of undisturbed runs, one after another. */
  ghost predicate QuietRuns(cfg: Config, states: seq<Sys>) {
    Chain(states, QuietRunOf(cfg))
  }

  ghost function QuietRunOf(cfg: Config): (Sys, Sys) -> bool {
    (before, after) => QuietRun(cfg, before, after)
  }

  lemma QuietRunAt(cfg: Config, states: seq<Sys>, i: nat)
    requires QuietRuns(cfg, states) && i < |states| - 1
    ensures QuietRun(cfg, states[i], states[i + 1])
  {
    assert QuietRunOf(cfg)(states[i], states[i + 1]);
  }

  lemma QuietRunSameInputs(cfg: Config, before: Sys, after: Sys)
    requires QuietRun(cfg, before, after)
    ensures InputsOf(cfg, after) == InputsOf(cfg, before)
  {
    QuietRunKeepsInputs(cfg, before, Reaches(Plan(cfg, InputsOf(cfg, before)), before, true, after), after);
  }

  lemma {:induction false} RunsKeepInputs(cfg: Config, states: seq<Sys>, i: nat)
    requires QuietRuns(cfg, states) && i < |states|
    ensures InputsOf(cfg, states[i]) == InputsOf(cfg, states[0])
    decreases i
  {
    if i > 0 {
      RunsKeepInputs(cfg, states, i - 1);
      QuietRunAt(cfg, states, i - 1);
      QuietRunSameInputs(cfg, states[i - 1], states[i]);
    }
  }

  lemma QuietRunAbsorbed(cfg: Config, before: Sys, after: Sys, inputs: Inputs)
    requires QuietRun(cfg, before, after) && inputs == InputsOf(cfg, before) && Unblocked(Plan(cfg, inputs))
    ensures ExecAll(Plan(cfg, inputs), after) == ExecAll(Plan(cfg, inputs), before)
  {
    var plan := Plan(cfg, inputs);
    RunAbsorbed(plan, before, Reaches(plan, before, true, after), after);
  }

  lemma QuietRunAbsorbedAt(cfg: Config, states: seq<Sys>, i: nat)
    requires QuietRuns(cfg, states) && i < |states| - 1 && Unblocked(Plan(cfg, InputsOf(cfg, states[0])))
    ensures SameResult(Plan(cfg, InputsOf(cfg, states[0])), states[i + 1], states[i])
  {
    RunsKeepInputs(cfg, states, i);
    QuietRunAt(cfg, states, i);
    QuietRunAbsorbed(cfg, states[i], states[i + 1], InputsOf(cfg, states[0]));
  }

  ghost predicate SameResult(plan: seq<Action>, a: Sys, b: Sys) {
    ExecAll(plan, a) == ExecAll(plan, b)
  }

  lemma {:induction false} SameAlong(plan: seq<Action>, states: seq<Sys>, i: nat)
    requires i < |states| && forall k | 0 <= k < |states| - 1 :: SameResult(plan, states[k + 1], states[k])
    ensures SameResult(plan, states[i], states[0])
  {
    if i > 0 {
      SameAlong(plan, states, i - 1);
      assert SameResult(plan, states[i - 1 + 1], states[i - 1]);
    }
  }

  lemma RunsAbsorbed(cfg: Config, states: seq<Sys>)
    requires QuietRuns(cfg, states) && Unblocked(Plan(cfg, InputsOf(cfg, states[0])))
    ensures SameResult(Plan(cfg, InputsOf(cfg, states[0])), states[|states| - 1], states[0])
  {
    forall k | 0 <= k < |states| - 1
      ensures SameResult(Plan(cfg, InputsOf(cfg, states[0])), states[k + 1], states[k])
    {
      QuietRunAbsorbedAt(cfg, states, k);
    }
    SameAlong(Plan(cfg, InputsOf(cfg, states[0])), states, |states| - 1);
  }

  /** Crash-retry convergence: however many runs stopped, wherever they stopped and whatever they left
      half-written, the next complete run ends in exactly the state of a single complete run from the
      start: the same routes, rules, addresses, identifiers, files and annotations. */
  lemma RetriesConverge(cfg: Config, states: seq<Sys>, final: Sys)
    requires QuietRuns(cfg, states)
    requires Reaches(Plan(cfg, InputsOf(cfg, states[|states| - 1])), states[|states| - 1], true, final)
    ensures Reaches(Plan(cfg, InputsOf(cfg, states[0])), states[0], true, final)
  {
    RunsKeepInputs(cfg, states, |states| - 1);
    RunsAbsorbed(cfg, states);
  }

  /** A further complete run changes nothing at all. */
  lemma CompleteRunIsIdempotent(cfg: Config, before: Sys, once: Sys, twice: Sys)
    requires Reaches(Plan(cfg, InputsOf(cfg, before)), before, true, once)
    requires Reaches(Plan(cfg, InputsOf(cfg, once)), once, true, twice)
    ensures twice == once
  {
    QuietRunKeepsInputs(cfg, before, true, once);
    RunAbsorbed(Plan(cfg, InputsOf(cfg, before)), before, true, once);
  }

  // --------------------------------------------------- the parts seen as packet routing

  /** The return path that the inputs ask for. */
  function ReturnPath(cfg: Config, inputs: Inputs): Symmetric
    requires inputs.flannel.Some? && |inputs.flannel.value| == 1 && inputs.oob.Some? && |inputs.oob.value| == 1
    requires EVERYTHING in inputs.env.gateways
  {
    Symmetric(Network(inputs.flannel.value[0]), inputs.oob.value[0].ip, cfg.vtepCIDR,
              inputs.env.gateways[EVERYTHING], OOB_LINK)
  }

  /** What a complete symmetric-routing part does to rules and routes, in the terms of Routing. */
  lemma SymmetricPartMeaning(cfg: Config, inputs: Inputs, k: Kernel)
    requires Unblocked(SymmetricPlan(cfg, inputs))
    ensures inputs.flannel.Some? && |inputs.flannel.value| == 1 && inputs.oob.Some? && |inputs.oob.value| == 1
    ensures EVERYTHING in inputs.env.gateways
    ensures var p := ReturnPath(cfg, inputs);
            KernelAfter(SymmetricPlan(cfg, inputs), k) ==
            k.(rules := SymmetricRules(p, k.rules), routes := SymmetricRoutes(p, k.routes))
  {
    var plan := SymmetricPlan(cfg, inputs);
    assert plan[0] != Fail;
    assert plan[1] != Fail;
    assert plan[2] != Fail;
    ThreeActions(plan, k);
  }

  lemma ThreeActions(plan: seq<Action>, k: Kernel)
    requires |plan| == 3
    ensures KernelAfter(plan, k) == ExecKernel(plan[2], ExecKernel(plan[1], ExecKernel(plan[0], k)))
  {
    var k1 := KernelAfter(plan[..1], k);
    assert plan[..1][..0] == [] && plan[..2][..1] == plan[..1];
    assert KernelAfter([], k) == k;
    assert KernelAfter(plan[..1][..0], k) == k;
    assert k1 == ExecKernel(plan[0], k);
    assert KernelAfter(plan[..2][..1], k) == k1;
    assert KernelAfter(plan[..2], k) == ExecKernel(plan[1], k1);
  }

  lemma TwoMore(plan: seq<Action>, a: Action, b: Action, k: Kernel)
    ensures KernelAfter(plan + [a, b], k) == ExecKernel(b, ExecKernel(a, KernelAfter(plan, k)))
  {
    assert plan + [a, b] == plan + [a] + [b];
    KernelAfterAppend(plan + [a], [b], k);
    KernelAfterAppend(plan, [a], k);
    OneAction(a, KernelAfter(plan, k));
    OneAction(b, KernelAfter(plan + [a], k));
  }

  function LinkRoutes(cfg: Config, vtep: IPNet, gateway: IPv4, routes: seq<Route>): seq<Route> {
    if cfg.mode.InternalIPAM? && SpansSubnets(cfg, vtep) then EnsureRoute(routes, VtepRoute(cfg, gateway)) else routes
  }

  lemma LinkPartRoutes(cfg: Config, inputs: Inputs, vtep: IPNet, gateway: IPv4, k: Kernel)
    requires Unblocked(LinkPlan(cfg, inputs, vtep, gateway))
    ensures KernelAfter(LinkPlan(cfg, inputs, vtep, gateway), k).routes == LinkRoutes(cfg, vtep, gateway, k.routes)
  {
    var link := LinkPlan(cfg, inputs, vtep, gateway);
    if link != [] {
      assert !Blocking(link[0]);
      if SpansSubnets(cfg, vtep) {
        ThreeActions(link, k);
      } else {
        assert link == [] + [link[0], link[1]];
        TwoMore([], link[0], link[1], k);
      }
    }
  }

  /** The routes after a complete connectivity part: perhaps the VTEP route, then the host route. */
  lemma ConnectivityPartRoutes(cfg: Config, inputs: Inputs, vtep: IPNet, gateway: IPv4, k: Kernel)
    requires Unblocked(ConnectivityPlan(cfg, inputs, vtep, gateway))
    ensures KernelAfter(ConnectivityPlan(cfg, inputs, vtep, gateway), k).routes ==
            EnsureRoute(LinkRoutes(cfg, vtep, gateway, k.routes), HostRoute(cfg, gateway))
  {
    var link := LinkPlan(cfg, inputs, vtep, gateway);
    var host, encap := AddRoute(HostRoute(cfg, gateway)), SetText(OvsID("ovn-encap-ip"), PrintIP(vtep.ip));
    UnblockedFront(link, [host, encap]);
    LinkPartRoutes(cfg, inputs, vtep, gateway, k);
    TwoMore(link, host, encap, k);
  }

  lemma UnblockedFront(p: seq<Action>, q: seq<Action>)
    requires Unblocked(p + q)
    ensures Unblocked(p)
  {
    assert forall i | 0 <= i < |p| :: (p + q)[i] == p[i];
  }

  lemma OneAction(a: Action, k: Kernel)
    ensures KernelAfter([a], k) == ExecKernel(a, k)
  {
    assert [a][..|[a]| - 1] == [] && [a][|[a]| - 1] == a;
    assert KernelAfter([], k) == k;
  }

  /** Setting up connectivity disturbs no destination outside the VTEP CIDR as long as the main table
      has a cheaper route to the host network. */
  lemma ConnectivityDisturbsOnlyVteps(cfg: Config, inputs: Inputs, vtep: IPNet, gateway: IPv4, k: Kernel, i: nat,
                                      dst: IPv4)
    requires Unblocked(ConnectivityPlan(cfg, inputs, vtep, gateway))
    requires i < |k.routes| && k.routes[i].table == MAIN_TABLE && k.routes[i].network == cfg.hostCIDR
    requires k.routes[i].metric < HOST_ROUTE_METRIC && !Contains(cfg.vtepCIDR, dst)
    ensures Best(KernelAfter(ConnectivityPlan(cfg, inputs, vtep, gateway), k).routes, MAIN_TABLE, dst) ==
              Best(k.routes, MAIN_TABLE, dst)
  {
    ConnectivityPartRoutes(cfg, inputs, vtep, gateway, k);
    var v := VtepRoute(cfg, gateway);
    var routes := LinkRoutes(cfg, vtep, gateway, k.routes);
    assert routes[i] == k.routes[i];
    CostlyRouteIsInert(routes, HostRoute(cfg, gateway), i, dst);
    EnsuredRouteMatters(k.routes, v, dst);
  }
}
