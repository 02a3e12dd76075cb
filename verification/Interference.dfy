/** Other programs act while a configuration run is under way and between runs. During a run, other
    clients of the host cluster may rewrite its nodes at any moment; between runs, everything the
    provisioner only reads may change. */
module Interference {
  import opened World
  import Chassis

  // ----------------------------------------------------------------------- during a run

  /** What other writers may have made of a node: nothing, or a later version. */
  predicate Rewritten(before: Chassis.HostNode, after: Chassis.HostNode) {
    after == before || (Chassis.WellFormed(after) && after.version > before.version)
  }

  ghost predicate OthersWrote(before: Sys, after: Sys) {
    && after == WithHosts(before, after.kernel.hosts)
    && after.kernel.hosts.Keys == before.kernel.hosts.Keys
    && forall h | h in before.kernel.hosts :: Rewritten(before.kernel.hosts[h], after.kernel.hosts[h])
  }

  function WithHosts(s: Sys, hosts: map<string, Chassis.HostNode>): Sys {
    s.(kernel := s.kernel.(hosts := hosts))
  }

  /** A run of the plan, complete or stopped, with other writers before and after it. A run during which
      others write is such a run too: only one of its actions touches nodes, and it is atomic. */
  ghost predicate Amid(plan: seq<Action>, before: Sys, ok: bool, after: Sys) {
    exists start: Sys, end: Sys ::
      OthersWrote(before, start) && Reaches(plan, start, ok, end) && OthersWrote(end, after)
  }

  lemma OthersRest(s: Sys)
    ensures OthersWrote(s, s)
  {
  }

  lemma OthersWroteAgain(a: Sys, b: Sys, c: Sys)
    requires OthersWrote(a, b) && OthersWrote(b, c)
    ensures OthersWrote(a, c)
  {
    forall h | h in a.kernel.hosts ensures Rewritten(a.kernel.hosts[h], c.kernel.hosts[h]) {
      assert Rewritten(a.kernel.hosts[h], b.kernel.hosts[h]) && Rewritten(b.kernel.hosts[h], c.kernel.hosts[h]);
    }
  }

  lemma OthersKeepInputs(cfg: Config, before: Sys, after: Sys)
    requires OthersWrote(before, after)
    ensures InputsOf(cfg, after) == InputsOf(cfg, before)
  {
  }

  lemma OthersKeepGoodHosts(before: Sys, after: Sys)
    requires OthersWrote(before, after) && GoodHosts(before)
    ensures GoodHosts(after)
  {
    forall h | h in after.kernel.hosts ensures Chassis.WellFormed(after.kernel.hosts[h]) {
      assert Rewritten(before.kernel.hosts[h], after.kernel.hosts[h]);
    }
  }

  lemma Undisturbed(plan: seq<Action>, before: Sys, ok: bool, after: Sys)
    requires Reaches(plan, before, ok, after)
    ensures Amid(plan, before, ok, after)
  {
    OthersRest(before);
    OthersRest(after);
  }

  lemma FailedAmid(plan: seq<Action>, before: Sys, after: Sys)
    requires plan != [] && OthersWrote(before, after)
    ensures Amid(plan, before, false, after)
  {
    ReachesFailed(plan, before);
    OthersRest(before);
  }

  lemma AmidLater(plan: seq<Action>, before: Sys, middle: Sys, ok: bool, after: Sys)
    requires OthersWrote(before, middle) && Amid(plan, middle, ok, after)
    ensures Amid(plan, before, ok, after)
  {
    var start, end :| OthersWrote(middle, start) && Reaches(plan, start, ok, end) && OthersWrote(end, after);
    OthersWroteAgain(before, middle, start);
  }

  // ------------------------------------------------------- plans that do not touch nodes

  predicate HostFree(plan: seq<Action>) {
    forall i | 0 <= i < |plan| :: !plan[i].CleanChassis?
  }

  lemma {:induction false} KernelAfterHosts(plan: seq<Action>, k: Kernel, hosts: map<string, Chassis.HostNode>)
    requires HostFree(plan)
    ensures KernelAfter(plan, k.(hosts := hosts)) == KernelAfter(plan, k).(hosts := hosts)
    ensures KernelAfter(plan, k).hosts == k.hosts
  {
    if plan != [] {
      KernelAfterHosts(plan[..|plan| - 1], k, hosts);
    }
  }

  lemma TornHosts(a: Action, before: Sys, after: Sys, hosts: map<string, Chassis.HostNode>)
    requires !a.CleanChassis? && Torn(a, before, after)
    ensures Torn(a, WithHosts(before, hosts), WithHosts(after, hosts))
    ensures after.kernel.hosts == before.kernel.hosts
  {
    if a.SetText? && a.place.File? && after != before {
      var n :| 0 <= n <= |a.text| && after == Exec(SetText(a.place, a.text[..n]), before);
      assert WithHosts(after, hosts) == Exec(SetText(a.place, a.text[..n]), WithHosts(before, hosts));
    }
  }

  /** A plan that does not touch nodes runs alike whatever the nodes are. */
  lemma ReachesHosts(plan: seq<Action>, before: Sys, ok: bool, after: Sys, hosts: map<string, Chassis.HostNode>)
    requires HostFree(plan) && Reaches(plan, before, ok, after)
    ensures Reaches(plan, WithHosts(before, hosts), ok, WithHosts(after, hosts))
    ensures after.kernel.hosts == before.kernel.hosts
  {
    if ok {
      KernelAfterHosts(plan, before.kernel, hosts);
    } else {
      var n :| 0 <= n < |plan| && StopsAt(plan, n, before, after);
      KernelAfterHosts(plan[..n], before.kernel, hosts);
      TornHosts(plan[n], ExecAll(plan[..n], before), after, hosts);
      assert StopsAt(plan, n, WithHosts(before, hosts), WithHosts(after, hosts));
    }
  }

  // --------------------------------------------------------------------------- composing

  lemma AmidStopped(p: seq<Action>, q: seq<Action>, before: Sys, after: Sys)
    requires Amid(p, before, false, after)
    ensures Amid(p + q, before, false, after)
  {
    var start, end :| OthersWrote(before, start) && Reaches(p, start, false, end) && OthersWrote(end, after);
    ReachesStopped(p, q, start, end);
  }

  /** First a part that does not touch nodes: what others write later might as well come before it. */
  lemma ReachesThenAmid(p: seq<Action>, q: seq<Action>, before: Sys, middle: Sys, ok: bool, after: Sys)
    requires HostFree(p) && Reaches(p, before, true, middle) && Amid(q, middle, ok, after)
    ensures Amid(p + q, before, ok, after)
  {
    var start, end :| OthersWrote(middle, start) && Reaches(q, start, ok, end) && OthersWrote(end, after);
    var hosts := start.kernel.hosts;
    ReachesHosts(p, before, true, middle, hosts);
    ReachesThen(p, q, WithHosts(before, hosts), start, ok, end);
    assert OthersWrote(before, WithHosts(before, hosts));
  }

  /** Last a part that does not touch nodes: what others wrote earlier might as well come after it. */
  lemma AmidThenReaches(p: seq<Action>, q: seq<Action>, before: Sys, middle: Sys, ok: bool, after: Sys)
    requires HostFree(q) && Amid(p, before, true, middle) && Reaches(q, middle, ok, after)
    ensures Amid(p + q, before, ok, after)
  {
    var start, end :| OthersWrote(before, start) && Reaches(p, start, true, end) && OthersWrote(end, middle);
    var hosts := end.kernel.hosts;
    ReachesHosts(q, middle, ok, after, hosts);
    ReachesThen(p, q, start, end, ok, WithHosts(after, hosts));
    assert OthersWrote(WithHosts(after, hosts), after);
  }

  // -------------------------------------------------------------------- runs and histories

  /** One configuration run. */
  ghost predicate Run(cfg: Config, before: Sys, ok: bool, after: Sys) {
    Amid(Plan(cfg, InputsOf(cfg, before)), before, ok, after)
  }

  /** A run, taken apart: what others wrote before, the run itself, and what they wrote after. */
  lemma RunParts(cfg: Config, before: Sys, ok: bool, after: Sys) returns (start: Sys, end: Sys)
    requires Run(cfg, before, ok, after)
    ensures OthersWrote(before, start) && OthersWrote(end, after) && InputsOf(cfg, start) == InputsOf(cfg, before)
    ensures Reaches(Plan(cfg, InputsOf(cfg, start)), start, ok, end)
  {
    var plan := Plan(cfg, InputsOf(cfg, before));
    start, end :| OthersWrote(before, start) && Reaches(plan, start, ok, end) && OthersWrote(end, after);
    OthersKeepInputs(cfg, before, start);
  }

  /** What may happen between runs: time passes, and labels, gateways, link addresses and host nodes
      change in any way. Routes, rules, identifiers and files of the provisioner are left alone. */
  ghost predicate Outside(before: Sys, after: Sys) {
    && GoodHosts(after) && after.netplan.now >= before.netplan.now
    && after == before.(env := after.env,
                        kernel := before.kernel.(links := after.kernel.links, hosts := after.kernel.hosts),
                        netplan := before.netplan.(now := after.netplan.now))
  }

  /** One configuration run, complete or stopped. */
  ghost predicate Ran(cfg: Config, before: Sys, after: Sys) {
    Run(cfg, before, true, after) || Run(cfg, before, false, after)
  }

  ghost predicate Step(cfg: Config, before: Sys, after: Sys) {
    Ran(cfg, before, after) || Outside(before, after)
  }

  ghost predicate Chain<T(!new)>(states: seq<T>, step: (T, T) -> bool) {
    states != [] && forall i | 0 <= i < |states| - 1 :: step(states[i], states[i + 1])
  }

  lemma ChainGrows<T(!new)>(states: seq<T>, step: (T, T) -> bool, next: T)
    requires Chain(states, step) && step(states[|states| - 1], next)
    ensures Chain(states + [next], step)
  {
  }

  /** Any number of runs, with anything in between. */
  ghost predicate History(cfg: Config, states: seq<Sys>) {
    Chain(states, StepOf(cfg))
  }

  /** Each tick is a run, after whatever happened while waiting for it. */
  ghost predicate AllTicked(cfg: Config, states: seq<Sys>, ticks: nat) {
    |states| == 2 * ticks + 1 && forall t | 0 <= t < ticks :: Ran(cfg, states[2 * t + 1], states[2 * t + 2])
  }

  lemma TicksGrow(cfg: Config, states: seq<Sys>, ticks: nat, before: Sys, after: Sys)
    requires AllTicked(cfg, states, ticks) && Ran(cfg, before, after)
    ensures AllTicked(cfg, states + [before] + [after], ticks + 1)
  {
    var more := states + [before] + [after];
    forall t | 0 <= t < ticks + 1 ensures Ran(cfg, more[2 * t + 1], more[2 * t + 2]) {
      if t < ticks {
        assert more[2 * t + 1] == states[2 * t + 1] && more[2 * t + 2] == states[2 * t + 2];
      } else {
        assert more[2 * t + 1] == before && more[2 * t + 2] == after;
      }
    }
  }

  ghost function StepOf(cfg: Config): (Sys, Sys) -> bool {
    (before, after) => Step(cfg, before, after)
  }
}
