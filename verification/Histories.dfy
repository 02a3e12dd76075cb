/** Whole histories of the provisioner: runs that stop anywhere, disturbed by other writers, with the
    outside world changing in between. What a run must read may turn up in any order, and the clock
    moves on. */
module Histories {
  import opened Wrappers
  import opened Net
  import opened Routing
  import opened World
  import opened Interference
  import opened Convergence
  import opened Outcome
  import Netplan
  import OvsListing

  // ----------------------------------------------------------------- the provisioner's own

  /** The part of the state that only runs change, for good: texts, routes, rules and raised links. */
  function Own(s: Sys): Sys {
    Sys(Env(map[], "", map[], None), s.kernel.(links := map[], hosts := map[]), s.store, Netplan.State(None, 0, []), [])
  }

  lemma ExecOwn(a: Action, s: Sys)
    ensures Own(Exec(a, s)) == Exec(a, Own(s))
  {
  }

  lemma {:induction false} ExecAllOwn(plan: seq<Action>, s: Sys)
    ensures Own(ExecAll(plan, s)) == ExecAll(plan, Own(s))
  {
    if plan != [] {
      ExecAllOwn(plan[..|plan| - 1], s);
      ExecOwn(plan[|plan| - 1], ExecAll(plan[..|plan| - 1], s));
    }
  }

  lemma TornOwn(a: Action, before: Sys, after: Sys)
    requires Torn(a, before, after)
    ensures if Blocking(a) then Own(after) == Own(before) else Torn(a, Own(before), Own(after))
  {
    ExecOwn(a, before);
    if a.SetText? && a.place.File? && after != before {
      var n :| 0 <= n <= |a.text| && after == Exec(SetText(a.place, a.text[..n]), before);
      ExecOwn(SetText(a.place, a.text[..n]), before);
    }
  }

  // ------------------------------------------------------------- plans that start alike

  /** As far as p can be carried out, it is a beginning of q. */
  ghost predicate StartsLike(p: seq<Action>, q: seq<Action>) {
    forall n | 0 <= n <= |p| && Unblocked(p[..n]) :: n <= |q| && p[..n] == q[..n]
  }

  lemma LikeItself(p: seq<Action>)
    ensures StartsLike(p, p)
  {
  }

  lemma BlockedAtOnce(p: seq<Action>, q: seq<Action>)
    requires p != [] && Blocking(p[0])
    ensures StartsLike(p, q)
  {
    forall n | 0 < n <= |p| ensures !Unblocked(p[..n]) {
      assert p[..n][0] == p[0];
    }
  }

  lemma Continues(p1: seq<Action>, p2: seq<Action>, q1: seq<Action>, q2: seq<Action>)
    requires StartsLike(p1, q1)
    requires Unblocked(p1) ==> p1 == q1 && StartsLike(p2, q2)
    ensures StartsLike(p1 + p2, q1 + q2)
  {
    forall n | 0 <= n <= |p1 + p2| && Unblocked((p1 + p2)[..n])
      ensures n <= |q1 + q2| && (p1 + p2)[..n] == (q1 + q2)[..n]
    {
      if n <= |p1| {
        assert (p1 + p2)[..n] == p1[..n];
        assert n <= |q1| && p1[..n] == q1[..n];
        assert (q1 + q2)[..n] == q1[..n];
      } else {
        var m := n - |p1|;
        assert (p1 + p2)[..n] == p1 + p2[..m];
        UnblockedAppend(p1, p2[..m]);
        assert (q1 + q2)[..n] == q1 + q2[..m];
      }
    }
  }

  lemma PrefixAbsorbed(q: seq<Action>, n: nat, s: Sys)
    requires n <= |q|
    ensures ExecAll(q, ExecAll(q[..n], s)) == ExecAll(q, s)
  {
    KernelRedo(q, n, s.kernel);
    StoreRedoPrefix(q, n, s.store);
  }

  /** Whatever a run of p left, a run of q takes in its stride. */
  lemma LikeRunAbsorbed(p: seq<Action>, q: seq<Action>, before: Sys, ok: bool, after: Sys)
    requires StartsLike(p, q) && Unblocked(q) && Reaches(p, before, ok, after)
    ensures ExecAll(q, Own(after)) == ExecAll(q, Own(before))
  {
    if ok {
      assert p[..|p|] == p;
      ExecAllOwn(p, before);
      PrefixAbsorbed(q, |p|, Own(before));
    } else {
      var n :| 0 <= n < |p| && StopsAt(p, n, before, after);
      ExecAllOwn(p[..n], before);
      TornOwn(p[n], ExecAll(p[..n], before), after);
      if Blocking(p[n]) {
        PrefixAbsorbed(q, n, Own(before));
      } else {
        assert Unblocked(p[..n + 1]) by {
          assert p[..n + 1] == p[..n] + [p[n]];
        }
        assert p[..n + 1] == q[..n + 1] && p[..n + 1][n] == p[n] && q[..n + 1][n] == q[n];
        assert StopsAt(q, n, Own(before), Own(after));
        StoppedRunAbsorbed(q, n, Own(before), Own(after));
      }
    }
  }

  // ------------------------------------------------------------- inputs that turn up late

  /** Whatever of the first inputs a run could use is as in the second; anything may still be missing. */
  predicate Foreshadows(cfg: Config, early: Inputs, late: Inputs) {
    && (HostName(cfg, early.env).None? || HostName(cfg, early.env) == HostName(cfg, late.env))
    && (OvsListing.SystemID(early.env.systemIDOutput) == ""
        || OvsListing.SystemID(early.env.systemIDOutput) == OvsListing.SystemID(late.env.systemIDOutput))
    && (Identity(cfg, early).None? || Identity(cfg, early) == Identity(cfg, late))
    && (!OneAddress(early.flannel) || early.flannel == late.flannel)
    && (!OneAddress(early.oob) || early.oob == late.oob)
    && (EVERYTHING in early.env.gateways ==>
          EVERYTHING in late.env.gateways && early.env.gateways[EVERYTHING] == late.env.gateways[EVERYTHING])
  }

  lemma HostPlanStartsLike(cfg: Config, early: Inputs, late: Inputs)
    requires Foreshadows(cfg, early, late) && HostKnown(cfg, late)
    ensures StartsLike(HostPlan(cfg, early), HostPlan(cfg, late))
    ensures HostKnown(cfg, early) ==> HostPlan(cfg, early) == HostPlan(cfg, late)
  {
    match HostName(cfg, early.env)
    case None => BlockedAtOnce(HostPlan(cfg, early), HostPlan(cfg, late));
    case Some(host) =>
      var n, b := NamePlan(host), BootstrapPlan(cfg, host);
      var c, d := ChassisPlan(cfg, early, host), ChassisPlan(cfg, late, host);
      if c != [] && Blocking(c[0]) {
        BlockedAtOnce(c, d);
      } else {
        assert c == d;
        LikeItself(c);
      }
      LikeItself(b);
      Continues(b, c, b, d);
      LikeItself(n);
      Continues(n, b + c, n, b + d);
  }

  lemma DiscoveryPlanStartsLike(cfg: Config, early: Inputs, late: Inputs)
    requires Foreshadows(cfg, early, late) && NetworkKnown(cfg, late)
    ensures StartsLike(DiscoveryPlan(cfg, early), DiscoveryPlan(cfg, late))
    ensures Identity(cfg, early).Some? ==> DiscoveryPlan(cfg, early) == DiscoveryPlan(cfg, late)
    ensures Identity(cfg, early).None? ==> !Unblocked(DiscoveryPlan(cfg, early))
  {
    var d, e := DiscoveryPlan(cfg, early), DiscoveryPlan(cfg, late);
    LikeItself(d);
    if Identity(cfg, early).None? {
      assert Blocking(d[1]);
      var first := [d[0]];
      assert d == first + d[1..] && e == first + [];
      LikeItself(first);
      BlockedAtOnce(d[1..], []);
      Continues(first, d[1..], first, []);
    }
  }

  lemma LinkPlanStartsLike(cfg: Config, early: Inputs, late: Inputs, vtep: IPNet, gateway: IPv4)
    requires NetworkKnown(cfg, late)
    ensures StartsLike(LinkPlan(cfg, early, vtep, gateway), LinkPlan(cfg, late, vtep, gateway))
    ensures early.brOVN.Some? || cfg.mode.ExternalIPAM? ==>
              LinkPlan(cfg, early, vtep, gateway) == LinkPlan(cfg, late, vtep, gateway)
    ensures early.brOVN.None? && cfg.mode.InternalIPAM? ==> !Unblocked(LinkPlan(cfg, early, vtep, gateway))
  {
    var l := LinkPlan(cfg, early, vtep, gateway);
    LikeItself(l);
    if early.brOVN.None? && cfg.mode.InternalIPAM? {
      assert Blocking(l[0]);
      BlockedAtOnce(l, LinkPlan(cfg, late, vtep, gateway));
    }
  }

  lemma SymmetricPlanStartsLike(cfg: Config, early: Inputs, late: Inputs)
    requires Foreshadows(cfg, early, late) && NetworkKnown(cfg, late)
    ensures StartsLike(SymmetricPlan(cfg, early), SymmetricPlan(cfg, late))
  {
    if !OneAddress(early.flannel) {
      BlockedAtOnce(SymmetricPlan(cfg, early), SymmetricPlan(cfg, late));
    } else {
      var first := [AddRule(Rule(FLANNEL_PRIORITY, Network(early.flannel.value[0]), SOURCE_TABLE))];
      OOBPlanStartsLike(cfg, early, late);
      LikeItself(first);
      Continues(first, OOBPlan(cfg, early), first, OOBPlan(cfg, late));
    }
  }

  lemma OOBPlanStartsLike(cfg: Config, early: Inputs, late: Inputs)
    requires Foreshadows(cfg, early, late) && NetworkKnown(cfg, late)
    ensures StartsLike(OOBPlan(cfg, early), OOBPlan(cfg, late))
  {
    var p, q := OOBPlan(cfg, early), OOBPlan(cfg, late);
    if !OneAddress(early.oob) {
      BlockedAtOnce(p, q);
    } else {
      var first := [p[0]];
      assert p == first + p[1..] && q == first + q[1..];
      LikeItself(first);
      if EVERYTHING in early.env.gateways {
        LikeItself(p[1..]);
      } else {
        BlockedAtOnce(p[1..], q[1..]);
      }
      Continues(first, p[1..], first, q[1..]);
    }
  }

  lemma IdentityPlanStartsLike(cfg: Config, early: Inputs, late: Inputs)
    requires Foreshadows(cfg, early, late) && NetworkKnown(cfg, late) && Identity(cfg, early).Some?
    ensures StartsLike(IdentityPlan(cfg, early), IdentityPlan(cfg, late))
  {
    var (vtep, gateway) := Identity(cfg, early).value;
    var l, m := LinkPlan(cfg, early, vtep, gateway), LinkPlan(cfg, late, vtep, gateway);
    var rest := [AddRoute(HostRoute(cfg, gateway)), SetText(OvsID("ovn-encap-ip"), PrintIP(vtep.ip))];
    var f := ConfPlan(cfg, vtep, gateway);
    LinkPlanStartsLike(cfg, early, late, vtep, gateway);
    LikeItself(rest);
    Continues(l, rest, m, rest);
    LikeItself(f);
    UnblockedAppend(l, rest);
    Continues(l + rest, f, m + rest, f);
    UnblockedAppend(l + rest, f);
    SymmetricPlanStartsLike(cfg, early, late);
    Continues(l + rest + f, SymmetricPlan(cfg, early), m + rest + f, SymmetricPlan(cfg, late));
  }

  /** As long as something is missing, a run does the beginning of what it will do in the end. */
  lemma PlanStartsLike(cfg: Config, early: Inputs, late: Inputs)
    requires Foreshadows(cfg, early, late) && Unblocked(Plan(cfg, late))
    ensures StartsLike(Plan(cfg, early), Plan(cfg, late))
  {
    PlanCompletesExactly(cfg, late);
    HostPlanStartsLike(cfg, early, late);
    HostPlanCompletes(cfg, early);
    DiscoveryPlanStartsLike(cfg, early, late);
    if Identity(cfg, early).Some? {
      IdentityPlanStartsLike(cfg, early, late);
    }
    Continues(DiscoveryPlan(cfg, early), IdentityPlan(cfg, early), DiscoveryPlan(cfg, late), IdentityPlan(cfg, late));
    Continues(HostPlan(cfg, early), NetworkPlan(cfg, early), HostPlan(cfg, late), NetworkPlan(cfg, late));
  }

  // -------------------------------------------------------------------------- convergence

  lemma StepAbsorbed(cfg: Config, before: Sys, after: Sys, late: Inputs)
    requires Step(cfg, before, after) && Foreshadows(cfg, InputsOf(cfg, before), late) && Unblocked(Plan(cfg, late))
    ensures ExecAll(Plan(cfg, late), Own(after)) == ExecAll(Plan(cfg, late), Own(before))
  {
    if !Outside(before, after) {
      var ok := Run(cfg, before, true, after);
      var start, end := RunParts(cfg, before, ok, after);
      PlanStartsLike(cfg, InputsOf(cfg, start), late);
      LikeRunAbsorbed(Plan(cfg, InputsOf(cfg, start)), Plan(cfg, late), start, ok, end);
      assert Own(start) == Own(before) && Own(end) == Own(after);
    }
  }

  /** Every state of the history foreshadows the inputs. */
  ghost predicate AllForeshadow(cfg: Config, states: seq<Sys>, late: Inputs) {
    forall k | 0 <= k < |states| :: Foreshadows(cfg, InputsOf(cfg, states[k]), late)
  }

  lemma StepAt(cfg: Config, states: seq<Sys>, i: nat)
    requires History(cfg, states) && i < |states| - 1
    ensures Step(cfg, states[i], states[i + 1])
  {
    assert StepOf(cfg)(states[i], states[i + 1]);
  }

  lemma {:induction false} HistoryAbsorbed(cfg: Config, states: seq<Sys>, late: Inputs, i: nat)
    requires History(cfg, states) && i < |states| && Unblocked(Plan(cfg, late)) && AllForeshadow(cfg, states, late)
    ensures ExecAll(Plan(cfg, late), Own(states[i])) == ExecAll(Plan(cfg, late), Own(states[0]))
    decreases i
  {
    if i > 0 {
      HistoryAbsorbed(cfg, states, late, i - 1);
      StepAt(cfg, states, i - 1);
      StepAbsorbed(cfg, states[i - 1], states[i], late);
    }
  }

  /** The first state of a history, had everything been there from the start. */
  function WithInputsOf(s: Sys, late: Sys): Sys {
    s.(env := late.env, kernel := s.kernel.(links := late.kernel.links, hosts := late.kernel.hosts))
  }

  lemma CompleteRunOwn(cfg: Config, before: Sys, after: Sys)
    requires Run(cfg, before, true, after)
    ensures Unblocked(Plan(cfg, InputsOf(cfg, before)))
    ensures Own(after) == ExecAll(Plan(cfg, InputsOf(cfg, before)), Own(before))
  {
    var start, end := RunParts(cfg, before, true, after);
    ExecAllOwn(Plan(cfg, InputsOf(cfg, start)), start);
    assert Own(start) == Own(before) && Own(end) == Own(after);
  }

  /** Crash-retry convergence with late inputs and other writers: however many runs stopped, and whatever
      was still missing when they did, the first complete run leaves the texts, routes, rules and raised
      links of a single run that had found everything in place from the start. */
  lemma LateInputsConverge(cfg: Config, states: seq<Sys>, final: Sys, single: Sys)
    requires History(cfg, states)
    requires var last := states[|states| - 1];
             && Run(cfg, last, true, final)
             && Run(cfg, WithInputsOf(states[0], last), true, single)
             && AllForeshadow(cfg, states, InputsOf(cfg, last))
    ensures Own(final) == Own(single)
  {
    var last := states[|states| - 1];
    CompleteRunOwn(cfg, last, final);
    HistoryAbsorbed(cfg, states, InputsOf(cfg, last), |states| - 1);
    SameStart(cfg, states[0], last);
    CompleteRunOwn(cfg, WithInputsOf(states[0], last), single);
  }

  lemma SameStart(cfg: Config, s: Sys, late: Sys)
    ensures InputsOf(cfg, WithInputsOf(s, late)) == InputsOf(cfg, late) && Own(WithInputsOf(s, late)) == Own(s)
  {
  }

  /** With external IPAM: runs that find no address on br-ovn stop, whatever they wrote and whether or not
      they applied netplan, and the missing address does not spoil what the complete run leaves. */
  lemma LateAddressConverges(cfg: Config, states: seq<Sys>, final: Sys, single: Sys)
    requires cfg.mode.ExternalIPAM? && History(cfg, states)
    requires var last := states[|states| - 1];
             && Run(cfg, last, true, final)
             && Run(cfg, WithInputsOf(states[0], last), true, single)
             && forall k | 0 <= k < |states| ::
                  var early, late := InputsOf(cfg, states[k]), InputsOf(cfg, last);
                  early.(brOVN := late.brOVN) == late && (OneAddress(early.brOVN) ==> early.brOVN == late.brOVN)
    ensures Own(final) == Own(single)
  {
    var last := states[|states| - 1];
    forall k | 0 <= k < |states| ensures Foreshadows(cfg, InputsOf(cfg, states[k]), InputsOf(cfg, last)) {
      var early, late := InputsOf(cfg, states[k]), InputsOf(cfg, last);
      assert early.env == late.env && early.flannel == late.flannel && early.oob == late.oob;
    }
    LateInputsConverge(cfg, states, final, single);
  }

  // ------------------------------------------------------------ netplan over histories

  lemma NetplanRests(s: Netplan.State, now: nat)
    requires s.now <= now
    ensures Netplan.Attempted(s, s.(now := now))
  {
    assert s.(now := now) == Netplan.Attempt(s, s.now, now, Netplan.ReadFails);
  }

  lemma ReachesAttempts(plan: seq<Action>, before: Sys, ok: bool, after: Sys)
    requires Reaches(plan, before, ok, after)
    ensures Netplan.Attempted(before.netplan, after.netplan)
  {
    NetplanRests(before.netplan, before.netplan.now);
    assert before.netplan.(now := before.netplan.now) == before.netplan;
    if !ok {
      var n :| 0 <= n < |plan| && StopsAt(plan, n, before, after);
      TornAttempts(plan[n], ExecAll(plan[..n], before), after);
    }
  }

  lemma TornAttempts(a: Action, before: Sys, after: Sys)
    requires Torn(a, before, after)
    ensures after.netplan == before.netplan || (a.ApplyNetplan? && Netplan.Attempted(before.netplan, after.netplan))
  {
  }

  /** Every step of a history is one attempt, as far as netplan is concerned. */
  lemma StepAttempts(cfg: Config, before: Sys, after: Sys)
    requires Step(cfg, before, after)
    ensures Netplan.Attempted(before.netplan, after.netplan)
  {
    if Outside(before, after) {
      NetplanRests(before.netplan, after.netplan.now);
      assert after.netplan == before.netplan.(now := after.netplan.now);
    } else {
      var ok := Run(cfg, before, true, after);
      var start, end := RunParts(cfg, before, ok, after);
      ReachesAttempts(Plan(cfg, InputsOf(cfg, start)), start, ok, end);
    }
  }

  function NetplanOf(states: seq<Sys>): (r: seq<Netplan.State>)
    ensures |r| == |states|
  {
    seq(|states|, i requires 0 <= i < |states| => states[i].netplan)
  }

  lemma HistoryIsExecution(cfg: Config, states: seq<Sys>)
    requires History(cfg, states) && states[0].netplan.applies == [] && Netplan.Healthy(states[0].netplan)
    ensures Netplan.Execution(NetplanOf(states))
  {
    forall i | 0 <= i < |states| - 1 ensures Netplan.Attempted(states[i].netplan, states[i + 1].netplan) {
      StepAt(cfg, states, i);
      StepAttempts(cfg, states[i], states[i + 1]);
    }
    AttemptsAreExecution(states);
  }

  lemma AttemptsAreExecution(states: seq<Sys>)
    requires states != [] && states[0].netplan.applies == [] && Netplan.Healthy(states[0].netplan)
    requires forall i | 0 <= i < |states| - 1 :: Netplan.Attempted(states[i].netplan, states[i + 1].netplan)
    ensures Netplan.Execution(NetplanOf(states))
  {
    var n := NetplanOf(states);
    forall i | 0 <= i < |n| - 1 ensures Netplan.Attempted(n[i], n[i + 1]) {
      assert Netplan.Attempted(states[i].netplan, states[i + 1].netplan);
    }
  }

  /** Over every history of the configuration loop: commands keep two minutes from earlier whole stamps,
      a window of W whole seconds holds at most W/120 + 1 of them, and the stamp can always be read. */
  lemma HistoryRateBound(cfg: Config, states: seq<Sys>, k: nat, from: nat, width: nat)
    requires History(cfg, states) && states[0].netplan.applies == [] && Netplan.Healthy(states[0].netplan)
    requires k < |states|
    ensures Netplan.Separated(states[k].netplan.applies)
    ensures Netplan.CountInWindow(states[k].netplan.applies, from, width) <= width / 120 + 1
    ensures var applies := states[k].netplan.applies;
            forall i, j | 0 <= i < j < |applies| && applies[i].stamped.Some? ::
              applies[i].stamped.value + 120 <= applies[j].start
    ensures Netplan.Healthy(states[k].netplan)
  {
    HistoryIsExecution(cfg, states);
    Netplan.RateBound(NetplanOf(states), k, from, width);
    Netplan.Reachable(NetplanOf(states), k);
  }
}
