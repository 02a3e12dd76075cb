/** Kernel routes and policy rules, and the lookup they define: rules in order of priority, and in
    each table the longest matching prefix and then the lowest metric (section 5.2.4.3 of RFC 1812). */
module Routing {
  import opened Wrappers
  import opened Net

  const MAIN_TABLE := 254
  const SOURCE_TABLE := 60

  datatype Route = Route(network: IPNet, gateway: IPv4, device: string, metric: nat, table: nat)

  datatype Rule = Rule(priority: nat, source: IPNet, table: nat)

  /** Whether a route counts as already present: the metric is not compared. */
  predicate SameRoute(q: Route, r: Route) {
    q.network == r.network && q.gateway == r.gateway && q.device == r.device && q.table == r.table
  }

  predicate HasRoute(routes: seq<Route>, r: Route) {
    exists i | 0 <= i < |routes| :: SameRoute(routes[i], r)
  }

  function EnsureRoute(routes: seq<Route>, r: Route): seq<Route> {
    if HasRoute(routes, r) then routes else routes + [r]
  }

  /** The kernel keeps rules by priority; a new rule goes after those of equal priority. */
  function InsertRule(rules: seq<Rule>, r: Rule): seq<Rule> {
    if rules == [] then [r]
    else if rules[0].priority <= r.priority then [rules[0]] + InsertRule(rules[1..], r)
    else [r] + rules
  }

  function EnsureRule(rules: seq<Rule>, r: Rule): seq<Rule> {
    if r in rules then rules else InsertRule(rules, r)
  }

  predicate Sorted(rules: seq<Rule>) {
    forall i, j | 0 <= i < j < |rules| :: rules[i].priority <= rules[j].priority
  }

  // ------------------------------------------------------------------------ lookup

  predicate Covers(r: Route, table: nat, dst: IPv4) {
    r.table == table && Contains(r.network, dst)
  }

  predicate Better(a: Route, b: Route) {
    a.network.ones > b.network.ones || (a.network.ones == b.network.ones && a.metric < b.metric)
  }

  /** The route a table selects for a destination; among equals, the earliest. */
  function Best(routes: seq<Route>, table: nat, dst: IPv4): Option<Route> {
    if routes == [] then None
    else
      var front, last := Best(routes[..|routes| - 1], table, dst), routes[|routes| - 1];
      if Covers(last, table, dst) && (front.None? || Better(last, front.value)) then Some(last) else front
  }

  /** The route for a packet: the first rule for its source whose table has a route. */
  function Lookup(rules: seq<Rule>, routes: seq<Route>, src: IPv4, dst: IPv4): Option<Route> {
    if rules == [] then None
    else if Resolves(rules[0], routes, src, dst) then Best(routes, rules[0].table, dst)
    else Lookup(rules[1..], routes, src, dst)
  }

  predicate Resolves(r: Rule, routes: seq<Route>, src: IPv4, dst: IPv4) {
    Contains(r.source, src) && Best(routes, r.table, dst).Some?
  }

  /** The selected route covers the destination and no covering route beats it. */
  lemma {:induction false} BestIsBest(routes: seq<Route>, table: nat, dst: IPv4)
    ensures var best := Best(routes, table, dst);
            && (best.None? <==> forall i | 0 <= i < |routes| :: !Covers(routes[i], table, dst))
            && (best.Some? ==>
                  && best.value in routes && Covers(best.value, table, dst)
                  && forall i | 0 <= i < |routes| && Covers(routes[i], table, dst) :: !Better(routes[i], best.value))
  {
    if routes != [] {
      BestIsBest(routes[..|routes| - 1], table, dst);
    }
  }

  lemma BestOfMore(routes: seq<Route>, r: Route, table: nat, dst: IPv4)
    ensures Best(routes + [r], table, dst) ==
            var before := Best(routes, table, dst);
            if Covers(r, table, dst) && (before.None? || Better(r, before.value)) then Some(r) else before
  {
    assert (routes + [r])[..|routes|] == routes;
  }

  // ------------------------------------------------------------ the high-metric host route

  /** Exactly when ensuring a route changes the selection for a destination: the route is new, covers
      the destination, and every covering route is less specific or equally specific and costlier. */
  lemma EnsuredRouteMatters(routes: seq<Route>, h: Route, dst: IPv4)
    ensures Best(EnsureRoute(routes, h), h.table, dst) != Best(routes, h.table, dst) <==>
              && !HasRoute(routes, h) && Contains(h.network, dst)
              && forall i | 0 <= i < |routes| && Covers(routes[i], h.table, dst) :: Better(h, routes[i])
    ensures forall t | t != h.table :: Best(EnsureRoute(routes, h), t, dst) == Best(routes, t, dst)
  {
    BestIsBest(routes, h.table, dst);
    BestOfMore(routes, h, h.table, dst);
    forall t | t != h.table ensures Best(EnsureRoute(routes, h), t, dst) == Best(routes, t, dst) {
      BestOfMore(routes, h, t, dst);
    }
    var before := Best(routes, h.table, dst);
    if before == Some(h) {
      var i :| 0 <= i < |routes| && routes[i] == h;
      assert SameRoute(routes[i], h);
    }
  }

  /** The host route is inert while its table has a route for the same network with a lower metric: it
      changes the selection for no destination. */
  lemma CostlyRouteIsInert(routes: seq<Route>, h: Route, i: nat, dst: IPv4)
    requires i < |routes| && routes[i].table == h.table && routes[i].network == h.network
    requires routes[i].metric <= h.metric
    ensures Best(EnsureRoute(routes, h), h.table, dst) == Best(routes, h.table, dst)
  {
    EnsuredRouteMatters(routes, h, dst);
    assert Contains(h.network, dst) ==> Covers(routes[i], h.table, dst) && !Better(h, routes[i]);
  }

  /** When the gateway of the host route changes, every destination keeps its route: the old host route is
      as good as the new one and comes first. */
  lemma OldHostRouteStays(routes: seq<Route>, h: Route, gateway: IPv4, dst: IPv4)
    requires forall i | 0 <= i < |routes| && SameRoute(routes[i], h) :: routes[i].metric <= h.metric
    ensures var once := EnsureRoute(routes, h);
            Best(EnsureRoute(once, h.(gateway := gateway)), h.table, dst) == Best(once, h.table, dst)
  {
    var once := EnsureRoute(routes, h);
    var i :| 0 <= i < |once| && SameRoute(once[i], h) && once[i].metric <= h.metric by {
      if !HasRoute(routes, h) {
        assert once[|routes|] == h;
      }
    }
    CostlyRouteIsInert(once, h.(gateway := gateway), i, dst);
  }

  /** Otherwise it changes only destinations in its network that have no more specific route, and for
      those it becomes the selected route. */
  lemma HostRouteChangesLittle(routes: seq<Route>, h: Route, dst: IPv4)
    requires Best(EnsureRoute(routes, h), h.table, dst) != Best(routes, h.table, dst)
    ensures Contains(h.network, dst) && Best(EnsureRoute(routes, h), h.table, dst) == Some(h)
    ensures forall i | 0 <= i < |routes| && Covers(routes[i], h.table, dst) :: routes[i].network.ones <= h.network.ones
  {
    EnsuredRouteMatters(routes, h, dst);
    BestOfMore(routes, h, h.table, dst);
  }

  // ------------------------------------------------------------------ inserting rules

  lemma {:induction false} InsertContents(rules: seq<Rule>, r: Rule)
    ensures forall q :: q in InsertRule(rules, r) <==> q in rules || q == r
  {
    if rules != [] {
      InsertContents(rules[1..], r);
      assert rules == [rules[0]] + rules[1..];
    }
  }

  lemma PrependKeepsSorted(r: Rule, rules: seq<Rule>)
    requires Sorted(rules) && forall q | q in rules :: r.priority <= q.priority
    ensures Sorted([r] + rules)
  {
  }

  lemma {:induction false} InsertKeepsSorted(rules: seq<Rule>, r: Rule)
    requires Sorted(rules)
    ensures Sorted(InsertRule(rules, r))
  {
    if rules != [] {
      if rules[0].priority <= r.priority {
        InsertKeepsSorted(rules[1..], r);
        InsertContents(rules[1..], r);
        PrependKeepsSorted(rules[0], InsertRule(rules[1..], r));
      } else {
        PrependKeepsSorted(r, rules);
      }
    }
  }

  lemma EnsureRuleKeepsSorted(rules: seq<Rule>, r: Rule)
    requires Sorted(rules)
    ensures Sorted(EnsureRule(rules, r)) && r in EnsureRule(rules, r)
    ensures forall q :: q in EnsureRule(rules, r) <==> q in rules || q == r
  {
    InsertKeepsSorted(rules, r);
    InsertContents(rules, r);
  }

  /** The rules that do not point at the given table, in order. */
  function Foreign(rules: seq<Rule>, table: nat): seq<Rule> {
    if rules == [] then []
    else (if rules[0].table != table then [rules[0]] else []) + Foreign(rules[1..], table)
  }

  lemma {:induction false} InsertKeepsForeign(rules: seq<Rule>, r: Rule)
    ensures Foreign(InsertRule(rules, r), r.table) == Foreign(rules, r.table)
  {
    if rules != [] {
      if rules[0].priority <= r.priority {
        InsertKeepsForeign(rules[1..], r);
        assert ([rules[0]] + InsertRule(rules[1..], r))[1..] == InsertRule(rules[1..], r);
      } else {
        assert ([r] + rules)[1..] == rules;
      }
    }
  }

  lemma EnsureRuleKeepsForeign(rules: seq<Rule>, r: Rule)
    ensures Foreign(EnsureRule(rules, r), r.table) == Foreign(rules, r.table)
  {
    InsertKeepsForeign(rules, r);
  }

  /** Routes of one table do not matter to rules that point elsewhere. */
  lemma {:induction false} LookupOtherTables(rules: seq<Rule>, routes: seq<Route>, more: seq<Route>, src: IPv4,
                                             dst: IPv4)
    requires forall i | 0 <= i < |rules| :: Best(more, rules[i].table, dst) == Best(routes, rules[i].table, dst)
    ensures Lookup(rules, more, src, dst) == Lookup(rules, routes, src, dst)
  {
    if rules != [] {
      LookupOtherTables(rules[1..], routes, more, src, dst);
    }
  }

  // ---------------------------------------------------------------- symmetric routing

  const FLANNEL_PRIORITY := 31000
  const OOB_PRIORITY := 32000

  /** What symmetric routing puts in place: two source rules and the route of their table. */
  datatype Symmetric = Symmetric(flannel: IPNet, oob: IPv4, vtepCIDR: IPNet, gateway: IPv4, device: string)

  function FlannelRule(p: Symmetric): Rule {
    Rule(FLANNEL_PRIORITY, p.flannel, SOURCE_TABLE)
  }

  function OOBRule(p: Symmetric): Rule {
    Rule(OOB_PRIORITY, Single(p.oob), SOURCE_TABLE)
  }

  function ReturnRoute(p: Symmetric): Route {
    Route(p.vtepCIDR, p.gateway, p.device, 0, SOURCE_TABLE)
  }

  function SymmetricRules(p: Symmetric, rules: seq<Rule>): seq<Rule> {
    EnsureRule(EnsureRule(rules, FlannelRule(p)), OOBRule(p))
  }

  function SymmetricRoutes(p: Symmetric, routes: seq<Route>): seq<Route> {
    EnsureRoute(routes, ReturnRoute(p))
  }

  // ------------------------------------------------------------------ lookup, taken apart

  /** The first rule that concerns the packet points at table 60: no rule for another table resolves it
      before. A rule concerns the packet if it points at table 60 and covers the source, or resolves it. */
  predicate SourceFirst(rules: seq<Rule>, routes: seq<Route>, src: IPv4, dst: IPv4) {
    rules != [] &&
    if rules[0].table == SOURCE_TABLE
    then Contains(rules[0].source, src) || SourceFirst(rules[1..], routes, src, dst)
    else !Resolves(rules[0], routes, src, dst) && SourceFirst(rules[1..], routes, src, dst)
  }

  /** A lookup is that of table 60, if its rules come first and it has a route, and otherwise what it
      would be without table 60. */
  lemma {:induction false} LookupSplits(rules: seq<Rule>, routes: seq<Route>, src: IPv4, dst: IPv4)
    ensures var best := Best(routes, SOURCE_TABLE, dst);
            Lookup(rules, routes, src, dst) ==
            if SourceFirst(rules, routes, src, dst) && best.Some? then best
            else Lookup(Foreign(rules, SOURCE_TABLE), routes, src, dst)
  {
    if rules != [] {
      LookupSplits(rules[1..], routes, src, dst);
      var rest := Foreign(rules[1..], SOURCE_TABLE);
      if rules[0].table != SOURCE_TABLE {
        assert ([rules[0]] + rest)[1..] == rest;
      } else {
        assert [] + rest == rest;
      }
    }
  }

  lemma {:induction false} ForeignTables(rules: seq<Rule>)
    ensures forall i | 0 <= i < |Foreign(rules, SOURCE_TABLE)| :: Foreign(rules, SOURCE_TABLE)[i].table != SOURCE_TABLE
  {
    if rules != [] {
      ForeignTables(rules[1..]);
    }
  }

  /** Without table 60 no packet finds a route of table 60. */
  lemma {:induction false} ForeignLookup(rules: seq<Rule>, routes: seq<Route>, src: IPv4, dst: IPv4)
    requires forall i | 0 <= i < |rules| :: rules[i].table != SOURCE_TABLE
    ensures Lookup(rules, routes, src, dst).Some? ==> Lookup(rules, routes, src, dst).value.table != SOURCE_TABLE
  {
    if rules != [] {
      BestIsBest(routes, rules[0].table, dst);
      ForeignLookup(rules[1..], routes, src, dst);
    }
  }

  lemma {:induction false} SourceFirstOtherTables(rules: seq<Rule>, routes: seq<Route>, more: seq<Route>, src: IPv4,
                                                  dst: IPv4)
    requires forall t | t != SOURCE_TABLE :: Best(more, t, dst) == Best(routes, t, dst)
    ensures SourceFirst(rules, more, src, dst) <==> SourceFirst(rules, routes, src, dst)
  {
    if rules != [] {
      SourceFirstOtherTables(rules[1..], routes, more, src, dst);
    }
  }

  /** A further rule for table 60 can only bring the table forward, and only for sources it covers. */
  lemma {:induction false} SourceFirstInserted(rules: seq<Rule>, r: Rule, routes: seq<Route>, src: IPv4, dst: IPv4)
    requires r.table == SOURCE_TABLE
    ensures SourceFirst(rules, routes, src, dst) ==> SourceFirst(InsertRule(rules, r), routes, src, dst)
    ensures !Contains(r.source, src) ==>
              (SourceFirst(InsertRule(rules, r), routes, src, dst) <==> SourceFirst(rules, routes, src, dst))
  {
    if rules != [] && rules[0].priority <= r.priority {
      SourceFirstInserted(rules[1..], r, routes, src, dst);
      assert ([rules[0]] + InsertRule(rules[1..], r))[1..] == InsertRule(rules[1..], r);
    } else {
      assert ([r] + rules)[1..] == rules;
    }
  }

  lemma {:induction false} SourceFirstAt(rules: seq<Rule>, routes: seq<Route>, src: IPv4, dst: IPv4, i: nat)
    requires i < |rules| && rules[i].table == SOURCE_TABLE && Contains(rules[i].source, src)
    requires forall j | 0 <= j < i && rules[j].table != SOURCE_TABLE :: !Resolves(rules[j], routes, src, dst)
    ensures SourceFirst(rules, routes, src, dst)
  {
    if i > 0 {
      assert rules[1..][i - 1] == rules[i];
      assert forall j | 0 <= j < i - 1 :: rules[1..][j] == rules[j + 1];
      SourceFirstAt(rules[1..], routes, src, dst, i - 1);
    }
  }

  lemma {:induction false} ForeignFirstAt(rules: seq<Rule>, routes: seq<Route>, src: IPv4, dst: IPv4, i: nat)
    requires i < |rules| && rules[i].table != SOURCE_TABLE && Resolves(rules[i], routes, src, dst)
    requires forall j | 0 <= j < i && rules[j].table == SOURCE_TABLE :: !Contains(rules[j].source, src)
    ensures !SourceFirst(rules, routes, src, dst)
  {
    if i > 0 {
      assert rules[1..][i - 1] == rules[i];
      assert forall j | 0 <= j < i - 1 :: rules[1..][j] == rules[j + 1];
      ForeignFirstAt(rules[1..], routes, src, dst, i - 1);
    }
  }

  lemma {:induction false} SourceFirstCovers(rules: seq<Rule>, routes: seq<Route>, src: IPv4, dst: IPv4)
    requires SourceFirst(rules, routes, src, dst)
    ensures exists r: Rule :: r in rules && r.table == SOURCE_TABLE && Contains(r.source, src)
  {
    if rules[0].table == SOURCE_TABLE && Contains(rules[0].source, src) {
      assert rules[0] in rules;
    } else {
      SourceFirstCovers(rules[1..], routes, src, dst);
    }
  }

  // ------------------------------------------------------- before and after, for any tables

  /** The sources whose packets must return through the out-of-band interface. */
  predicate Covered(p: Symmetric, src: IPv4) {
    Contains(p.flannel, src) || src == p.oob
  }

  predicate Returns(p: Symmetric, src: IPv4, dst: IPv4) {
    Covered(p, src) && Contains(p.vtepCIDR, dst)
  }

  predicate Leaves(p: Symmetric, found: Option<Route>) {
    found.Some? && SameRoute(found.value, ReturnRoute(p))
  }

  /** Table 60 as it was sends the destination by the return route, has nothing for it, or has something
      the return route is new to and better than. */
  predicate ReturnRouteWins(p: Symmetric, routes: seq<Route>, dst: IPv4) {
    var best := Best(routes, SOURCE_TABLE, dst);
    || best.None?
    || SameRoute(best.value, ReturnRoute(p))
    || (!HasRoute(routes, ReturnRoute(p)) && Better(ReturnRoute(p), best.value))
  }

  lemma ReturnRouteWinsExactly(p: Symmetric, routes: seq<Route>, dst: IPv4)
    requires Contains(p.vtepCIDR, dst)
    ensures Leaves(p, Best(SymmetricRoutes(p, routes), SOURCE_TABLE, dst)) <==> ReturnRouteWins(p, routes, dst)
  {
    var r := ReturnRoute(p);
    BestIsBest(routes, SOURCE_TABLE, dst);
    BestOfMore(routes, r, SOURCE_TABLE, dst);
    if HasRoute(routes, r) {
      var i :| 0 <= i < |routes| && SameRoute(routes[i], r);
      assert Covers(routes[i], SOURCE_TABLE, dst);
    }
  }

  lemma LookupAfter(p: Symmetric, rules: seq<Rule>, routes: seq<Route>, src: IPv4, dst: IPv4)
    ensures var best := Best(SymmetricRoutes(p, routes), SOURCE_TABLE, dst);
            var without := Lookup(Foreign(rules, SOURCE_TABLE), routes, src, dst);
            && Lookup(SymmetricRules(p, rules), SymmetricRoutes(p, routes), src, dst) ==
               (if SourceFirst(SymmetricRules(p, rules), routes, src, dst) && best.Some? then best else without)
            && (without.Some? ==> without.value.table != SOURCE_TABLE)
  {
    var after, more := SymmetricRules(p, rules), SymmetricRoutes(p, routes);
    LookupSplits(after, more, src, dst);
    EnsuredRouteMatters(routes, ReturnRoute(p), dst);
    SourceFirstOtherTables(after, routes, more, src, dst);
    EnsureRuleKeepsForeign(rules, FlannelRule(p));
    EnsureRuleKeepsForeign(EnsureRule(rules, FlannelRule(p)), OOBRule(p));
    ForeignTables(rules);
    LookupOtherTables(Foreign(rules, SOURCE_TABLE), routes, more, src, dst);
    ForeignLookup(Foreign(rules, SOURCE_TABLE), routes, src, dst);
  }

  /** Exactly when a returning packet leaves through the default gateway on the out-of-band interface,
      whatever the rules and tables held before. */
  lemma ReturningPacketsExactly(p: Symmetric, rules: seq<Rule>, routes: seq<Route>, src: IPv4, dst: IPv4)
    requires Returns(p, src, dst)
    ensures Leaves(p, Lookup(SymmetricRules(p, rules), SymmetricRoutes(p, routes), src, dst)) <==>
              SourceFirst(SymmetricRules(p, rules), routes, src, dst) && ReturnRouteWins(p, routes, dst)
  {
    LookupAfter(p, rules, routes, src, dst);
    ReturnRouteWinsExactly(p, routes, dst);
  }

  /** A rule of an earlier run sends the packet to table 60, where the return route is new and best. */
  predicate NewRouteDiverts(p: Symmetric, rules: seq<Rule>, routes: seq<Route>, src: IPv4, dst: IPv4) {
    && SourceFirst(rules, routes, src, dst) && Contains(p.vtepCIDR, dst) && !HasRoute(routes, ReturnRoute(p))
    && forall i | 0 <= i < |routes| && Covers(routes[i], SOURCE_TABLE, dst) :: Better(ReturnRoute(p), routes[i])
  }

  /** A new rule sends the packet to table 60, where a route of an earlier run takes it. */
  predicate NewRuleDiverts(p: Symmetric, rules: seq<Rule>, routes: seq<Route>, src: IPv4, dst: IPv4) {
    && !SourceFirst(rules, routes, src, dst) && SourceFirst(SymmetricRules(p, rules), routes, src, dst)
    && Best(routes, SOURCE_TABLE, dst).Some?
  }

  lemma SymmetricRulesFirst(p: Symmetric, rules: seq<Rule>, routes: seq<Route>, src: IPv4, dst: IPv4)
    ensures SourceFirst(rules, routes, src, dst) ==> SourceFirst(SymmetricRules(p, rules), routes, src, dst)
    ensures !Covered(p, src) ==>
              (SourceFirst(SymmetricRules(p, rules), routes, src, dst) <==> SourceFirst(rules, routes, src, dst))
  {
    var once := EnsureRule(rules, FlannelRule(p));
    SingleContains(p.oob, src);
    SourceFirstInserted(rules, FlannelRule(p), routes, src, dst);
    SourceFirstInserted(once, OOBRule(p), routes, src, dst);
  }

  /** Exactly when any other packet is routed as before, whatever the rules and tables held. */
  lemma OtherPacketsExactly(p: Symmetric, rules: seq<Rule>, routes: seq<Route>, src: IPv4, dst: IPv4)
    requires !Returns(p, src, dst)
    ensures Lookup(SymmetricRules(p, rules), SymmetricRoutes(p, routes), src, dst) == Lookup(rules, routes, src, dst)
            <==> !NewRouteDiverts(p, rules, routes, src, dst) && !NewRuleDiverts(p, rules, routes, src, dst)
  {
    LookupAfter(p, rules, routes, src, dst);
    LookupSplits(rules, routes, src, dst);
    SymmetricRulesFirst(p, rules, routes, src, dst);
    EnsuredRouteMatters(routes, ReturnRoute(p), dst);
    BestIsBest(routes, SOURCE_TABLE, dst);
    BestIsBest(SymmetricRoutes(p, routes), SOURCE_TABLE, dst);
  }

  // ------------------------------------------------- conditions by priority and by ownership

  function FirstPriority(p: Symmetric, src: IPv4): nat {
    if Contains(p.flannel, src) then FLANNEL_PRIORITY else OOB_PRIORITY
  }

  /** A rule for another table, of at most the given priority, already resolves the packet. */
  predicate ResolvedUpTo(rules: seq<Rule>, routes: seq<Route>, src: IPv4, dst: IPv4, priority: nat) {
    exists i | 0 <= i < |rules| ::
      rules[i].table != SOURCE_TABLE && rules[i].priority <= priority && Resolves(rules[i], routes, src, dst)
  }

  lemma SymmetricRulesContents(p: Symmetric, rules: seq<Rule>)
    requires Sorted(rules)
    ensures Sorted(SymmetricRules(p, rules))
    ensures forall r :: r in SymmetricRules(p, rules) <==> r in rules || r == FlannelRule(p) || r == OOBRule(p)
  {
    EnsureRuleKeepsSorted(rules, FlannelRule(p));
    EnsureRuleKeepsSorted(EnsureRule(rules, FlannelRule(p)), OOBRule(p));
  }

  lemma EarlierRulesFail(rules: seq<Rule>, after: seq<Rule>, routes: seq<Route>, src: IPv4, dst: IPv4, i: nat)
    requires Sorted(after) && i < |after| && !ResolvedUpTo(rules, routes, src, dst, after[i].priority)
    requires forall r: Rule | r in after && r.table != SOURCE_TABLE :: r in rules
    ensures forall j | 0 <= j < i && after[j].table != SOURCE_TABLE :: !Resolves(after[j], routes, src, dst)
  {
    forall j | 0 <= j < i && after[j].table != SOURCE_TABLE ensures !Resolves(after[j], routes, src, dst) {
      assert after[j] in after;
      var k :| 0 <= k < |rules| && rules[k] == after[j];
      assert !ResolvedUpTo(rules, routes, src, dst, after[i].priority);
    }
  }

  /** A returning packet that no earlier rule resolves, and for which no route of an earlier run is in the
      way, leaves through the default gateway on the out-of-band interface. */
  lemma ReturningPacketsReturn(p: Symmetric, rules: seq<Rule>, routes: seq<Route>, src: IPv4, dst: IPv4)
    requires Sorted(rules) && Returns(p, src, dst) && ReturnRouteWins(p, routes, dst)
    requires !ResolvedUpTo(rules, routes, src, dst, FirstPriority(p, src))
    ensures Leaves(p, Lookup(SymmetricRules(p, rules), SymmetricRoutes(p, routes), src, dst))
  {
    var after := SymmetricRules(p, rules);
    SymmetricRulesContents(p, rules);
    SingleContains(p.oob, src);
    var r := if Contains(p.flannel, src) then FlannelRule(p) else OOBRule(p);
    assert r in after;
    var i :| 0 <= i < |after| && after[i] == r;
    EarlierRulesFail(rules, after, routes, src, dst, i);
    SourceFirstAt(after, routes, src, dst, i);
    ReturningPacketsExactly(p, rules, routes, src, dst);
  }

  /** Table 60 holds only routes of this and earlier runs: to the VTEP CIDR, by any gateway and device. */
  predicate OwnsTable(p: Symmetric, routes: seq<Route>) {
    forall i | 0 <= i < |routes| && routes[i].table == SOURCE_TABLE ::
      routes[i].network == p.vtepCIDR && (routes[i].metric == 0 || SameRoute(routes[i], ReturnRoute(p)))
  }

  /** Every other packet is routed as before, falling through table 60. The exception is a packet from a
      source of an earlier run, when table 60 had lost its route. */
  lemma OtherPacketsUnchanged(p: Symmetric, rules: seq<Rule>, routes: seq<Route>, src: IPv4, dst: IPv4)
    requires OwnsTable(p, routes) && !Returns(p, src, dst)
    requires || Best(routes, SOURCE_TABLE, dst).Some? || !Contains(p.vtepCIDR, dst)
             || forall r: Rule | r in rules && r.table == SOURCE_TABLE :: !Contains(r.source, src)
    ensures Lookup(SymmetricRules(p, rules), SymmetricRoutes(p, routes), src, dst) == Lookup(rules, routes, src, dst)
  {
    OtherPacketsExactly(p, rules, routes, src, dst);
    BestIsBest(routes, SOURCE_TABLE, dst);
    if SourceFirst(rules, routes, src, dst) {
      SourceFirstCovers(rules, routes, src, dst);
    }
    SymmetricRulesFirst(p, rules, routes, src, dst);
    EnsuredRouteMatters(routes, ReturnRoute(p), dst);
  }

  /** A packet that a rule before all rules for its source resolves is routed as before, too. */
  lemma ResolvedPacketsUnchanged(p: Symmetric, rules: seq<Rule>, routes: seq<Route>, src: IPv4, dst: IPv4, k: nat)
    requires Sorted(rules) && k < |rules| && rules[k].table != SOURCE_TABLE && Resolves(rules[k], routes, src, dst)
    requires Covered(p, src) ==> rules[k].priority < FirstPriority(p, src)
    requires forall r: Rule | r in rules && r.table == SOURCE_TABLE && Contains(r.source, src) ::
              rules[k].priority < r.priority
    ensures Lookup(SymmetricRules(p, rules), SymmetricRoutes(p, routes), src, dst) == Lookup(rules, routes, src, dst)
  {
    var after := SymmetricRules(p, rules);
    SymmetricRulesContents(p, rules);
    SingleContains(p.oob, src);
    assert rules[k] in after;
    var j :| 0 <= j < |after| && after[j] == rules[k];
    LaterRules(rules, src, rules[k].priority, k);
    ForeignFirstAt(rules, routes, src, dst, k);
    LaterRules(after, src, rules[k].priority, j);
    ForeignFirstAt(after, routes, src, dst, j);
    LookupAfter(p, rules, routes, src, dst);
    LookupSplits(rules, routes, src, dst);
  }

  lemma LaterRules(rules: seq<Rule>, src: IPv4, priority: nat, k: nat)
    requires Sorted(rules) && k < |rules| && rules[k].priority == priority
    requires forall r: Rule | r in rules && r.table == SOURCE_TABLE && Contains(r.source, src) :: priority < r.priority
    ensures forall j | 0 <= j < k && rules[j].table == SOURCE_TABLE :: !Contains(rules[j].source, src)
  {
    forall j | 0 <= j < k && rules[j].table == SOURCE_TABLE ensures !Contains(rules[j].source, src) {
      assert rules[j] in rules;
    }
  }

  // ------------------------------------------------------------------- routes left behind

  /** The routes of table 60, in order. */
  function SourceRoutes(routes: seq<Route>): seq<Route> {
    if routes == [] then []
    else
      var last := routes[|routes| - 1];
      SourceRoutes(routes[..|routes| - 1]) + if last.table == SOURCE_TABLE then [last] else []
  }

  predicate AllOwn(p: Symmetric, routes: seq<Route>) {
    forall i | 0 <= i < |routes| :: routes[i].network == p.vtepCIDR && routes[i].metric == 0
  }

  lemma {:induction false} OldestRouteIsBest(p: Symmetric, routes: seq<Route>, dst: IPv4)
    requires AllOwn(p, SourceRoutes(routes)) && Contains(p.vtepCIDR, dst)
    ensures var own := SourceRoutes(routes);
            Best(routes, SOURCE_TABLE, dst) == if own == [] then None else Some(own[0])
  {
    if routes != [] {
      var front, last := routes[..|routes| - 1], routes[|routes| - 1];
      var own := SourceRoutes(front);
      assert forall i | 0 <= i < |own| :: SourceRoutes(routes)[i] == own[i];
      OldestRouteIsBest(p, front, dst);
      if last.table == SOURCE_TABLE {
        assert SourceRoutes(routes)[|own|] == last;
      }
    }
  }

  /** Among routes left behind by earlier runs the oldest is selected, so the return route wins exactly
      when the table was empty or its oldest route is the return route. */
  lemma OldestRouteWins(p: Symmetric, routes: seq<Route>, dst: IPv4)
    requires AllOwn(p, SourceRoutes(routes)) && Contains(p.vtepCIDR, dst)
    ensures var own := SourceRoutes(routes);
            ReturnRouteWins(p, routes, dst) <==> own == [] || SameRoute(own[0], ReturnRoute(p))
  {
    OldestRouteIsBest(p, routes, dst);
  }

  /** When the default gateway changes between two runs, returning packets still leave by the old one,
      whether the kernel takes the new route behind the old one or refuses it. */
  lemma OldGatewayStays(p: Symmetric, gateway: IPv4, rules: seq<Rule>, routes: seq<Route>, src: IPv4, dst: IPv4)
    requires Sorted(rules) && SourceRoutes(routes) == [] && Returns(p, src, dst)
    requires !ResolvedUpTo(rules, routes, src, dst, FirstPriority(p, src))
    ensures var q := p.(gateway := gateway);
            && Leaves(p, Lookup(SymmetricRules(q, SymmetricRules(p, rules)),
                                SymmetricRoutes(q, SymmetricRoutes(p, routes)), src, dst))
            && Leaves(p, Lookup(SymmetricRules(q, SymmetricRules(p, rules)), SymmetricRoutes(p, routes), src, dst))
  {
    var q := p.(gateway := gateway);
    var once, more := SymmetricRules(p, rules), SymmetricRoutes(p, routes);
    OldestRouteIsBest(p, routes, dst);
    ReturningPacketsReturn(p, rules, routes, src, dst);
    ReturnRouteWinsExactly(p, routes, dst);
    SymmetricRulesContents(p, rules);
    assert SymmetricRules(q, once) == once;
    LookupAfter(p, rules, routes, src, dst);
    BestOfMore(more, ReturnRoute(q), SOURCE_TABLE, dst);
    EnsuredRouteMatters(more, ReturnRoute(q), dst);
    LookupAfter(q, once, more, src, dst);
    EnsuredRouteMatters(routes, ReturnRoute(p), dst);
    SourceFirstOtherTables(once, routes, more, src, dst);
    ReturningPacketsExactly(p, rules, routes, src, dst);
  }

  // ----------------------------------------------------------------- the basic operations

  /** A route is added unless one with its network, gateway, device and table is there, at any metric. */
  lemma EnsureRouteExactly(routes: seq<Route>, r: Route)
    ensures EnsureRoute(routes, r) == routes <==>
              exists q :: q in routes && q.network == r.network && q.gateway == r.gateway
                          && q.device == r.device && q.table == r.table
    ensures EnsureRoute(routes, r) == routes || EnsureRoute(routes, r) == routes + [r]
  {
    if HasRoute(routes, r) {
      var i :| 0 <= i < |routes| && SameRoute(routes[i], r);
      assert routes[i] in routes;
    } else {
      assert |routes + [r]| > |routes|;
      forall q | q in routes ensures !SameRoute(q, r) {
        var i :| 0 <= i < |routes| && routes[i] == q;
      }
    }
  }

  /** A packet takes the route of the first rule that covers its source and whose table has a route. */
  lemma {:induction false} LookupIsFirst(rules: seq<Rule>, routes: seq<Route>, src: IPv4, dst: IPv4, i: nat)
    requires i < |rules| && Contains(rules[i].source, src) && Best(routes, rules[i].table, dst).Some?
    requires forall j | 0 <= j < i && Contains(rules[j].source, src) :: Best(routes, rules[j].table, dst).None?
    ensures Lookup(rules, routes, src, dst) == Best(routes, rules[i].table, dst)
  {
    if i > 0 {
      assert !Resolves(rules[0], routes, src, dst);
      assert rules[1..][i - 1] == rules[i];
      assert forall j | 0 <= j < i - 1 :: rules[1..][j] == rules[j + 1];
      LookupIsFirst(rules[1..], routes, src, dst, i - 1);
    }
  }
}
