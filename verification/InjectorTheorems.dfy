/** What the injection webhook guarantees: the meaning of its affinity rewrite, the soundness of the
    decision, and what repeated admission does. */
module InjectorTheorems {
  import opened Wrappers
  import opened Scheduling
  import opened Injector

  // ------------------------------------------------------------ the affinity rewrite

  lemma ExclusionKeepsDPUOut(s: Settings, t: Term, node: Node)
    requires HasExclusion(t, s.dpuKey, s.dpuValue) && TermParses(t) && IsDPU(s, node)
    ensures !TermHolds(t, node)
  {
    var i :| 0 <= i < |t.expressions| && Excludes(t.expressions[i], s.dpuKey, s.dpuValue);
    assert !ExpressionHolds(t.expressions[i], node.labels);
  }

  lemma AppendedExclusion(s: Settings, t: Term, node: Node)
    ensures var e := t.(expressions := t.expressions + [Exclusion(s.dpuKey, s.dpuValue)]);
            && (TermParses(e) <==> TermParses(t))
            && (TermParses(t) ==> (TermHolds(e, node) <==> TermHolds(t, node) && !IsDPU(s, node)))
  {
    var x := Exclusion(s.dpuKey, s.dpuValue);
    var e := t.(expressions := t.expressions + [x]);
    assert e.expressions[|t.expressions|] == x;
    assert forall i | 0 <= i < |t.expressions| :: e.expressions[i] == t.expressions[i];
    assert ExpressionParses(x) && (ExpressionHolds(x, node.labels) <==> !IsDPU(s, node));
  }

  /** A rewritten term selects exactly the non-DPU nodes the original selected, except that an empty
      term, which selected nothing, now selects every non-DPU node. */
  lemma TermMeaning(s: Settings, t: Term, node: Node)
    ensures var r := ExcludeInTerm(t, s.dpuKey, s.dpuValue);
            && (TermSelects(r, node) <==> !IsDPU(s, node) && (TermSelects(t, node) || IsEmptyTerm(t)))
            && (TermIsMalformed(r) <==> TermIsMalformed(t))
            && !IsEmptyTerm(r)
  {
    if HasExclusion(t, s.dpuKey, s.dpuValue) {
      if TermParses(t) && IsDPU(s, node) {
        ExclusionKeepsDPUOut(s, t, node);
      }
    } else {
      AppendedExclusion(s, t, node);
    }
  }

  /** The terms to which the rewrite gives nodes the pod did not ask for. */
  predicate Widens(required: Option<seq<Term>>) {
    required.Some? && (required.value == [] || exists i | 0 <= i < |required.value| :: IsEmptyTerm(required.value[i]))
  }

  predicate HasMalformedTerm(pod: PodValue) {
    var required := RequiredTerms(pod.affinity);
    required.Some? && SomeTermMalformed(required.value)
  }

  lemma TermsMeaning(s: Settings, terms: seq<Term>, node: Node)
    requires terms != []
    ensures var r := ExcludeInTerms(terms, s.dpuKey, s.dpuValue);
            && (SomeTermSelects(r, node) <==>
                !IsDPU(s, node) && (SomeTermSelects(terms, node) || Widens(Some(terms))))
            && (SomeTermMalformed(r) <==> SomeTermMalformed(terms))
  {
    var r := ExcludeInTerms(terms, s.dpuKey, s.dpuValue);
    forall i | 0 <= i < |terms|
      ensures TermSelects(r[i], node) <==> !IsDPU(s, node) && (TermSelects(terms[i], node) || IsEmptyTerm(terms[i]))
      ensures TermIsMalformed(r[i]) <==> TermIsMalformed(terms[i])
    {
      TermMeaning(s, terms[i], node);
    }
    if SomeTermSelects(terms, node) && !IsDPU(s, node) {
      var i :| 0 <= i < |terms| && TermSelects(terms[i], node);
      assert TermSelects(r[i], node);
    }
    if Widens(Some(terms)) && !IsDPU(s, node) {
      var i :| 0 <= i < |terms| && IsEmptyTerm(terms[i]);
      assert TermSelects(r[i], node);
    }
    if SomeTermMalformed(terms) {
      var i :| 0 <= i < |terms| && TermIsMalformed(terms[i]);
      assert TermIsMalformed(r[i]);
    }
  }

  lemma FreshExclusionMeaning(s: Settings, node: Node)
    ensures MatchTerms(ExcludeInTerms([], s.dpuKey, s.dpuValue), node) == if IsDPU(s, node) then No else Yes
  {
    var terms := ExcludeInTerms([], s.dpuKey, s.dpuValue);
    TermMeaning(s, Term([], []), node);
    assert terms[0].expressions == [] + [Exclusion(s.dpuKey, s.dpuValue)];
    assert terms == [ExcludeInTerm(Term([], []), s.dpuKey, s.dpuValue)];
    assert TermSelects(terms[0], node) <==> !IsDPU(s, node);
  }

  /** The exact verdict of a rewritten pod on every node, malformed terms included. */
  lemma RewriteMeaning(s: Settings, pod: PodValue, node: Node)
    ensures MatchPod(Rewritten(s, pod), node) ==
            if !SelectorMatches(pod.nodeSelector, node) then No
            else if !IsDPU(s, node) && (MatchPod(pod, node).Yes? || Widens(RequiredTerms(pod.affinity))) then Yes
            else if HasMalformedTerm(pod) then Malformed
            else No
  {
    var required := RequiredTerms(pod.affinity);
    if required.Some? && required.value != [] {
      TermsMeaning(s, required.value, node);
    } else {
      FreshExclusionMeaning(s, node);
    }
  }

  /** At one node, the rewrite means "and not a DPU node" unless it widens there: an empty term or an
      empty term list starts to let in a non-DPU node the pod had excluded. */
  lemma RewriteExactAtNode(s: Settings, pod: PodValue, node: Node)
    ensures (MatchPod(Rewritten(s, pod), node).Yes? <==> MatchPod(pod, node).Yes? && !IsDPU(s, node))
            <==>
            (!Widens(RequiredTerms(pod.affinity)) || IsDPU(s, node)
             || !SelectorMatches(pod.nodeSelector, node) || MatchPod(pod, node).Yes?)
  {
    RewriteMeaning(s, pod, node);
  }

  /** Without empty terms the rewrite means exactly "and not a DPU node", on every node. */
  lemma RewriteIsExact(s: Settings, pod: PodValue)
    requires !Widens(RequiredTerms(pod.affinity))
    ensures forall node ::
              MatchPod(Rewritten(s, pod), node).Yes? <==> MatchPod(pod, node).Yes? && !IsDPU(s, node)
  {
    forall node
      ensures MatchPod(Rewritten(s, pod), node).Yes? <==> MatchPod(pod, node).Yes? && !IsDPU(s, node)
    {
      RewriteMeaning(s, pod, node);
    }
  }

  /** What survives in the text of the affinity: terms keep their number, fields and expressions, a
      term already excluding DPU nodes is untouched, and nothing else in the pod changes. */
  lemma RewriteShape(s: Settings, pod: PodValue)
    requires RequiredTerms(pod.affinity).Some? && RequiredTerms(pod.affinity).value != []
    ensures var before := RequiredTerms(pod.affinity).value;
            var required := RequiredTerms(Rewritten(s, pod).affinity);
            && required.Some? && |required.value| == |before|
            && (forall i | 0 <= i < |before| ::
                  && required.value[i].fields == before[i].fields
                  && before[i].expressions <= required.value[i].expressions
                  && |required.value[i].expressions| <= |before[i].expressions| + 1
                  && (HasExclusion(before[i], s.dpuKey, s.dpuValue) ==> required.value[i] == before[i])
                  && HasExclusion(required.value[i], s.dpuKey, s.dpuValue))
    ensures Rewritten(s, pod).affinity.value.podAffinities == pod.affinity.value.podAffinities
    ensures Rewritten(s, pod).affinity.value.nodeAffinity.value.preferred ==
              pod.affinity.value.nodeAffinity.value.preferred
    ensures Rewritten(s, pod).(affinity := pod.affinity) == pod
  {
    var before := RequiredTerms(pod.affinity).value;
    forall i | 0 <= i < |before|
      ensures HasExclusion(ExcludeInTerm(before[i], s.dpuKey, s.dpuValue), s.dpuKey, s.dpuValue)
    {
      AppendedHasExclusion(s, before[i]);
    }
  }

  lemma AppendedHasExclusion(s: Settings, t: Term)
    ensures HasExclusion(ExcludeInTerm(t, s.dpuKey, s.dpuValue), s.dpuKey, s.dpuValue)
  {
    var r := ExcludeInTerm(t, s.dpuKey, s.dpuValue);
    if !HasExclusion(t, s.dpuKey, s.dpuValue) {
      var last := r.expressions[|t.expressions|];
      assert s.dpuValue in last.values && Excludes(last, s.dpuKey, s.dpuValue);
    }
  }

  /** Rewriting twice is rewriting once. */
  lemma RewriteIdempotent(s: Settings, pod: PodValue)
    ensures Rewritten(s, Rewritten(s, pod)) == Rewritten(s, pod)
  {
    var once := RequiredTerms(Rewritten(s, pod).affinity).value;
    forall i | 0 <= i < |once| ensures ExcludeInTerm(once[i], s.dpuKey, s.dpuValue) == once[i] {
      var required := RequiredTerms(pod.affinity);
      if required.Some? && required.value != [] {
        AppendedHasExclusion(s, required.value[i]);
      } else {
        AppendedHasExclusion(s, Term([], []));
        assert once[i] == ExcludeInTerm(Term([], []), s.dpuKey, s.dpuValue) by {
          assert [] + [Exclusion(s.dpuKey, s.dpuValue)] == [Exclusion(s.dpuKey, s.dpuValue)];
        }
      }
    }
    assert ExcludeInTerms(once, s.dpuKey, s.dpuValue) == once;
  }

  // ------------------------------------------------------------------- the node scan

  lemma {:induction false} MatchingContents(pod: PodValue, nodes: seq<Node>)
    ensures forall n :: multiset(Matching(pod, nodes))[n] == if MatchPod(pod, n).Yes? then multiset(nodes)[n] else 0
    ensures forall n :: n in Matching(pod, nodes) <==> n in nodes && MatchPod(pod, n).Yes?
  {
    if nodes != [] {
      MatchingContents(pod, nodes[..|nodes| - 1]);
      assert nodes == nodes[..|nodes| - 1] + [nodes[|nodes| - 1]];
    }
  }

  predicate MatchesSome(pod: PodValue, nodes: seq<Node>) {
    exists i | 0 <= i < |nodes| :: MatchPod(pod, nodes[i]).Yes?
  }

  predicate MatchesDPU(s: Settings, pod: PodValue, nodes: seq<Node>) {
    exists i | 0 <= i < |nodes| :: MatchPod(pod, nodes[i]).Yes? && IsDPU(s, nodes[i])
  }

  predicate MatchesPlain(s: Settings, pod: PodValue, nodes: seq<Node>) {
    exists i | 0 <= i < |nodes| :: MatchPod(pod, nodes[i]).Yes? && !IsDPU(s, nodes[i])
  }

  /** The decision, read off the listed nodes instead of the matching ones. */
  lemma MatchingSome(s: Settings, pod: PodValue, nodes: seq<Node>)
    ensures SomeDPU(s, Matching(pod, nodes)) <==> MatchesDPU(s, pod, nodes)
    ensures SomePlain(s, Matching(pod, nodes)) <==> MatchesPlain(s, pod, nodes)
    ensures Matching(pod, nodes) != [] <==> MatchesSome(pod, nodes)
    ensures MatchesSome(pod, nodes) <==> MatchesDPU(s, pod, nodes) || MatchesPlain(s, pod, nodes)
  {
    MatchingDPU(s, pod, nodes);
    MatchingPlain(s, pod, nodes);
    var found := Matching(pod, nodes);
    if found != [] {
      assert IsDPU(s, found[0]) || !IsDPU(s, found[0]);
    }
  }

  lemma {:induction false} MatchingDPU(s: Settings, pod: PodValue, nodes: seq<Node>)
    ensures SomeDPU(s, Matching(pod, nodes)) <==> MatchesDPU(s, pod, nodes)
  {
    if nodes != [] {
      var front, last := nodes[..|nodes| - 1], nodes[|nodes| - 1];
      MatchingDPU(s, pod, front);
      var before, found := Matching(pod, front), Matching(pod, nodes);
      assert forall i | 0 <= i < |before| :: found[i] == before[i];
      assert forall i | 0 <= i < |front| :: nodes[i] == front[i];
      assert MatchPod(pod, last).Yes? ==> found[|before|] == last;
    }
  }

  lemma {:induction false} MatchingPlain(s: Settings, pod: PodValue, nodes: seq<Node>)
    ensures SomePlain(s, Matching(pod, nodes)) <==> MatchesPlain(s, pod, nodes)
  {
    if nodes != [] {
      var front, last := nodes[..|nodes| - 1], nodes[|nodes| - 1];
      MatchingPlain(s, pod, front);
      var before, found := Matching(pod, front), Matching(pod, nodes);
      assert forall i | 0 <= i < |before| :: found[i] == before[i];
      assert forall i | 0 <= i < |front| :: nodes[i] == front[i];
      assert MatchPod(pod, last).Yes? ==> found[|before|] == last;
    }
  }

  lemma FailureIgnoresOrder(pod: PodValue, nodes: seq<Node>, shuffled: seq<Node>)
    requires multiset(nodes) == multiset(shuffled)
    ensures SomeNodeFails(pod, nodes) ==> SomeNodeFails(pod, shuffled)
  {
    if SomeNodeFails(pod, nodes) {
      var i :| 0 <= i < |nodes| && MatchPod(pod, nodes[i]).Malformed?;
      assert nodes[i] in multiset(shuffled);
    }
  }

  lemma SomeIgnoresOrder(s: Settings, nodes: seq<Node>, shuffled: seq<Node>)
    requires multiset(nodes) == multiset(shuffled)
    ensures SomeDPU(s, nodes) ==> SomeDPU(s, shuffled)
    ensures SomePlain(s, nodes) ==> SomePlain(s, shuffled)
    ensures nodes == [] ==> shuffled == []
  {
    forall i | 0 <= i < |nodes| ensures nodes[i] in shuffled {
      assert nodes[i] in multiset(shuffled);
    }
    if shuffled != [] {
      assert shuffled[0] in multiset(nodes);
    }
  }

  lemma MatchingIgnoresOrder(pod: PodValue, nodes: seq<Node>, shuffled: seq<Node>)
    requires multiset(nodes) == multiset(shuffled)
    ensures multiset(Matching(pod, nodes)) == multiset(Matching(pod, shuffled))
  {
    MatchingContents(pod, nodes);
    MatchingContents(pod, shuffled);
  }

  lemma DecisionIgnoresOrder(s: Settings, nodes: seq<Node>, shuffled: seq<Node>, pod: PodValue)
    requires multiset(nodes) == multiset(shuffled)
    ensures DecideFor(s, Ok(nodes), pod) == DecideFor(s, Ok(shuffled), pod)
  {
    FailureIgnoresOrder(pod, nodes, shuffled);
    FailureIgnoresOrder(pod, shuffled, nodes);
    MatchingIgnoresOrder(pod, nodes, shuffled);
    SomeIgnoresOrder(s, Matching(pod, nodes), Matching(pod, shuffled));
    SomeIgnoresOrder(s, Matching(pod, shuffled), Matching(pod, nodes));
  }

  /** The order in which the API server lists nodes never matters. */
  lemma AdmissionIgnoresNodeOrder(s: Settings, api: API, shuffled: seq<Node>, pod: PodValue)
    requires api.nodes.Ok? && multiset(api.nodes.value) == multiset(shuffled)
    ensures Admission(s, api, pod) == Admission(s, api.(nodes := Ok(shuffled)), pod)
  {
    DecisionIgnoresOrder(s, api.nodes.value, shuffled, pod);
  }

  // ------------------------------------------------------------------ the decision

  /** A pod the webhook has to decide about: not on the host network, without a VF of its own, and
      with an API server that answers. */
  predicate Undecided(api: API, pod: PodValue, vf: string) {
    && !pod.hostNetwork && VFResourceName(api) == Ok(vf) && !HasVF(pod, vf)
    && api.nodes.Ok? && !SomeNodeFails(pod, api.nodes.value)
  }

  predicate InjectedBy(s: Settings, api: API, pod: PodValue, vf: string) {
    Admission(s, api, pod).0.Admitted? && HasVF(Admission(s, api, pod).1, vf)
  }

  /** With plain nodes preferred, a pod admitted without a VF can land on some listed node and on no
      listed DPU node; if it was rewritten, on no DPU node that could ever exist. A pod that gets a
      VF matches only DPU nodes. */
  lemma AdmissionSoundPlain(s: Settings, api: API, pod: PodValue, vf: string)
    requires !s.prioritizeOffloading && Undecided(api, pod, vf)
    ensures var (outcome, after) := Admission(s, api, pod); var nodes := api.nodes.value;
            outcome.Admitted? && !HasVF(after, vf) ==>
              && !MatchesDPU(s, after, nodes) && MatchesSome(after, nodes)
              && (after != pod ==> forall node :: IsDPU(s, node) ==> !MatchPod(after, node).Yes?)
              && (after != pod <==> MatchesDPU(s, pod, nodes))
    ensures pod.containers != [] ==> (InjectedBy(s, api, pod, vf) <==> !MatchesPlain(s, pod, api.nodes.value))
  {
    var nodes := api.nodes.value;
    MatchingSome(s, pod, nodes);
    if DecideFor(s, api.nodes, pod) == Ok(SkipAndExclude) {
      RewrittenMatches(s, pod, nodes);
      RewriteChangesPod(s, nodes, pod);
    }
    if pod.containers != [] {
      InjectionGivesVF(s, vf, pod);
    }
  }

  /** A rewritten pod matches no DPU node at all, and every plain node it matched before. */
  lemma RewrittenMatches(s: Settings, pod: PodValue, nodes: seq<Node>)
    ensures forall node :: IsDPU(s, node) ==> !MatchPod(Rewritten(s, pod), node).Yes?
    ensures !MatchesDPU(s, Rewritten(s, pod), nodes)
    ensures MatchesPlain(s, pod, nodes) ==> MatchesPlain(s, Rewritten(s, pod), nodes)
  {
    forall node
      ensures IsDPU(s, node) ==> !MatchPod(Rewritten(s, pod), node).Yes?
      ensures MatchPod(pod, node).Yes? && !IsDPU(s, node) ==> MatchPod(Rewritten(s, pod), node).Yes?
    {
      RewriteMeaning(s, pod, node);
    }
  }

  /** With offloading preferred, a pod with containers gets a VF exactly when nothing matches it or
      some DPU node does, and its affinity is never touched. */
  lemma AdmissionSoundOffloading(s: Settings, api: API, pod: PodValue, vf: string)
    requires s.prioritizeOffloading && Undecided(api, pod, vf) && pod.containers != []
    ensures InjectedBy(s, api, pod, vf) <==>
              !MatchesSome(pod, api.nodes.value) || MatchesDPU(s, pod, api.nodes.value)
    ensures Admission(s, api, pod).1.affinity == pod.affinity
  {
    MatchingSome(s, pod, api.nodes.value);
    InjectionGivesVF(s, vf, pod);
  }

  lemma InjectionGivesVF(s: Settings, vf: string, pod: PodValue)
    requires pod.containers != []
    ensures HasVF(Injected(s, vf, pod), vf)
  {
    assert vf in Injected(s, vf, pod).containers[0].requests;
  }

  /** Preferring offloading only ever adds VFs, and the two modes part exactly on pods that match
      both a DPU node and a plain one. */
  lemma ModesCompared(s: Settings, api: API, pod: PodValue, vf: string)
    requires Undecided(api, pod, vf) && pod.containers != []
    ensures var off, plain := s.(prioritizeOffloading := true), s.(prioritizeOffloading := false);
            var nodes := api.nodes.value;
            && (InjectedBy(plain, api, pod, vf) ==> InjectedBy(off, api, pod, vf))
            && (InjectedBy(plain, api, pod, vf) != InjectedBy(off, api, pod, vf) <==>
                MatchesDPU(s, pod, nodes) && MatchesPlain(s, pod, nodes))
  {
    var off, plain := s.(prioritizeOffloading := true), s.(prioritizeOffloading := false);
    MatchingSome(s, pod, api.nodes.value);
    InjectionGivesVF(off, vf, pod);
    InjectionGivesVF(plain, vf, pod);
    var found := Matching(pod, api.nodes.value);
    assert SomeDPU(off, found) == SomeDPU(s, found) && SomePlain(plain, found) == SomePlain(s, found);
    assert SomeDPU(plain, found) == SomeDPU(s, found);
  }

  // ------------------------------------------------------- the rewrite as it is admitted

  predicate HasEmptyTerm(pod: PodValue) {
    var required := RequiredTerms(pod.affinity);
    required.Some? && exists i | 0 <= i < |required.value| :: IsEmptyTerm(required.value[i])
  }

  /** A node the rewrite would admit: it satisfies the node selector, is no DPU node, and did not match. */
  predicate LeftOut(s: Settings, pod: PodValue, node: Node) {
    SelectorMatches(pod.nodeSelector, node) && !IsDPU(s, node) && !MatchPod(pod, node).Yes?
  }

  /** Pods are only rewritten if they match a node, so never those with an empty term list or with
      nothing but empty terms. */
  lemma RewrittenPodsHaveTerms(s: Settings, nodes: seq<Node>, pod: PodValue)
    requires DecideFor(s, Ok(nodes), pod) == Ok(SkipAndExclude)
    ensures RequiredTerms(pod.affinity).Some? ==>
              exists i | 0 <= i < |RequiredTerms(pod.affinity).value| ::
                !IsEmptyTerm(RequiredTerms(pod.affinity).value[i])
  {
    MatchingSome(s, pod, nodes);
    var d :| 0 <= d < |nodes| && MatchPod(pod, nodes[d]).Yes? && IsDPU(s, nodes[d]);
    var required := RequiredTerms(pod.affinity);
    if required.Some? {
      var i :| 0 <= i < |required.value| && TermSelects(required.value[i], nodes[d]);
      assert !IsEmptyTerm(required.value[i]);
    }
  }

  /** Exactly when a pod that the webhook rewrites comes to match precisely the non-DPU nodes it matched
      before: unless it has an empty term beside the one that selects, and some non-DPU node was left out. */
  lemma AdmittedRewriteIsExact(s: Settings, nodes: seq<Node>, pod: PodValue)
    requires DecideFor(s, Ok(nodes), pod) == Ok(SkipAndExclude)
    ensures (forall node :: MatchPod(Rewritten(s, pod), node).Yes? <==> MatchPod(pod, node).Yes? && !IsDPU(s, node))
            <==> !(HasEmptyTerm(pod) && exists node :: LeftOut(s, pod, node))
  {
    RewrittenPodsHaveTerms(s, nodes, pod);
    assert Widens(RequiredTerms(pod.affinity)) <==> HasEmptyTerm(pod);
    forall node
      ensures (MatchPod(Rewritten(s, pod), node).Yes? <==> MatchPod(pod, node).Yes? && !IsDPU(s, node))
              <==> !(HasEmptyTerm(pod) && LeftOut(s, pod, node))
    {
      RewriteExactAtNode(s, pod, node);
    }
  }

  const EXAMPLE_SETTINGS := Settings("nad", "ns", "dpu", "yes", false)

  /** A pod that asks for zone a, or for nothing in an empty term. */
  const ZONE_TERMS := [Term([], []), Term([Requirement("zone", In, ["a"])], [])]
  const ZONE_POD :=
    PodValue(false, map[], Some(Affinity(Some(NodeAffinity(Some(ZONE_TERMS), "")), "")),
             [Container(map[], map[], "")], map[])

  /** A DPU node and a plain node of zone a, and a plain node elsewhere. */
  const ELSEWHERE := Node("q", map[])
  const ZONE_NODES := [Node("d", map["dpu" := "yes", "zone" := "a"]), Node("p", map["zone" := "a"]), ELSEWHERE]

  lemma ZonePodMatches(node: Node)
    ensures MatchPod(ZONE_POD, node) == if "zone" in node.labels && node.labels["zone"] == "a" then Yes else No
    ensures Widens(RequiredTerms(ZONE_POD.affinity))
  {
    assert IsEmptyTerm(ZONE_TERMS[0]) && !IsEmptyTerm(ZONE_TERMS[1]);
    var r := ZONE_TERMS[1].expressions[0];
    assert TermParses(ZONE_TERMS[1]) && (TermHolds(ZONE_TERMS[1], node) <==> ExpressionHolds(r, node.labels));
    assert TermSelects(ZONE_TERMS[1], node) <==> SomeTermSelects(ZONE_TERMS, node);
  }

  lemma ZonePodIsRewritten()
    ensures DecideFor(EXAMPLE_SETTINGS, Ok(ZONE_NODES), ZONE_POD) == Ok(SkipAndExclude)
  {
    forall i | 0 <= i < 3 ensures !MatchPod(ZONE_POD, ZONE_NODES[i]).Malformed? {
      ZonePodMatches(ZONE_NODES[i]);
    }
    ZonePodMatches(ZONE_NODES[0]);
    ZonePodMatches(ZONE_NODES[1]);
    MatchingSome(EXAMPLE_SETTINGS, ZONE_POD, ZONE_NODES);
    assert MatchesDPU(EXAMPLE_SETTINGS, ZONE_POD, ZONE_NODES) && MatchesPlain(EXAMPLE_SETTINGS, ZONE_POD, ZONE_NODES);
  }

  /** An admission that widens: the pod is rewritten, and may then land on a node it had not asked for. */
  lemma AdmittedRewriteWidens()
    ensures var api := API(Ok(ZONE_NODES), Ok(map[RESOURCE_NAME_ANNOTATION := "vf"]));
            var (outcome, after) := Admission(EXAMPLE_SETTINGS, api, ZONE_POD);
            outcome == Admitted && !HasVF(after, "vf")
            && MatchPod(ZONE_POD, ELSEWHERE) == No && MatchPod(after, ELSEWHERE) == Yes
  {
    ZonePodIsRewritten();
    ZonePodMatches(ELSEWHERE);
    RewriteMeaning(EXAMPLE_SETTINGS, ZONE_POD, ELSEWHERE);
  }

  // ------------------------------------------------------------- admitting repeatedly

  /** Deciding again about a rewritten pod: it still matches a plain node and no DPU node, so nothing
      more happens, unless a malformed term, which a matching DPU node used to mask, now fails it. */
  lemma DecideAgainAfterRewrite(s: Settings, nodes: seq<Node>, pod: PodValue)
    requires DecideFor(s, Ok(nodes), pod) == Ok(SkipAndExclude)
    ensures DecideFor(s, Ok(nodes), Rewritten(s, pod)) == if HasMalformedTerm(pod) then Err(BadAffinity) else Ok(Skip)
  {
    MatchingSome(s, pod, nodes);
    RewrittenMatches(s, pod, nodes);
    MatchingSome(s, Rewritten(s, pod), nodes);
    RewrittenFails(s, pod, nodes);
  }

  lemma RewrittenFails(s: Settings, pod: PodValue, nodes: seq<Node>)
    requires MatchesDPU(s, pod, nodes)
    ensures SomeNodeFails(Rewritten(s, pod), nodes) <==> HasMalformedTerm(pod)
  {
    forall i | 0 <= i < |nodes| ensures MatchPod(Rewritten(s, pod), nodes[i]).Malformed? ==> HasMalformedTerm(pod) {
      RewriteMeaning(s, pod, nodes[i]);
    }
    var d :| 0 <= d < |nodes| && MatchPod(pod, nodes[d]).Yes? && IsDPU(s, nodes[d]);
    RewriteMeaning(s, pod, nodes[d]);
  }

  /** Admitting the result of a non-injecting admission again, with the same answers from the API
      server, never changes the pod. It is admitted again unless it was rewritten and carries a
      malformed term, in which case the second call rejects it. */
  lemma AdmitAgainUnchanged(s: Settings, api: API, pod: PodValue, vf: string)
    requires VFResourceName(api) == Ok(vf)
    requires Admission(s, api, pod).0.Admitted? && (pod.hostNetwork || !HasVF(Admission(s, api, pod).1, vf))
    ensures var after := Admission(s, api, pod).1;
            Admission(s, api, after) ==
            if after != pod && HasMalformedTerm(pod) then (Rejected(BadAffinity), after) else (Admitted, after)
  {
    var after := Admission(s, api, pod).1;
    if !pod.hostNetwork && DecideFor(s, api.nodes, pod) == Ok(SkipAndExclude) && !HasVF(pod, vf) {
      DecideAgainAfterRewrite(s, api.nodes.value, pod);
      assert !HasVF(after, vf);
      if after == pod {
        RewriteChangesPod(s, api.nodes.value, pod);
      }
    } else if !pod.hostNetwork && pod.containers != [] {
      InjectionGivesVF(s, vf, pod);
    }
  }

  /** A pod that asks for zone a, or for something malformed: Exists takes no values. */
  const MASKED_TERMS := [Term([Requirement("zone", In, ["a"])], []), Term([Requirement("k", Exists, ["x"])], [])]
  const MASKED_POD :=
    PodValue(false, map[], Some(Affinity(Some(NodeAffinity(Some(MASKED_TERMS), "")), "")),
             [Container(map[], map[], "")], map[])
  const MASKED_NODES := [Node("d", map["dpu" := "yes", "zone" := "a"]), Node("p", map["zone" := "a"])]

  lemma MaskedPodMatches(node: Node)
    requires "zone" in node.labels && node.labels["zone"] == "a"
    ensures MatchPod(MASKED_POD, node) == Yes && HasMalformedTerm(MASKED_POD)
  {
    var r := MASKED_TERMS[0].expressions[0];
    assert TermParses(MASKED_TERMS[0]) && ExpressionHolds(r, node.labels);
    assert TermSelects(MASKED_TERMS[0], node);
    assert !ExpressionParses(MASKED_TERMS[1].expressions[0]);
    assert TermIsMalformed(MASKED_TERMS[1]);
  }

  lemma MaskedPodIsRewritten()
    ensures DecideFor(EXAMPLE_SETTINGS, Ok(MASKED_NODES), MASKED_POD) == Ok(SkipAndExclude)
    ensures HasMalformedTerm(MASKED_POD)
  {
    MaskedPodMatches(MASKED_NODES[0]);
    MaskedPodMatches(MASKED_NODES[1]);
    TwoNodesDecide(EXAMPLE_SETTINGS, MASKED_POD, MASKED_NODES);
  }

  lemma TwoNodesDecide(s: Settings, pod: PodValue, nodes: seq<Node>)
    requires |nodes| == 2 && MatchPod(pod, nodes[0]).Yes? && MatchPod(pod, nodes[1]).Yes?
    requires !s.prioritizeOffloading && IsDPU(s, nodes[0]) && !IsDPU(s, nodes[1])
    ensures DecideFor(s, Ok(nodes), pod) == Ok(SkipAndExclude)
  {
    assert forall i | 0 <= i < 2 :: MatchPod(pod, nodes[i]).Yes?;
    MatchingSome(s, pod, nodes);
    assert MatchesDPU(s, pod, nodes) && MatchesPlain(s, pod, nodes);
  }

  /** An admission that is rejected when it is repeated. */
  lemma RepeatedAdmissionRejects()
    ensures var api := API(Ok(MASKED_NODES), Ok(map[RESOURCE_NAME_ANNOTATION := "vf"]));
            var (first, after) := Admission(EXAMPLE_SETTINGS, api, MASKED_POD);
            first == Admitted && Admission(EXAMPLE_SETTINGS, api, after) == (Rejected(BadAffinity), after)
  {
    var api := API(Ok(MASKED_NODES), Ok(map[RESOURCE_NAME_ANNOTATION := "vf"]));
    MaskedPodIsRewritten();
    RewriteChangesPod(EXAMPLE_SETTINGS, MASKED_NODES, MASKED_POD);
    AdmitAgainUnchanged(EXAMPLE_SETTINGS, api, MASKED_POD, "vf");
  }

  /** A pod that is asked to be rewritten really changes. */
  lemma RewriteChangesPod(s: Settings, nodes: seq<Node>, pod: PodValue)
    requires DecideFor(s, Ok(nodes), pod) == Ok(SkipAndExclude)
    ensures Rewritten(s, pod) != pod
  {
    DecideAgainAfterRewrite(s, nodes, pod);
  }

  /** The pod after a series of admissions, each with its own answers from the API server. */
  function AdmitAll(s: Settings, apis: seq<API>, pod: PodValue): PodValue {
    if apis == [] then pod
    else AdmitAll(s, apis[1..], Admission(s, apis[0], pod).1)
  }

  /** Once a pod has a VF, each further admission adds exactly one more to requests and limits,
      whatever the nodes are by then. */
  lemma {:induction false} ReinvocationAddsOneEach(s: Settings, apis: seq<API>, pod: PodValue, vf: string)
    requires !pod.hostNetwork && HasVF(pod, vf)
    requires forall i | 0 <= i < |apis| :: VFResourceName(apis[i]) == Ok(vf)
    ensures var after := AdmitAll(s, apis, pod);
            && |after.containers| == |pod.containers|
            && Amount(after.containers[0].requests, vf) == Amount(pod.containers[0].requests, vf) + |apis|
            && Amount(after.containers[0].limits, vf) == Amount(pod.containers[0].limits, vf) + |apis|
            && (forall r | r != vf :: Amount(after.containers[0].requests, r) == Amount(pod.containers[0].requests, r))
            && (forall r | r != vf :: Amount(after.containers[0].limits, r) == Amount(pod.containers[0].limits, r))
            && after.affinity == pod.affinity
  {
    if apis != [] {
      InjectionGivesVF(s, vf, pod);
      assert Admission(s, apis[0], pod) == (Admitted, Injected(s, vf, pod));
      ReinvocationAddsOneEach(s, apis[1..], Injected(s, vf, pod), vf);
    }
  }

  // ------------------------------------------------------------------ conservation

  /** A pod that comes out with a VF it gained: one more in the first container's requests and
      limits, and everything else as it was. */
  lemma VFConservation(s: Settings, api: API, pod: PodValue, vf: string)
    requires !pod.hostNetwork && VFResourceName(api) == Ok(vf) && InjectedBy(s, api, pod, vf)
    ensures var after := Admission(s, api, pod).1;
            && |after.containers| == |pod.containers| > 0
            && (var b, a := pod.containers[0], after.containers[0];
                && Amount(a.requests, vf) == Amount(b.requests, vf) + 1
                && Amount(a.limits, vf) == Amount(b.limits, vf) + 1
                && (a.requests[vf] == a.limits[vf] <==> Amount(b.requests, vf) == Amount(b.limits, vf))
                && a.requests - {vf} == b.requests - {vf} && a.limits - {vf} == b.limits - {vf}
                && a.rest == b.rest)
            && after.containers[1..] == pod.containers[1..]
            && DEFAULT_NETWORK_ANNOTATION in after.annotations
            && after.annotations[DEFAULT_NETWORK_ANNOTATION] == s.nadNamespace + "/" + s.nadName
            && after.annotations - {DEFAULT_NETWORK_ANNOTATION} == pod.annotations - {DEFAULT_NETWORK_ANNOTATION}
            && after.(containers := pod.containers, annotations := pod.annotations) == pod
  {
    var after := Admission(s, api, pod).1;
    assert pod.containers != [];
    assert after == Injected(s, vf, pod);
  }

  /** A pod whose first container already asks for the VF, in requests or limits, is given one more
      whatever the nodes are, even if they cannot be listed. */
  lemma PriorVFIgnoresNodes(s: Settings, api: API, pod: PodValue, vf: string)
    requires !pod.hostNetwork && VFResourceName(api) == Ok(vf) && pod.containers != []
    requires vf in pod.containers[0].requests || vf in pod.containers[0].limits
    ensures InjectedBy(s, api, pod, vf) && Admission(s, api, pod).1.affinity == pod.affinity
  {
    InjectionGivesVF(s, vf, pod);
  }

  /** Every rejection has one cause, in this order: the network attachment cannot be read, it names no
      resource, the nodes cannot be listed, or matching some listed node fails on a malformed term. */
  lemma RejectionsExplained(s: Settings, api: API, pod: PodValue)
    ensures var named := api.networkAnnotations.Ok? && RESOURCE_NAME_ANNOTATION in api.networkAnnotations.value;
            var decides := named && !HasVF(pod, api.networkAnnotations.value[RESOURCE_NAME_ANNOTATION]);
            match Admission(s, api, pod).0
            case Rejected(NetworkUnavailable) => !pod.hostNetwork && api.networkAnnotations.Err?
            case Rejected(NoResourceName) => !pod.hostNetwork && api.networkAnnotations.Ok? && !named
            case Rejected(ListFailed) => !pod.hostNetwork && decides && api.nodes.Err?
            case Rejected(BadAffinity) =>
              !pod.hostNetwork && decides && api.nodes.Ok? && SomeNodeFails(pod, api.nodes.value)
            case _ => pod.hostNetwork || (named && (decides ==> api.nodes.Ok? && !SomeNodeFails(pod, api.nodes.value)))
  {
  }

  /** A request that is not admitted leaves the pod as it was, and the program panics exactly when it
      must inject into a pod without containers. */
  lemma FailureLeavesPod(s: Settings, api: API, pod: PodValue)
    ensures !Admission(s, api, pod).0.Admitted? ==> Admission(s, api, pod).1 == pod
    ensures Admission(s, api, pod).0.Panicked? <==>
              && !pod.hostNetwork && pod.containers == [] && VFResourceName(api).Ok?
              && DecideFor(s, api.nodes, pod) == Ok(Inject)
  {
    if VFResourceName(api).Ok? && HasVF(pod, VFResourceName(api).value) {
      assert pod.containers != [];
    }
  }

  // ----------------------------------------------------------- admission, case by case

  /** Some listed node matches the pod and carries the label of DPU nodes, or matches and does not. */
  predicate LandsOnDPU(s: Settings, pod: PodValue, nodes: seq<Node>) {
    exists i | 0 <= i < |nodes| ::
      MatchPod(pod, nodes[i]) == Yes && s.dpuKey in nodes[i].labels && nodes[i].labels[s.dpuKey] == s.dpuValue
  }

  predicate LandsElsewhere(s: Settings, pod: PodValue, nodes: seq<Node>) {
    exists i | 0 <= i < |nodes| ::
      MatchPod(pod, nodes[i]) == Yes && !(s.dpuKey in nodes[i].labels && nodes[i].labels[s.dpuKey] == s.dpuValue)
  }

  predicate AsksFor(pod: PodValue, vf: string) {
    pod.containers != [] && (vf in pod.containers[0].requests || vf in pod.containers[0].limits)
  }

  function OneMore(resources: map<string, int>, name: string): map<string, int> {
    resources[name := if name in resources then resources[name] + 1 else 1]
  }

  function Given(s: Settings, vf: string, pod: PodValue): PodValue
    requires pod.containers != []
  {
    var c := pod.containers[0];
    var given := Container(OneMore(c.requests, vf), OneMore(c.limits, vf), c.rest);
    pod.(containers := [given] + pod.containers[1..],
         annotations := pod.annotations["v1.multus-cni.io/default-network" := s.nadNamespace + "/" + s.nadName])
  }

  /** Pods on the host network are admitted as they are. */
  lemma HostNetworkUntouched(s: Settings, api: API, pod: PodValue)
    requires pod.hostNetwork
    ensures Admission(s, api, pod) == (Admitted, pod)
  {
  }

  /** Everything admission can do to any other pod for which the API server answers: a VF for a pod that
      asks for one, that matches no node, or whose nodes call for it; the rewrite for a pod that could land
      on both kinds of node, unless offloading has priority; and for all others nothing at all. */
  lemma AdmissionCases(s: Settings, api: API, pod: PodValue, vf: string)
    requires !pod.hostNetwork && api.networkAnnotations.Ok?
    requires "k8s.v1.cni.cncf.io/resourceName" in api.networkAnnotations.value
    requires vf == api.networkAnnotations.value["k8s.v1.cni.cncf.io/resourceName"]
    requires !AsksFor(pod, vf) ==> api.nodes.Ok? && !SomeNodeFails(pod, api.nodes.value)
    ensures var dpu := !AsksFor(pod, vf) && LandsOnDPU(s, pod, api.nodes.value);
            var other := !AsksFor(pod, vf) && LandsElsewhere(s, pod, api.nodes.value);
            var gives := AsksFor(pod, vf) || (if s.prioritizeOffloading then dpu || !other else !other);
            Admission(s, api, pod) ==
            if gives && pod.containers == [] then (Panicked, pod)
            else if gives then (Admitted, Given(s, vf, pod))
            else if dpu then (Admitted, Rewritten(s, pod))
            else (Admitted, pod)
  {
    if pod.containers != [] {
      GivenIsInjected(s, vf, pod);
    }
    if !AsksFor(pod, vf) {
      MatchingSome(s, pod, api.nodes.value);
    }
  }

  lemma GivenIsInjected(s: Settings, vf: string, pod: PodValue)
    requires pod.containers != []
    ensures Given(s, vf, pod) == Injected(s, vf, pod)
  {
    var c := pod.containers[0];
    var given := Container(OneMore(c.requests, vf), OneMore(c.limits, vf), c.rest);
    assert [given] + pod.containers[1..] == pod.containers[0 := given];
  }

  /** A pod without required terms gets one, and keeps the rest of its affinity. */
  lemma RewriteFresh(s: Settings, pod: PodValue)
    requires RequiredTerms(pod.affinity) in [None, Some([])]
    ensures var after := Rewritten(s, pod);
            && RequiredTerms(after.affinity) == Some([Term([Requirement(s.dpuKey, NotIn, [s.dpuValue])], [])])
            && after.(affinity := pod.affinity) == pod
            && (pod.affinity.Some? ==> after.affinity.value.podAffinities == pod.affinity.value.podAffinities)
            && (pod.affinity.Some? && pod.affinity.value.nodeAffinity.Some? ==>
                  after.affinity.value.nodeAffinity.value.preferred == pod.affinity.value.nodeAffinity.value.preferred)
  {
  }
}
