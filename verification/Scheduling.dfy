/** Which nodes a pod's node selector and required node affinity allow. These are the rules the
    scheduler and the injector share: terms are ORed, requirements inside a term are ANDed, an
    empty term selects nothing, and a malformed term only matters when no other term selects. */
module Scheduling {
  import opened Wrappers
  import opened Decimal

  datatype Node = Node(name: string, labels: map<string, string>)

  datatype Operator = In | NotIn | Exists | DoesNotExist | Gt | Lt | Unknown(text: string)

  datatype Requirement = Requirement(key: string, op: Operator, values: seq<string>)

  datatype Term = Term(expressions: seq<Requirement>, fields: seq<Requirement>)

  /** What matching a node reports: a yes or no answer, or an error about a malformed term. */
  datatype Verdict = Yes | No | Malformed

  const NODE_NAME_FIELD := "metadata.name"

  predicate ExpressionParses(r: Requirement) {
    match r.op
    case In | NotIn => r.values != []
    case Exists | DoesNotExist => r.values == []
    case Gt | Lt => |r.values| == 1 && Atoi(r.values[0]).Some?
    case Unknown(_) => false
  }

  predicate FieldParses(r: Requirement) {
    (r.op.In? || r.op.NotIn?) && |r.values| == 1
  }

  predicate IsEmptyTerm(t: Term) {
    t.expressions == [] && t.fields == []
  }

  predicate TermParses(t: Term) {
    && (forall i | 0 <= i < |t.expressions| :: ExpressionParses(t.expressions[i]))
    && (forall i | 0 <= i < |t.fields| :: FieldParses(t.fields[i]))
  }

  predicate ExpressionHolds(r: Requirement, labels: map<string, string>)
    requires ExpressionParses(r)
  {
    match r.op
    case In => r.key in labels && labels[r.key] in r.values
    case NotIn => r.key in labels ==> labels[r.key] !in r.values
    case Exists => r.key in labels
    case DoesNotExist => r.key !in labels
    case Gt =>
      r.key in labels && Atoi(labels[r.key]).Some? && Atoi(labels[r.key]).value > Atoi(r.values[0]).value
    case Lt =>
      r.key in labels && Atoi(labels[r.key]).Some? && Atoi(labels[r.key]).value < Atoi(r.values[0]).value
  }

  /** The only field a node exposes is its name; every other field reads as empty. */
  predicate FieldHolds(r: Requirement, node: Node)
    requires FieldParses(r)
  {
    var value := if r.key == NODE_NAME_FIELD then node.name else "";
    if r.op.In? then value == r.values[0] else value != r.values[0]
  }

  predicate TermHolds(t: Term, node: Node)
    requires TermParses(t)
  {
    && (forall i | 0 <= i < |t.expressions| :: ExpressionHolds(t.expressions[i], node.labels))
    && (node.name == "" || forall i | 0 <= i < |t.fields| :: FieldHolds(t.fields[i], node))
  }

  predicate TermSelects(t: Term, node: Node) {
    !IsEmptyTerm(t) && TermParses(t) && TermHolds(t, node)
  }

  predicate TermIsMalformed(t: Term) {
    !IsEmptyTerm(t) && !TermParses(t)
  }

  predicate SomeTermSelects(terms: seq<Term>, node: Node) {
    exists i | 0 <= i < |terms| :: TermSelects(terms[i], node)
  }

  predicate SomeTermMalformed(terms: seq<Term>) {
    exists i | 0 <= i < |terms| :: TermIsMalformed(terms[i])
  }

  function MatchTerms(terms: seq<Term>, node: Node): Verdict {
    if SomeTermSelects(terms, node) then Yes
    else if SomeTermMalformed(terms) then Malformed
    else No
  }

  /** A required affinity that is absent allows every node. */
  function MatchRequired(required: Option<seq<Term>>, node: Node): Verdict {
    match required
    case None => Yes
    case Some(terms) => MatchTerms(terms, node)
  }

  predicate SelectorMatches(selector: map<string, string>, node: Node) {
    forall k | k in selector :: k in node.labels && node.labels[k] == selector[k]
  }

  function MatchNode(selector: map<string, string>, required: Option<seq<Term>>, node: Node): Verdict {
    if !SelectorMatches(selector, node) then No else MatchRequired(required, node)
  }

  // ------------------------------------------------------------------------------ laws

  lemma MembershipLaws(key: string, values: seq<string>, labels: map<string, string>)
    requires values != []
    ensures ExpressionHolds(Requirement(key, In, values), labels) <==>
              exists i :: 0 <= i < |values| && key in labels && labels[key] == values[i]
    ensures ExpressionHolds(Requirement(key, NotIn, values), labels) <==>
              !ExpressionHolds(Requirement(key, In, values), labels)
    ensures ExpressionHolds(Requirement(key, Exists, []), labels) <==> key in labels
    ensures ExpressionHolds(Requirement(key, DoesNotExist, []), labels) <==> key !in labels
  {
  }

  /** Numbers compare as numbers; a label that is missing or no number satisfies neither comparison. */
  lemma ComparisonLaws(key: string, x: int, bound: int, labels: map<string, string>)
    ensures ExpressionParses(Requirement(key, Gt, [Itoa(bound)]))
    ensures ExpressionParses(Requirement(key, Lt, [Itoa(bound)]))
    ensures key in labels && labels[key] == Itoa(x) ==>
              && (ExpressionHolds(Requirement(key, Gt, [Itoa(bound)]), labels) <==> x > bound)
              && (ExpressionHolds(Requirement(key, Lt, [Itoa(bound)]), labels) <==> x < bound)
    ensures key !in labels || Atoi(labels[key]).None? ==>
              && !ExpressionHolds(Requirement(key, Gt, [Itoa(bound)]), labels)
              && !ExpressionHolds(Requirement(key, Lt, [Itoa(bound)]), labels)
  {
    AtoiItoa(x);
    AtoiItoa(bound);
  }

  /** Requirements of a term are ANDed, and a term without any selects nothing. */
  lemma TermLaws(t: Term, u: Term, node: Node)
    requires TermParses(t) && TermParses(u) && !IsEmptyTerm(t) && !IsEmptyTerm(u)
    ensures TermSelects(Term(t.expressions + u.expressions, t.fields + u.fields), node) <==>
              TermSelects(t, node) && TermSelects(u, node)
    ensures !TermSelects(Term([], []), node)
  {
    var both := Term(t.expressions + u.expressions, t.fields + u.fields);
    assert forall i | 0 <= i < |t.expressions| :: both.expressions[i] == t.expressions[i];
    assert forall i | 0 <= i < |u.expressions| :: both.expressions[|t.expressions| + i] == u.expressions[i];
    assert forall i | 0 <= i < |t.fields| :: both.fields[i] == t.fields[i];
    assert forall i | 0 <= i < |u.fields| :: both.fields[|t.fields| + i] == u.fields[i];
    assert TermParses(both);
  }

  lemma NameFieldLaw(node: Node, name: string)
    requires node.name != ""
    ensures TermSelects(Term([], [Requirement("metadata.name", In, [name])]), node) <==> node.name == name
    ensures TermSelects(Term([], [Requirement("metadata.name", NotIn, [name])]), node) <==> node.name != name
  {
    var t := Term([], [Requirement("metadata.name", In, [name])]);
    var u := Term([], [Requirement("metadata.name", NotIn, [name])]);
    assert FieldParses(t.fields[0]) && FieldParses(u.fields[0]);
    assert TermHolds(t, node) <==> FieldHolds(t.fields[0], node);
    assert TermHolds(u, node) <==> FieldHolds(u.fields[0], node);
  }

  /** Terms are ORed; no terms select nothing, no required affinity excludes nothing, and the node selector
      asks for every one of its labels. */
  lemma MatchLaws(selector: map<string, string>, terms: seq<Term>, node: Node)
    requires !SomeTermMalformed(terms)
    ensures MatchNode(selector, Some(terms), node).Yes? <==>
              && (forall k | k in selector :: k in node.labels && node.labels[k] == selector[k])
              && exists i :: 0 <= i < |terms| && TermSelects(terms[i], node)
    ensures MatchNode(selector, None, node).Yes? <==>
              forall k | k in selector :: k in node.labels && node.labels[k] == selector[k]
    ensures MatchNode(selector, Some([]), node) == No
  {
  }
}
