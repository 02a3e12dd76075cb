/** JSON merge patches: applying one as section 2 of RFC 7396 says, and computing the one that turns a
    document into another. Arrays and scalars are replaced whole, so they are one case here. */
module Json {

  datatype JSON = Null | Scalar(text: string) | Obj(members: map<string, JSON>)

  /** The document after a merge patch. */
  function Merge(target: JSON, patch: JSON): JSON
    decreases patch
  {
    match patch
    case Obj(p) =>
      var t := if target.Obj? then target.members else map[];
      Obj(map n | n in t.Keys + p.Keys && (n in p ==> !p[n].Null?) ::
            if n in p then Merge(if n in t then t[n] else Null, p[n]) else t[n])
    case _ => patch
  }

  /** The patch that turns object `a` into object `b`. */
  function Diff(a: JSON, b: JSON): JSON
    requires a.Obj? && b.Obj?
    decreases b
  {
    Obj(map n | n in a.members.Keys + b.members.Keys
                && (n in a.members && n in b.members ==> a.members[n] != b.members[n]) ::
          if n !in b.members then Null
          else if n in a.members && a.members[n].Obj? && b.members[n].Obj? then Diff(a.members[n], b.members[n])
          else b.members[n])
  }

  predicate NullFree(j: JSON) {
    match j
    case Null => false
    case Scalar(_) => true
    case Obj(m) => forall n | n in m :: NullFree(m[n])
  }

  /** Merging a null-free document into something that is not an object yields the document. */
  lemma {:induction false} MergeFresh(target: JSON, b: JSON)
    requires NullFree(b) && (b.Obj? ==> !target.Obj?)
    ensures Merge(target, b) == b
    decreases b
  {
    if b.Obj? {
      forall n | n in b.members ensures Merge(Null, b.members[n]) == b.members[n] {
        MergeFresh(Null, b.members[n]);
      }
    }
  }

  /** Applying the computed patch yields the intended document; members the patch sets outright may
      already be present in the target. */
  lemma {:induction false} MergeDiff(t: JSON, a: JSON, b: JSON)
    requires t.Obj? && a.Obj? && b.Obj? && NullFree(b)
    requires forall n | n in a.members :: n in t.members && t.members[n] == a.members[n]
    requires forall n | n in t.members && n !in a.members :: n in b.members && b.members[n].Scalar?
    ensures Merge(t, Diff(a, b)) == b
    decreases b
  {
    var p := Diff(a, b).members;
    var r := Merge(t, Diff(a, b)).members;
    forall n | n in b.members ensures n in r && r[n] == b.members[n] {
      if n in p {
        if n in a.members && a.members[n].Obj? && b.members[n].Obj? {
          MergeDiff(a.members[n], a.members[n], b.members[n]);
        } else {
          MergeFresh(if n in t.members then t.members[n] else Null, b.members[n]);
        }
      }
    }
    assert forall n | n in r :: n in b.members;
    assert r == b.members;
  }

  /** Objects that differ in one member differ by a patch of that member. */
  lemma DiffOneMember(rest: map<string, JSON>, name: string, x: JSON, y: JSON)
    requires x.Obj? && y.Obj? && x != y
    ensures Diff(Obj(rest[name := x]), Obj(rest[name := y])) == Obj(map[name := Diff(x, y)])
  {
    var a, b := Obj(rest[name := x]), Obj(rest[name := y]);
    assert a.members[name] == x && b.members[name] == y;
    assert Diff(a, b).members.Keys == {name};
    assert Diff(a, b).members[name] == Diff(x, y);
  }

  lemma MergeOneMember(rest: map<string, JSON>, name: string, x: JSON, patch: JSON)
    requires patch.Obj?
    ensures Merge(Obj(rest[name := x]), Obj(map[name := patch])) == Obj(rest[name := Merge(x, patch)])
  {
    var t, p := rest[name := x], map[name := patch];
    var r := Merge(Obj(t), Obj(p)).members;
    assert r.Keys == t.Keys;
    assert r == rest[name := Merge(x, patch)];
  }
}
