/** The string helpers the program uses (trimming, cutting, splitting), as functions on
    sequences of characters, with the laws that let a printed text be read back. */
module Text {
  import opened Wrappers

  /** White space in the sense of Unicode, which is what trimming removes. */
  predicate IsSpace(c: char) {
    || c == ' ' || '\t' <= c <= '\r' || c == '\U{0085}' || c == '\U{00A0}' || c == '\U{1680}'
    || '\U{2000}' <= c <= '\U{200A}' || c == '\U{2028}' || c == '\U{2029}'
    || c == '\U{202F}' || c == '\U{205F}' || c == '\U{3000}'
  }

  predicate Blank(s: string) {
    forall i | 0 <= i < |s| :: IsSpace(s[i])
  }

  /** No white space at either end. */
  predicate Trimmed(s: string) {
    s == "" || (!IsSpace(s[0]) && !IsSpace(s[|s| - 1]))
  }

  function TrimLeft(s: string): (r: string)
    ensures r == "" || !IsSpace(r[0])
  {
    if s != "" && IsSpace(s[0]) then TrimLeft(s[1..]) else s
  }

  function TrimRight(s: string): (r: string)
    ensures r <= s
    ensures r == "" || !IsSpace(r[|r| - 1])
  {
    if s != "" && IsSpace(s[|s| - 1]) then TrimRight(s[..|s| - 1]) else s
  }

  function TrimSpace(s: string): (r: string)
    ensures Trimmed(r)
  {
    TrimRight(TrimLeft(s))
  }

  lemma {:induction false} TrimLeftPadded(left: string, s: string)
    requires Blank(left)
    requires s == "" || !IsSpace(s[0])
    ensures TrimLeft(left + s) == s
  {
    if left == "" {
      assert left + s == s;
    } else {
      assert (left + s)[1..] == left[1..] + s;
      TrimLeftPadded(left[1..], s);
    }
  }

  lemma {:induction false} TrimRightPadded(s: string, right: string)
    requires Blank(right)
    requires s == "" || !IsSpace(s[|s| - 1])
    ensures TrimRight(s + right) == s
  {
    if right == "" {
      assert s + right == s;
    } else {
      assert (s + right)[..|s + right| - 1] == s + right[..|right| - 1];
      TrimRightPadded(s, right[..|right| - 1]);
    }
  }

  /** Trimming removes exactly the padding around a text that has none of its own. */
  lemma TrimPadded(left: string, s: string, right: string)
    requires Blank(left) && Blank(right) && Trimmed(s)
    ensures TrimSpace(left + s + right) == s
  {
    if s == "" {
      assert left + s + right == (left + right) + "";
      TrimLeftPadded(left + right, "");
    } else {
      assert left + s + right == left + (s + right);
      TrimLeftPadded(left, s + right);
      TrimRightPadded(s, right);
    }
  }

  predicate HasPrefix(s: string, p: string) {
    |p| <= |s| && s[..|p|] == p
  }

  lemma HasPrefixExtended(a: string, b: string, p: string)
    requires |p| <= |a|
    ensures HasPrefix(a + b, p) <==> HasPrefix(a, p)
  {
    assert (a + b)[..|p|] == a[..|p|];
  }

  /** The first position at which `sep` occurs in `s`. */
  function Find(s: string, sep: string): (r: Option<nat>)
    requires sep != ""
    ensures r.Some? ==> r.value + |sep| <= |s|
  {
    if HasPrefix(s, sep) then Some(0)
    else if s == "" then None
    else match Find(s[1..], sep)
      case None => None
      case Some(i) => Some(i + 1)
  }

  datatype CutResult = CutResult(before: string, after: string, found: bool)

  function Cut(s: string, sep: string): CutResult
    requires sep != ""
  {
    match Find(s, sep)
    case None => CutResult(s, "", false)
    case Some(i) => CutResult(s[..i], s[i + |sep|..], true)
  }

  function Split(s: string, sep: string): (parts: seq<string>)
    requires sep != ""
    ensures |parts| >= 1
    decreases |s|
  {
    match Find(s, sep)
    case None => [s]
    case Some(i) => [s[..i]] + Split(s[i + |sep|..], sep)
  }

  function Join(parts: seq<string>, sep: string): string {
    if parts == [] then ""
    else if |parts| == 1 then parts[0]
    else parts[0] + sep + Join(parts[1..], sep)
  }

  /** No occurrence of `sep` begins inside `s`, even when `s` is followed by `sep`. */
  predicate Separable(s: string, sep: string) {
    forall i | 0 <= i < |s| :: !HasPrefix((s + sep)[i..], sep)
  }

  lemma SeparableTail(a: string, sep: string)
    requires a != "" && Separable(a, sep)
    ensures Separable(a[1..], sep)
    ensures sep != "" ==> !HasPrefix(a + sep, sep)
  {
    assert (a + sep)[0..] == a + sep;
    forall i | 0 <= i < |a[1..]| ensures !HasPrefix((a[1..] + sep)[i..], sep) {
      assert (a[1..] + sep)[i..] == (a + sep)[i + 1..];
    }
  }

  lemma {:induction false} FindSeparator(a: string, sep: string, b: string)
    requires sep != "" && Separable(a, sep)
    ensures Find(a + sep + b, sep) == Some(|a|)
  {
    HasPrefixExtended(a + sep, b, sep);
    if a == "" {
      assert a + sep == sep;
    } else {
      SeparableTail(a, sep);
      assert (a + sep + b)[1..] == a[1..] + sep + b;
      FindSeparator(a[1..], sep, b);
    }
  }

  lemma {:induction false} FindNothing(a: string, sep: string)
    requires sep != "" && Separable(a, sep)
    ensures Find(a, sep) == None
  {
    if a != "" {
      SeparableTail(a, sep);
      if |sep| <= |a| {
        HasPrefixExtended(a, sep, sep);
      }
      FindNothing(a[1..], sep);
    }
  }

  lemma CutSeparator(a: string, sep: string, b: string)
    requires sep != "" && Separable(a, sep)
    ensures Cut(a + sep + b, sep) == CutResult(a, b, true)
  {
    FindSeparator(a, sep, b);
  }

  lemma SplitFirst(a: string, sep: string, rest: string)
    requires sep != "" && Separable(a, sep)
    ensures Split(a + sep + rest, sep) == [a] + Split(rest, sep)
  {
    var s := a + sep + rest;
    FindSeparator(a, sep, rest);
    assert s[..|a|] == a && s[|a| + |sep|..] == rest;
  }

  /** Splitting undoes joining when no part can be confused with the separator. */
  lemma {:induction false} SplitJoin(parts: seq<string>, sep: string)
    requires sep != "" && parts != []
    requires forall i | 0 <= i < |parts| :: Separable(parts[i], sep)
    ensures Split(Join(parts, sep), sep) == parts
  {
    if |parts| == 1 {
      FindNothing(parts[0], sep);
    } else {
      SplitFirst(parts[0], sep, Join(parts[1..], sep));
      SplitJoin(parts[1..], sep);
    }
  }

  /** A one-character separator can only be confused with a text that contains it. */
  lemma SeparableChar(s: string, c: char)
    requires c !in s
    ensures Separable(s, [c])
  {
    forall i | 0 <= i < |s| ensures !HasPrefix((s + [c])[i..], [c]) {
      assert (s + [c])[i..][0] == s[i];
    }
  }

  lemma {:induction false} FindChar(s: string, c: char)
    ensures match Find(s, [c])
            case None => c !in s
            case Some(i) => s[i] == c && c !in s[..i]
  {
    if s != "" && s[0] != c {
      FindChar(s[1..], c);
      match Find(s[1..], [c])
      case None =>
      case Some(i) => assert s[..i + 1] == [s[0]] + s[1..][..i];
    }
  }

  /** Splitting at a character gives one part more than the text has of that character. */
  lemma {:induction false} SplitParts(s: string, c: char)
    ensures |Split(s, [c])| == multiset(s)[c] + 1
    decreases |s|
  {
    FindChar(s, c);
    match Find(s, [c])
    case None =>
    case Some(i) =>
      SplitParts(s[i + 1..], c);
      assert s == s[..i] + [c] + s[i + 1..];
  }

  predicate Occurs(s: string, sep: string) {
    exists i | 0 <= i <= |s| :: HasPrefix(s[i..], sep)
  }

  /** The separator ", " cannot begin inside a text in which it does not occur. */
  lemma SeparableCommaSpace(s: string)
    requires !Occurs(s, ", ")
    ensures Separable(s, ", ")
  {
    forall i | 0 <= i < |s| ensures !HasPrefix((s + ", ")[i..], ", ") {
      var t := (s + ", ")[i..];
      assert !HasPrefix(s[i..], ", ");
      if i + 1 < |s| {
        assert t[0] == s[i..][0] && t[1] == s[i..][1];
      } else {
        assert t[1] == ',';
      }
    }
  }
}
