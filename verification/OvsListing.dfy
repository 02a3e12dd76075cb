/** Reading what the virtual switch prints: external identifiers, interface names, the queue report
    of its polling threads, and its system identifier. Each hand-written parser is tied to a
    function, and the function is proved to undo the printing. */
module OvsListing {
  import opened Wrappers
  import opened Text
  import opened Decimal
  import OvsCommand

  // -------------------------------------------------------------- external identifiers

  /** The result of a parse: the identifiers, an error, or an index out of range. */
  datatype Parsed = Parsed(ids: map<string, string>) | TooManyParts | NoColumn | Panicked

  function AddID(ids: map<string, string>, item: string): Parsed {
    var kv := Split(item, "=");
    if |kv| > 2 then TooManyParts
    else if |kv| < 2 then Panicked
    else Parsed(ids[TrimSpace(kv[0]) := TrimSpace(kv[1])])
  }

  function CollectIDs(items: seq<string>): Parsed {
    if items == [] then Parsed(map[])
    else
      var front := CollectIDs(items[..|items| - 1]);
      if front.Parsed? then AddID(front.ids, items[|items| - 1]) else front
  }

  function ParseIDs(raw: string): Parsed {
    match StripBraces(TrimSpace(raw))
    case None => Panicked
    case Some(body) => if body == "" then Parsed(map[]) else CollectIDs(Split(body, ", "))
  }

  /** The text without one brace at each end, or nothing where looking for them indexes out of range. */
  function StripBraces(t: string): Option<string> {
    if t == "" then None
    else
      var inner := if t[0] == '{' then t[1..] else t;
      if inner == "" then None
      else Some(if inner[|inner| - 1] == '}' then inner[..|inner| - 1] else inner)
  }

  function ParseIDColumn(out: string): Parsed {
    var cut := Cut(out, ":");
    if cut.found then ParseIDs(cut.after) else NoColumn
  }

  method GetExternalIDsAsMap(raw: string) returns (r: Parsed)
    ensures r == ParseIDs(raw)
  {
    var rawIDs := TrimSpace(raw);
    if |rawIDs| == 0 {
      return Panicked;
    }
    if rawIDs[0] == '{' {
      rawIDs := rawIDs[1..];
    }
    if |rawIDs| == 0 {
      return Panicked;
    }
    if rawIDs[|rawIDs| - 1] == '}' {
      rawIDs := rawIDs[..|rawIDs| - 1];
    }
    if |rawIDs| == 0 {
      return Parsed(map[]);
    }
    r := CollectItems(Split(rawIDs, ", "));
  }

  method CollectItems(items: seq<string>) returns (r: Parsed)
    ensures r == CollectIDs(items)
  {
    var ids: map<string, string> := map[];
    for i := 0 to |items|
      invariant CollectIDs(items[..i]) == Parsed(ids)
    {
      assert items[..i + 1][..i] == items[..i];
      var kv := Split(items[i], "=");
      if |kv| > 2 {
        CollectStops(items, i + 1);
        return TooManyParts;
      }
      if |kv| < 2 {
        CollectStops(items, i + 1);
        return Panicked;
      }
      ids := ids[TrimSpace(kv[0]) := TrimSpace(kv[1])];
    }
    assert items[..|items|] == items;
    return Parsed(ids);
  }

  /** Once an item cannot be read, the rest of the items do not matter. */
  lemma {:induction false} CollectStops(items: seq<string>, k: nat)
    requires k <= |items| && !CollectIDs(items[..k]).Parsed?
    ensures CollectIDs(items) == CollectIDs(items[..k])
    decreases |items|
  {
    if k < |items| {
      assert items[..|items| - 1][..k] == items[..k];
      CollectStops(items[..|items| - 1], k);
    } else {
      assert items[..k] == items;
    }
  }

  method GetExternalIDs(out: string) returns (r: Parsed)
    ensures r == ParseIDColumn(out)
  {
    var cut := Cut(out, ":");
    if !cut.found {
      return NoColumn;
    }
    r := GetExternalIDsAsMap(cut.after);
  }

  /** An identifier key or value as printed: no "=", no ", " and no white space at its ends. */
  predicate CleanAtom(a: string) {
    Trimmed(a) && '=' !in a && !Occurs(a, ", ")
  }

  ghost predicate CleanIDs(ids: map<string, string>) {
    forall k | k in ids :: CleanAtom(k) && CleanAtom(ids[k])
  }

  function PrintItems(ids: map<string, string>, order: seq<string>): (items: seq<string>)
    requires forall k | k in order :: k in ids
    ensures |items| == |order|
  {
    seq(|order|, i requires 0 <= i < |order| => order[i] + "=" + ids[order[i]])
  }

  function PrintIDs(ids: map<string, string>, order: seq<string>): string
    requires forall k | k in order :: k in ids
  {
    "{" + Join(PrintItems(ids, order), ", ") + "}"
  }

  lemma ItemIsOneField(k: string, v: string)
    requires CleanAtom(k) && CleanAtom(v)
    ensures Split(k + "=" + v, "=") == [k, v]
    ensures Separable(k + "=" + v, ", ")
  {
    SeparableChar(k, '=');
    SeparableChar(v, '=');
    SplitJoin([k, v], "=");
    var s := k + "=" + v;
    assert Join([k, v], "=") == s;
    forall i | 0 <= i <= |s| ensures !HasPrefix(s[i..], ", ") {
      if i + 2 <= |s| {
        if i + 2 <= |k| {
          assert s[i..][..2] == k[i..][..2];
          assert !HasPrefix(k[i..], ", ");
        } else if i > |k| {
          assert s[i..][..2] == v[i - |k| - 1..][..2];
          assert !HasPrefix(v[i - |k| - 1..], ", ");
        } else {
          assert s[i..][0] == '=' || s[i..][1] == '=';
        }
      }
    }
    SeparableCommaSpace(s);
  }

  lemma TrimmedStays(s: string)
    requires Trimmed(s)
    ensures TrimSpace(s) == s
  {
    TrimPadded("", s, "");
    assert "" + s + "" == s;
  }

  lemma AddPrintedID(ids: map<string, string>, k: string, v: string)
    requires CleanAtom(k) && CleanAtom(v)
    ensures AddID(ids, k + "=" + v) == Parsed(ids[k := v])
  {
    ItemIsOneField(k, v);
    TrimmedStays(k);
    TrimmedStays(v);
  }

  lemma CollectLast(items: seq<string>, item: string)
    ensures CollectIDs(items + [item]) ==
            var front := CollectIDs(items); if front.Parsed? then AddID(front.ids, item) else front
  {
    assert (items + [item])[..|items|] == items;
  }

  lemma PrintItemsLast(ids: map<string, string>, front: seq<string>, k: string)
    requires forall x | x in front + [k] :: x in ids
    ensures PrintItems(ids, front + [k]) == PrintItems(ids, front) + [k + "=" + ids[k]]
  {
  }

  lemma {:induction false} CollectPrinted(ids: map<string, string>, order: seq<string>)
    requires CleanIDs(ids) && forall k | k in order :: k in ids
    ensures CollectIDs(PrintItems(ids, order)) == Parsed(OvsCommand.Restrict(ids, order))
  {
    if order != [] {
      var front, k := order[..|order| - 1], order[|order| - 1];
      assert order == front + [k];
      CollectPrinted(ids, front);
      PrintItemsLast(ids, front, k);
      CollectLast(PrintItems(ids, front), k + "=" + ids[k]);
      AddPrintedID(OvsCommand.Restrict(ids, front), k, ids[k]);
      OvsCommand.RestrictLast(ids, front, k);
    }
  }

  lemma {:induction false} JoinNonEmpty(items: seq<string>)
    requires items != [] && forall i | 0 <= i < |items| :: items[i] != ""
    ensures Join(items, ", ") != ""
  {
  }

  /** Parsing a printed identifier map returns exactly the map, in whatever order its keys were
      printed and whatever white space surrounds it. */
  lemma ExternalIDRoundTrip(ids: map<string, string>, order: seq<string>, left: string, right: string)
    requires CleanIDs(ids) && OvsCommand.IsOrder(order, ids.Keys) && Blank(left) && Blank(right)
    ensures ParseIDs(left + PrintIDs(ids, order) + right) == Parsed(ids)
  {
    var body := Join(PrintItems(ids, order), ", ");
    BracesStripped(body);
    TrimPadded(left, "{" + body + "}", right);
    PrintedItemsParse(ids, order);
  }

  lemma PrintedItemsParse(ids: map<string, string>, order: seq<string>)
    requires CleanIDs(ids) && OvsCommand.IsOrder(order, ids.Keys)
    ensures var body := Join(PrintItems(ids, order), ", ");
            Parsed(ids) == if body == "" then Parsed(map[]) else CollectIDs(Split(body, ", "))
  {
    var items := PrintItems(ids, order);
    if order == [] {
      assert ids == map[] by { assert forall k | k in ids :: k in order; }
    } else {
      forall i | 0 <= i < |items| ensures Separable(items[i], ", ") && items[i] != "" {
        ItemIsOneField(order[i], ids[order[i]]);
      }
      JoinNonEmpty(items);
      SplitJoin(items, ", ");
      CollectPrinted(ids, order);
      OvsCommand.RestrictToOrder(ids, order);
    }
  }

  /** The first item that is not of the form key=value has no "=" at all. */
  predicate UnkeyedFirst(items: seq<string>) {
    exists i | 0 <= i < |items| :: UnkeyedAt(items, i)
  }

  predicate UnkeyedAt(items: seq<string>, i: nat)
    requires i < |items|
  {
    '=' !in items[i] && forall j | 0 <= j < i :: multiset(items[j])['='] == 1
  }

  lemma {:induction false} CollectPanics(items: seq<string>)
    ensures CollectIDs(items).Parsed? <==> forall i | 0 <= i < |items| :: multiset(items[i])['='] == 1
    ensures CollectIDs(items).Panicked? <==> UnkeyedFirst(items)
  {
    if items != [] {
      var front, last := items[..|items| - 1], items[|items| - 1];
      CollectPanics(front);
      SplitParts(last, '=');
      assert UnkeyedFirst(items) <==> UnkeyedFirst(front) || UnkeyedAt(items, |items| - 1) by {
        forall i | 0 <= i < |front| ensures UnkeyedAt(items, i) <==> UnkeyedAt(front, i) {
        }
      }
    }
  }

  /** A column is missing exactly when the output has no colon. */
  lemma NoColumnExactly(out: string)
    ensures ParseIDColumn(out).NoColumn? <==> ':' !in out
  {
    FindChar(out, ':');
    match Find(out, ":")
    case None =>
    case Some(n) => NeverNoColumn(Split(StripBraces(TrimSpace(out[n + 1..])).GetOr(""), ", "));
  }

  lemma {:induction false} NeverNoColumn(items: seq<string>)
    ensures !CollectIDs(items).NoColumn?
  {
    if items != [] {
      NeverNoColumn(items[..|items| - 1]);
    }
  }

  /** Of several values for one key the last counts. */
  lemma {:induction false} LastValueCounts(items: seq<string>, i: nat)
    requires CollectIDs(items).Parsed? && i < |items| && |Split(items[i], "=")| == 2
    requires forall j | i < j < |items| && |Split(items[j], "=")| == 2 ::
               TrimSpace(Split(items[j], "=")[0]) != TrimSpace(Split(items[i], "=")[0])
    ensures var kv := Split(items[i], "="); var ids := CollectIDs(items).ids;
            TrimSpace(kv[0]) in ids && ids[TrimSpace(kv[0])] == TrimSpace(kv[1])
  {
    var front := items[..|items| - 1];
    if i < |front| {
      assert forall j | 0 <= j < |front| :: front[j] == items[j];
      LastValueCounts(front, i);
    }
  }

  /** Exactly when the parser indexes out of range: on a blank column, on a lone opening brace, and when
      the first item that is not of the form key=value has no "=". */
  lemma ParserPanicsExactly(raw: string)
    ensures var t := TrimSpace(raw);
            var body := StripBraces(t).GetOr("");
            ParseIDs(raw).Panicked? <==> t == "" || t == "{" || (body != "" && UnkeyedFirst(Split(body, ", ")))
  {
    var t := TrimSpace(raw);
    assert StripBraces(t).None? <==> t == "" || t == "{";
    CollectPanics(Split(StripBraces(t).GetOr(""), ", "));
    CollectPanics([]);
  }

  lemma BracesStripped(body: string)
    ensures Trimmed("{" + body + "}") && StripBraces("{" + body + "}") == Some(body)
  {
    var s := "{" + body + "}";
    assert s[1..] == body + "}" && (body + "}")[..|body|] == body;
  }

  /** Columns that make the parser index out of range: blank ones, and those with one item without "=". */
  lemma SomeColumnsPanic(blank: string, key: string)
    requires Blank(blank) && key != "" && '=' !in key && !Occurs(key, ", ")
    ensures ParseIDs(blank) == Panicked
    ensures ParseIDs("{" + key + "}") == Panicked
  {
    TrimPadded(blank, "", "");
    assert blank + "" + "" == blank;
    BracesStripped(key);
    TrimmedStays("{" + key + "}");
    SeparableCommaSpace(key);
    SplitJoin([key], ", ");
    assert UnkeyedAt([key], 0);
    CollectPanics([key]);
  }

  predicate IsLetter(c: char) {
    'a' <= c <= 'z' || 'A' <= c <= 'Z' || c == '_'
  }

  predicate IsHex(c: char) {
    IsDigit(c) || 'a' <= c <= 'f' || 'A' <= c <= 'F'
  }

  predicate UUIDShaped(a: string) {
    |a| == 36 && forall i | 0 <= i < 36 :: if i in {8, 13, 18, 23} then a[i] == '-' else IsHex(a[i])
  }

  /** Atoms the switch prints without quotes. */
  predicate BareAtom(a: string) {
    && a != "" && IsLetter(a[0]) && a != "true" && a != "false" && !UUIDShaped(a)
    && forall i | 0 <= i < |a| :: IsLetter(a[i]) || IsDigit(a[i]) || a[i] == '-' || a[i] == '.'
  }

  /** Atoms that need no escaping inside quotes and that the parser can tell apart from its separators. */
  predicate PlainAtom(a: string) {
    '=' !in a && '"' !in a && '\\' !in a && !Occurs(a, ", ") && forall i | 0 <= i < |a| :: ' ' <= a[i] <= '~'
  }

  /** An atom as the switch prints it. */
  function ShowAtom(a: string): string {
    if BareAtom(a) then a else "\"" + a + "\""
  }

  lemma BareAtomIsClean(a: string)
    requires BareAtom(a)
    ensures CleanAtom(a) && PlainAtom(a) && OvsCommand.Undelimited(a)
  {
    forall i | 0 <= i <= |a| ensures !HasPrefix(a[i..], ", ") {
      if i < |a| {
        assert a[i..][0] == a[i];
      }
    }
  }

  lemma QuotedAtomIsClean(a: string)
    requires PlainAtom(a)
    ensures CleanAtom("\"" + a + "\"")
  {
    var s := "\"" + a + "\"";
    assert s[0] == '"' && s[|s| - 1] == '"';
    forall i | 0 <= i <= |s| ensures !HasPrefix(s[i..], ", ") {
      if 0 < i && i + 2 < |s| {
        assert s[i..][..2] == a[i - 1..][..2];
        assert !HasPrefix(a[i - 1..], ", ");
      } else if i + 2 <= |s| {
        assert s[i..][0] == '"' || s[i..][1] == '"';
      }
    }
  }

  lemma ShownAtomIsClean(a: string)
    requires PlainAtom(a)
    ensures CleanAtom(ShowAtom(a))
    ensures ShowAtom(a) == a <==> BareAtom(a)
    ensures !BareAtom(a) ==> '"' in ShowAtom(a)
  {
    if BareAtom(a) {
      BareAtomIsClean(a);
    } else {
      QuotedAtomIsClean(a);
      assert ShowAtom(a)[0] == '"';
    }
  }

  lemma ShowAtomInjective(a: string, b: string)
    requires PlainAtom(a) && PlainAtom(b) && ShowAtom(a) == ShowAtom(b)
    ensures a == b
  {
    ShownAtomIsClean(a);
    ShownAtomIsClean(b);
    assert BareAtom(a) ==> '"' !in ShowAtom(a);
    assert BareAtom(b) ==> '"' !in ShowAtom(b);
    assert !BareAtom(a) ==> ShowAtom(a)[1..|a| + 1] == a;
    assert !BareAtom(b) ==> ShowAtom(b)[1..|b| + 1] == b;
  }

  ghost predicate PlainIDs(ids: map<string, string>) {
    forall k | k in ids :: PlainAtom(k) && PlainAtom(ids[k])
  }

  /** The shown identifiers: what a reader of the printed column can at best see. */
  ghost predicate Shows(shown: map<string, string>, ids: map<string, string>) {
    && (forall k | k in ids :: ShowAtom(k) in shown && shown[ShowAtom(k)] == ShowAtom(ids[k]))
    && (forall a | a in shown :: exists k :: k in ids && ShowAtom(k) == a)
  }

  /** The shown identifiers are the identifiers exactly when each key and value is printed bare. */
  lemma ShownIsTheSameExactly(shown: map<string, string>, ids: map<string, string>)
    requires PlainIDs(ids) && Shows(shown, ids)
    ensures shown == ids <==> forall k | k in ids :: BareAtom(k) && BareAtom(ids[k])
  {
    if forall k | k in ids :: BareAtom(k) && BareAtom(ids[k]) {
      BareIsShown(shown, ids);
    } else {
      var k :| k in ids && !(BareAtom(k) && BareAtom(ids[k]));
      QuotedIsShown(shown, ids, k);
    }
  }

  lemma BareIsShown(shown: map<string, string>, ids: map<string, string>)
    requires PlainIDs(ids) && Shows(shown, ids) && forall k | k in ids :: BareAtom(k) && BareAtom(ids[k])
    ensures shown == ids
  {
    assert forall k | k in ids :: ShowAtom(k) == k && ShowAtom(ids[k]) == ids[k];
    assert forall k | k in ids :: k in shown && shown[k] == ids[k];
    assert forall a | a in shown :: a in ids;
  }

  lemma QuotedIsShown(shown: map<string, string>, ids: map<string, string>, k: string)
    requires PlainIDs(ids) && Shows(shown, ids) && k in ids && !(BareAtom(k) && BareAtom(ids[k]))
    ensures shown != ids
  {
    ShownAtomIsClean(k);
    ShownAtomIsClean(ids[k]);
    assert ShowAtom(k) in shown && shown[ShowAtom(k)] == ShowAtom(ids[k]);
  }

  function ShowAll(order: seq<string>): (shown: seq<string>)
    ensures |shown| == |order|
  {
    seq(|order|, i requires 0 <= i < |order| => ShowAtom(order[i]))
  }

  lemma ShownDistinct(order: seq<string>, ids: map<string, string>)
    requires PlainIDs(ids) && OvsCommand.IsOrder(order, ids.Keys)
    ensures forall i, j | 0 <= i < j < |order| :: ShowAll(order)[i] != ShowAll(order)[j]
  {
    forall i, j | 0 <= i < j < |order| ensures ShowAtom(order[i]) != ShowAtom(order[j]) {
      assert order[i] in order && order[j] in order;
      if ShowAtom(order[i]) == ShowAtom(order[j]) {
        ShowAtomInjective(order[i], order[j]);
        assert false;
      }
    }
  }

  lemma ShownMembers(order: seq<string>, ids: map<string, string>, shown: map<string, string>)
    requires Shows(shown, ids) && OvsCommand.IsOrder(order, ids.Keys)
    ensures forall a :: a in ShowAll(order) <==> a in shown
  {
    var s := ShowAll(order);
    forall a | a in s ensures a in shown {
      var i :| 0 <= i < |s| && s[i] == a;
      assert order[i] in order;
    }
    forall a | a in shown ensures a in s {
      var k :| k in ids && ShowAtom(k) == a;
      assert k in order;
      var i :| 0 <= i < |order| && order[i] == k;
      assert s[i] == a;
    }
  }

  lemma ShownIsClean(ids: map<string, string>, shown: map<string, string>)
    requires PlainIDs(ids) && Shows(shown, ids)
    ensures CleanIDs(shown)
  {
    forall a | a in shown ensures CleanAtom(a) && CleanAtom(shown[a]) {
      var k :| k in ids && ShowAtom(k) == a;
      ShownAtomIsClean(k);
      ShownAtomIsClean(ids[k]);
    }
  }

  lemma ShownOrder(order: seq<string>, ids: map<string, string>, shown: map<string, string>)
    requires PlainIDs(ids) && Shows(shown, ids) && OvsCommand.IsOrder(order, ids.Keys)
    ensures OvsCommand.IsOrder(ShowAll(order), shown.Keys) && CleanIDs(shown)
  {
    ShownDistinct(order, ids);
    ShownMembers(order, ids, shown);
    ShownIsClean(ids, shown);
  }

  const ID_COLUMN := "external_ids        "

  function PrintIDColumn(ids: map<string, string>, order: seq<string>): string
    requires forall k | k in order :: k in ids
  {
    ID_COLUMN + ":" + (" " + PrintIDs(ids, order) + "\n")
  }

  lemma ColumnRoundTrip(ids: map<string, string>, order: seq<string>)
    requires CleanIDs(ids) && OvsCommand.IsOrder(order, ids.Keys)
    ensures ParseIDColumn(PrintIDColumn(ids, order)) == Parsed(ids)
  {
    SeparableChar(ID_COLUMN, ':');
    CutSeparator(ID_COLUMN, ":", " " + PrintIDs(ids, order) + "\n");
    ExternalIDRoundTrip(ids, order, " ", "\n");
  }

  /** Reading back a printed column returns the shown identifiers, and they are the identifiers exactly
      when every key and value is printed bare. */
  ghost predicate ReadsBack(ids: map<string, string>, shown: map<string, string>, order: seq<string>) {
    && OvsCommand.IsOrder(ShowAll(order), shown.Keys)
    && ParseIDColumn(PrintIDColumn(shown, ShowAll(order))) == Parsed(shown)
    && (shown == ids <==> forall k | k in ids :: BareAtom(k) && BareAtom(ids[k]))
  }

  /** Keys and values come back with the quotes the switch put around them. */
  lemma ShownColumnReadBack(ids: map<string, string>, shown: map<string, string>, order: seq<string>)
    requires PlainIDs(ids) && Shows(shown, ids) && OvsCommand.IsOrder(order, ids.Keys)
    ensures ReadsBack(ids, shown, order)
  {
    ShownOrder(order, ids, shown);
    ColumnRoundTrip(shown, ShowAll(order));
    ShownIsTheSameExactly(shown, ids);
  }

  lemma OneIDReadsBack(k: string, v: string)
    requires BareAtom(k) && PlainAtom(v)
    ensures ParseIDColumn(PrintIDColumn(map[k := ShowAtom(v)], [k])) == Parsed(map[k := ShowAtom(v)])
  {
    var ids, shown := map[k := v], map[k := ShowAtom(v)];
    BareAtomIsClean(k);
    assert ShowAtom(k) == k && ShowAll([k]) == [k];
    assert k in ids && Shows(shown, ids);
    ShownColumnReadBack(ids, shown, [k]);
  }

  /** An empty value, say, comes back as two quotes. */
  lemma EmptyValueReadsBackQuoted(k: string)
    requires BareAtom(k)
    ensures ShowAtom("") == "\"\"" != ""
    ensures ParseIDColumn(PrintIDColumn(map[k := ShowAtom("")], [k])) == Parsed(map[k := "\"\""])
  {
    assert ShowAtom("") == "\"\"";
    OneIDReadsBack(k, "");
  }

  /** Adding a port and listing it back, whatever the iteration and printing orders: the switch holds the
      identifiers that were asked for, what is read back is what it shows, and that is what was asked for
      exactly when every key and value is printed bare. */
  lemma WrittenIDsReadBack(db: OvsCommand.DB, bridge: string, port: string, kind: string, portIDs: map<string, string>,
                           interfaceIDs: map<string, string>, ofport: int,
                           portOrder: seq<string>, interfaceOrder: seq<string>,
                           args: seq<string>, order: seq<string>, shown: map<string, string>)
    requires OvsCommand.PlainNames(bridge, port, portIDs, interfaceIDs) && PlainIDs(portIDs) && PlainIDs(interfaceIDs)
    requires OvsCommand.IsOrder(portOrder, portIDs.Keys) && OvsCommand.IsOrder(interfaceOrder, interfaceIDs.Keys)
    requires args + [OvsCommand.SEPARATOR] == OvsCommand.Terminated(
               OvsCommand.AddPortCommands(bridge, port, kind, portOrder, portIDs, interfaceOrder, interfaceIDs, ofport))
    requires OvsCommand.RunVsctl(db, args).Some?
    ensures var after := OvsCommand.RunVsctl(db, args).value;
            && port in after.ports && port in after.interfaces
            && after.ports[port] == portIDs && after.interfaces[port].externalIDs == interfaceIDs
    ensures Shows(shown, portIDs) && OvsCommand.IsOrder(order, portIDs.Keys) ==> ReadsBack(portIDs, shown, order)
    ensures Shows(shown, interfaceIDs) && OvsCommand.IsOrder(order, interfaceIDs.Keys) ==>
              ReadsBack(interfaceIDs, shown, order)
  {
    OvsCommand.AddPortCommandCount(bridge, port, kind, portOrder, portIDs, interfaceOrder, interfaceIDs, ofport, args);
    OvsCommand.AddPortMeaning(db, bridge, port, kind, portOrder, portIDs, interfaceOrder, interfaceIDs, ofport);
    if Shows(shown, portIDs) && OvsCommand.IsOrder(order, portIDs.Keys) {
      ShownColumnReadBack(portIDs, shown, order);
    }
    if Shows(shown, interfaceIDs) && OvsCommand.IsOrder(order, interfaceIDs.Keys) {
      ShownColumnReadBack(interfaceIDs, shown, order);
    }
  }

  /** Every map of identifiers has a shown form. */
  function ShownIDs(ids: map<string, string>, order: seq<string>): (shown: map<string, string>)
    requires forall k | k in order :: k in ids
  {
    if order == [] then map[]
    else
      var front, k := order[..|order| - 1], order[|order| - 1];
      ShownIDs(ids, front)[ShowAtom(k) := ShowAtom(ids[k])]
  }

  lemma {:induction false} ShownIDsContents(ids: map<string, string>, order: seq<string>)
    requires PlainIDs(ids) && forall k | k in order :: k in ids
    ensures forall k | k in order ::
              ShowAtom(k) in ShownIDs(ids, order) && ShownIDs(ids, order)[ShowAtom(k)] == ShowAtom(ids[k])
    ensures forall a | a in ShownIDs(ids, order) :: exists k :: k in order && ShowAtom(k) == a
  {
    if order != [] {
      var front, last := order[..|order| - 1], order[|order| - 1];
      assert order == front + [last];
      ShownIDsContents(ids, front);
      assert last in order;
      forall k | k in order
        ensures ShowAtom(k) in ShownIDs(ids, order) && ShownIDs(ids, order)[ShowAtom(k)] == ShowAtom(ids[k])
      {
        if ShowAtom(k) == ShowAtom(last) {
          ShowAtomInjective(k, last);
        }
      }
    }
  }

  lemma ShownIDsShow(ids: map<string, string>, order: seq<string>)
    requires PlainIDs(ids) && OvsCommand.IsOrder(order, ids.Keys)
    ensures Shows(ShownIDs(ids, order), ids)
  {
    ShownIDsContents(ids, order);
    assert forall k | k in ids :: k in order;
  }

  // ------------------------------------------------------------------------- lines

  function DropCR(line: string): string {
    if line != "" && line[|line| - 1] == '\r' then line[..|line| - 1] else line
  }

  /** The lines a scanner yields: ended by newlines, without a final empty one. */
  function Lines(text: string): seq<string>
    decreases |text|
  {
    if text == "" then []
    else
      var cut := Cut(text, "\n");
      [DropCR(cut.before)] + if cut.found then Lines(cut.after) else []
  }

  function Unlines(lines: seq<string>): string {
    if lines == [] then "" else lines[0] + "\n" + Unlines(lines[1..])
  }

  predicate IsLine(s: string) {
    '\n' !in s && (s == "" || s[|s| - 1] != '\r')
  }

  lemma {:induction false} LinesUnlines(lines: seq<string>)
    requires forall i | 0 <= i < |lines| :: IsLine(lines[i])
    ensures Lines(Unlines(lines)) == lines
  {
    if lines != [] {
      SeparableChar(lines[0], '\n');
      CutSeparator(lines[0], "\n", Unlines(lines[1..]));
      LinesUnlines(lines[1..]);
    }
  }

  /** A carriage return before a newline is not part of the line. */
  lemma LinesDropReturn(line: string, rest: string)
    requires '\n' !in line
    ensures Lines(line + "\r" + "\n" + rest) == [line] + Lines(rest)
  {
    SeparableChar(line + "\r", '\n');
    CutSeparator(line + "\r", "\n", rest);
    assert (line + "\r")[..|line|] == line;
  }

  /** The last line may come without its newline, unless it is empty. */
  lemma {:induction false} LinesJoined(lines: seq<string>)
    requires lines != [] && forall i | 0 <= i < |lines| :: IsLine(lines[i])
    requires lines[|lines| - 1] != ""
    ensures Lines(Join(lines, "\n")) == lines
  {
    SeparableChar(lines[0], '\n');
    if |lines| == 1 {
      FindNothing(lines[0], "\n");
    } else {
      CutSeparator(lines[0], "\n", Join(lines[1..], "\n"));
      LinesJoined(lines[1..]);
    }
  }

  // ------------------------------------------------------------------ queue report

  datatype LineResult = Ignored | Port(name: string) | BadLine

  function PortOfLine(line: string): LineResult {
    var kv := Cut(line, ":");
    if !kv.found || TrimSpace(kv.before) != "port" then Ignored
    else
      var name := Cut(TrimSpace(kv.after), " ");
      if name.found then Port(TrimSpace(name.before)) else BadLine
  }

  function LineResults(lines: seq<string>): (results: seq<LineResult>)
    ensures |results| == |lines|
  {
    seq(|lines|, i requires 0 <= i < |lines| => PortOfLine(lines[i]))
  }

  function CollectPorts(results: seq<LineResult>): Option<set<string>> {
    if results == [] then Some({})
    else
      var front := CollectPorts(results[..|results| - 1]);
      if front.None? then None
      else match results[|results| - 1]
        case Ignored => front
        case Port(name) => Some(front.value + {name})
        case BadLine => None
  }

  /** The ports named by the lines, or nothing if a line is malformed. */
  function PortsOfLines(lines: seq<string>): Option<set<string>> {
    CollectPorts(LineResults(lines))
  }

  method GetInterfacesWithPMDRXQueue(out: string) returns (r: Option<set<string>>)
    ensures r == PortsOfLines(Lines(out))
  {
    var ports: set<string> := {};
    var lines := Lines(out);
    ghost var results := LineResults(lines);
    for i := 0 to |lines|
      invariant CollectPorts(results[..i]) == Some(ports)
    {
      CollectNext(results, i);
      var kv := Cut(lines[i], ":");
      if !kv.found {
        continue;
      }
      if TrimSpace(kv.before) != "port" {
        continue;
      }
      var value := TrimSpace(kv.after);
      var name := Cut(value, " ");
      if !name.found {
        PortsStop(results, i + 1);
        return None;
      }
      ports := ports + {TrimSpace(name.before)};
    }
    assert results[..|lines|] == results;
    return Some(ports);
  }

  lemma CollectNext(results: seq<LineResult>, i: nat)
    requires i < |results| && CollectPorts(results[..i]).Some?
    ensures CollectPorts(results[..i + 1]) ==
            match results[i]
            case Ignored => CollectPorts(results[..i])
            case Port(name) => Some(CollectPorts(results[..i]).value + {name})
            case BadLine => None
  {
    assert results[..i + 1][..i] == results[..i];
  }

  lemma {:induction false} PortsStop(results: seq<LineResult>, k: nat)
    requires k <= |results| && CollectPorts(results[..k]).None?
    ensures CollectPorts(results).None?
    decreases |results|
  {
    if k < |results| {
      assert results[..|results| - 1][..k] == results[..k];
      PortsStop(results[..|results| - 1], k);
    } else {
      assert results[..k] == results;
    }
  }

  /** The result of reading a report: an error exactly when some line is malformed, and otherwise the
      ports the lines name. */
  lemma {:induction false} CollectPortsMeaning(results: seq<LineResult>)
    ensures CollectPorts(results).None? <==> BadLine in results
    ensures CollectPorts(results).Some? ==> CollectPorts(results).value == set r | r in results && r.Port? :: r.name
  {
    if results != [] {
      var front, last := results[..|results| - 1], results[|results| - 1];
      assert results == front + [last];
      CollectPortsMeaning(front);
    }
  }

  /** What a line tells, by its text: one without a colon, or with another key, nothing; one with the key
      "port" the name up to the first space, and if there is none it is an error. */
  lemma LineMeaning(key: string, value: string, name: string, rest: string)
    requires ':' !in key && ' ' !in name
    ensures PortOfLine(key) == Ignored
    ensures TrimSpace(key) != "port" ==> PortOfLine(key + ":" + value) == Ignored
    ensures TrimSpace(key) == "port" && ' ' !in TrimSpace(value) ==> PortOfLine(key + ":" + value) == BadLine
    ensures TrimSpace(key) == "port" && TrimSpace(value) == name + " " + rest ==>
              PortOfLine(key + ":" + value) == Port(TrimSpace(name))
  {
    SeparableChar(key, ':');
    FindNothing(key, ":");
    CutSeparator(key, ":", value);
    SeparableChar(name, ' ');
    CutSeparator(name, " ", rest);
    if ' ' !in TrimSpace(value) {
      SeparableChar(TrimSpace(value), ' ');
      FindNothing(TrimSpace(value), " ");
    }
  }

  /** A report cannot be read exactly when one of its lines has the key "port" and no space after the name. */
  lemma BadReportsExactly(lines: seq<string>)
    ensures PortsOfLines(lines).None? <==>
              exists i :: 0 <= i < |lines| && NamesNoField(lines[i])
  {
    var results := LineResults(lines);
    CollectPortsMeaning(results);
    forall i | 0 <= i < |lines| ensures results[i] == BadLine <==> NamesNoField(lines[i]) {
      BadLineExactly(lines[i]);
    }
    if BadLine in results {
      var i :| 0 <= i < |results| && results[i] == BadLine;
      assert NamesNoField(lines[i]);
    }
    if i :| 0 <= i < |lines| && NamesNoField(lines[i]) {
      assert results[i] in results;
    }
  }

  /** The line is key:value with the trimmed key "port" and no space in the trimmed value. */
  ghost predicate NamesNoField(line: string) {
    exists n | 0 <= n < |line| ::
      line[n] == ':' && ':' !in line[..n] && TrimSpace(line[..n]) == "port" && ' ' !in TrimSpace(line[n + 1..])
  }

  lemma ColonBefore(line: string, m: nat, n: nat)
    requires m < n <= |line| && line[m] == ':'
    ensures ':' in line[..n]
  {
    assert line[..n][m] == ':';
  }

  lemma FirstColonUnique(line: string, m: nat, n: nat)
    requires m < |line| && line[m] == ':' && ':' !in line[..m]
    requires n < |line| && line[n] == ':' && ':' !in line[..n]
    ensures m == n
  {
    if m < n {
      ColonBefore(line, m, n);
    } else if n < m {
      ColonBefore(line, n, m);
    }
  }

  lemma BadLineExactly(line: string)
    ensures PortOfLine(line) == BadLine <==> NamesNoField(line)
  {
    FindChar(line, ':');
    match Find(line, ":")
    case None =>
    case Some(n) =>
      FindChar(TrimSpace(line[n + 1..]), ' ');
      forall m | 0 <= m < |line| && line[m] == ':' && ':' !in line[..m] ensures m == n {
        FirstColonUnique(line, m, n);
      }
  }

  // ------------------------------------------------------------------- printed reports

  /** A line of a report: one that assigns a queue to a port, or any other. The fields are what follows
      the port name and a space. */
  datatype Entry = Queue(port: string, fields: string) | Other(key: string, rest: Option<string>)

  const QUEUE_PREFIX := "  port"

  function PrintEntry(e: Entry): string {
    match e
    case Queue(port, fields) => QUEUE_PREFIX + ":" + (" " + (port + " " + fields))
    case Other(key, None) => key
    case Other(key, Some(rest)) => key + ":" + rest
  }

  predicate PortName(s: string) {
    s != "" && Trimmed(s) && ' ' !in s && '\n' !in s
  }

  /** Port names have no spaces, fields do not end in one, and other lines have another key or none. */
  predicate GoodEntry(e: Entry) {
    && IsLine(PrintEntry(e))
    && match e
       case Queue(port, fields) => PortName(port) && fields != "" && !IsSpace(fields[|fields| - 1])
       case Other(key, rest) => ':' !in key && (rest.Some? ==> TrimSpace(key) != "port")
  }

  function PrintEntries(entries: seq<Entry>): (lines: seq<string>)
    ensures |lines| == |entries|
  {
    seq(|entries|, i requires 0 <= i < |entries| => PrintEntry(entries[i]))
  }

  /** The ports that own at least one queue. */
  function Owners(entries: seq<Entry>): set<string> {
    set e | e in entries && e.Queue? :: e.port
  }

  lemma PortLine(name: string, tail: string)
    requires PortName(name) && tail != "" && !IsSpace(tail[|tail| - 1])
    ensures PortOfLine(QUEUE_PREFIX + ":" + (" " + (name + " " + tail))) == Port(name)
  {
    var value := name + " " + tail;
    SeparableChar(QUEUE_PREFIX, ':');
    CutSeparator(QUEUE_PREFIX, ":", " " + value);
    TrimPadded("  ", "port", "");
    assert "  " + "port" + "" == QUEUE_PREFIX;
    TrimPadded(" ", value, "");
    assert " " + value + "" == " " + value;
    SeparableChar(name, ' ');
    CutSeparator(name, " ", tail);
    TrimmedStays(name);
  }

  lemma OtherLineIgnored(key: string, rest: Option<string>)
    requires ':' !in key && (rest.Some? ==> TrimSpace(key) != "port")
    ensures PortOfLine(PrintEntry(Other(key, rest))) == Ignored
  {
    SeparableChar(key, ':');
    match rest
    case None => FindNothing(key, ":");
    case Some(r) => CutSeparator(key, ":", r);
  }

  lemma EntryParses(e: Entry)
    requires GoodEntry(e)
    ensures PortOfLine(PrintEntry(e)) == if e.Queue? then Port(e.port) else Ignored
  {
    match e
    case Queue(port, fields) => PortLine(port, fields);
    case Other(key, rest) => OtherLineIgnored(key, rest);
  }

  ghost predicate All<T>(s: seq<T>, p: T -> bool) {
    forall i | 0 <= i < |s| :: p(s[i])
  }

  lemma AllAppend<T>(a: seq<T>, b: seq<T>, p: T -> bool)
    requires All(a, p) && All(b, p)
    ensures All(a + b, p)
  {
  }

  lemma AllFramed<T>(first: T, second: T, s: seq<T>, last: T, p: T -> bool)
    requires p(first) && p(second) && All(s, p) && p(last)
    ensures All([first, second] + s + [last], p)
  {
    AllAppend([first, second], s, p);
    AllAppend([first, second] + s, [last], p);
  }

  ghost predicate GoodEntries(entries: seq<Entry>) {
    All(entries, GoodEntry)
  }

  lemma EntriesParse(entries: seq<Entry>)
    requires GoodEntries(entries)
    ensures PortsOfLines(PrintEntries(entries)) == Some(Owners(entries))
  {
    var results := LineResults(PrintEntries(entries));
    forall i | 0 <= i < |entries| ensures results[i] == if entries[i].Queue? then Port(entries[i].port) else Ignored {
      EntryParses(entries[i]);
    }
    CollectPortsMeaning(results);
    ResultsNameOwners(entries, results);
  }

  lemma ResultsNameOwners(entries: seq<Entry>, results: seq<LineResult>)
    requires |results| == |entries|
    requires forall i | 0 <= i < |entries| ::
               results[i] == if entries[i].Queue? then Port(entries[i].port) else Ignored
    ensures BadLine !in results && Owners(entries) == set r | r in results && r.Port? :: r.name
  {
    var names := set r | r in results && r.Port? :: r.name;
    forall name | name in Owners(entries) ensures name in names {
      var e :| e in entries && e.Queue? && e.port == name;
      var i :| 0 <= i < |entries| && entries[i] == e;
      assert results[i] in results && results[i].name == name;
    }
    forall name | name in names ensures name in Owners(entries) {
      var r :| r in results && r.Port? && r.name == name;
      var i :| 0 <= i < |results| && results[i] == r;
      assert entries[i] in entries;
    }
  }

  /** The lines as a text, ended by a newline or, unless the last is empty, not, read as these ports. */
  ghost predicate ReadsAs(lines: seq<string>, ports: set<string>) {
    && PortsOfLines(Lines(Unlines(lines))) == Some(ports)
    && (lines != [] && lines[|lines| - 1] != "" ==> PortsOfLines(Lines(Join(lines, "\n"))) == Some(ports))
  }

  /** Reading a report of any lines, with or without a newline at its very end, returns exactly the ports
      that own a queue. */
  lemma ReportRoundTrip(entries: seq<Entry>)
    requires GoodEntries(entries)
    ensures ReadsAs(PrintEntries(entries), Owners(entries))
  {
    EntriesParse(entries);
    forall i | 0 <= i < |entries| ensures IsLine(PrintEntries(entries)[i]) {
      assert GoodEntry(entries[i]);
    }
    LinesUnlines(PrintEntries(entries));
    if entries != [] && PrintEntries(entries)[|entries| - 1] != "" {
      LinesJoined(PrintEntries(entries));
    }
  }

  // ----------------------------------------------------------- reports as the switch prints them

  datatype QueueInfo = QueueInfo(port: string, id: nat, enabled: bool, usage: nat)

  datatype Thread = Thread(numa: nat, core: nat, isolated: bool, queues: seq<QueueInfo>, overhead: nat)

  const REPORT_TITLE := "Displaying last 60 seconds pmd usage %"
  const NUMA_TITLE := "pmd thread numa_id "
  const CORE_TITLE := " core_id "

  function Spaces(n: nat): string {
    seq(n, _ => ' ')
  }

  /** A number in at least two columns. */
  function TwoColumns(n: nat): string {
    (if n < 10 then " " else "") + Itoa(n)
  }

  /** Port names take at least sixteen columns, followed by two spaces. */
  function Padding(port: string): string {
    Spaces(if |port| < 16 then 16 - |port| else 0)
  }

  function QueueFields(q: QueueInfo): string {
    Padding(q.port) + (" queue-id: " + TwoColumns(q.id)) + (if q.enabled then " (enabled) " else " (disabled)")
    + ("  pmd usage: " + TwoColumns(q.usage) + " %")
  }

  function QueueEntry(q: QueueInfo): Entry {
    Queue(q.port, QueueFields(q))
  }

  const ISOLATED_KEY := "  " + "isolated" + " "
  const OVERHEAD_KEY := "  " + "overhead" + ""

  function HeaderKey(t: Thread): string {
    NUMA_TITLE + Itoa(t.numa) + CORE_TITLE + Itoa(t.core)
  }

  function IsolatedRest(t: Thread): string {
    if t.isolated then " true" else " false"
  }

  function OverheadRest(t: Thread): string {
    " " + TwoColumns(t.overhead) + " %"
  }

  function ThreadEntries(t: Thread): seq<Entry> {
    [Other(HeaderKey(t), Some("")), Other(ISOLATED_KEY, Some(IsolatedRest(t)))]
    + seq(|t.queues|, i requires 0 <= i < |t.queues| => QueueEntry(t.queues[i]))
    + [Other(OVERHEAD_KEY, Some(OverheadRest(t)))]
  }

  function ThreadsEntries(threads: seq<Thread>): seq<Entry> {
    if threads == [] then [] else ThreadEntries(threads[0]) + ThreadsEntries(threads[1..])
  }

  /** The whole report; it starts with an empty line where the output does. */
  function ReportEntries(threads: seq<Thread>): seq<Entry> {
    [Other("", None), Other(REPORT_TITLE, None)] + ThreadsEntries(threads)
  }

  ghost predicate GoodNames(threads: seq<Thread>) {
    forall i, j | 0 <= i < |threads| && 0 <= j < |threads[i].queues| :: PortName(threads[i].queues[j].port)
  }

  lemma TwoColumnsContents(n: nat)
    ensures forall c | c in TwoColumns(n) :: c == ' ' || IsDigit(c)
  {
    DigitsValue(n);
  }

  lemma FieldsAreGood(q: QueueInfo)
    ensures '\n' !in QueueFields(q)
    ensures |QueueFields(q)| > 0 && QueueFields(q)[|QueueFields(q)| - 1] == '%'
  {
    TwoColumnsContents(q.id);
    TwoColumnsContents(q.usage);
    var f := QueueFields(q);
    var tail := "  pmd usage: " + TwoColumns(q.usage) + " %";
    assert tail[|tail| - 1] == '%' && f[|f| - 1] == tail[|tail| - 1];
    assert '\n' !in Padding(q.port) && '\n' !in " queue-id: " + TwoColumns(q.id) && '\n' !in tail;
  }

  lemma QueueEntryIsGood(q: QueueInfo)
    requires PortName(q.port)
    ensures GoodEntry(QueueEntry(q))
  {
    FieldsAreGood(q);
    var line, f := PrintEntry(QueueEntry(q)), QueueFields(q);
    assert line[|line| - 1] == f[|f| - 1];
  }

  lemma KeylessIsGood(key: string)
    requires IsLine(key) && ':' !in key
    ensures GoodEntry(Other(key, None))
  {
  }

  lemma KeyedIsGood(left: string, key: string, right: string, rest: string)
    requires Blank(left) && Blank(right) && Trimmed(key) && key != "port"
    requires ':' !in left + key + right && '\n' !in left + key + right
    requires IsLine(rest)
    ensures GoodEntry(Other(left + key + right, Some(rest)))
  {
    TrimPadded(left, key, right);
    var line := left + key + right + ":" + rest;
    assert line[|line| - 1] == if rest == "" then ':' else rest[|rest| - 1];
  }

  lemma TitlesAreLines()
    ensures IsLine("") && IsLine(REPORT_TITLE) && ':' !in REPORT_TITLE
  {
    assert REPORT_TITLE[|REPORT_TITLE| - 1] == '%';
  }

  predicate PlainText(s: string) {
    ':' !in s && '\n' !in s
  }

  lemma HeadedIsGood(title: string, numa: string, middle: string, core: string)
    requires PlainText(title) && PlainText(numa) && PlainText(middle) && PlainText(core)
    requires |title| > 4 && !IsSpace(title[0]) && core != "" && !IsSpace(core[|core| - 1])
    ensures GoodEntry(Other(title + numa + middle + core, Some("")))
  {
    var key := title + numa + middle + core;
    assert key[|key| - 1] == core[|core| - 1];
    KeyedIsGood("", key, "", "");
    assert "" + key + "" == key;
  }

  lemma NumberIsPlain(n: nat)
    ensures PlainText(Itoa(n)) && Itoa(n) != "" && !IsSpace(Itoa(n)[|Itoa(n)| - 1])
  {
    DigitsHaveNo(n, ':');
    DigitsHaveNo(n, '\n');
    DigitsValue(n);
  }

  lemma HeaderIsGood(t: Thread)
    ensures GoodEntry(Other(HeaderKey(t), Some("")))
  {
    NumberIsPlain(t.numa);
    NumberIsPlain(t.core);
    HeadedIsGood(NUMA_TITLE, Itoa(t.numa), CORE_TITLE, Itoa(t.core));
  }

  lemma IsolatedIsGood(rest: string)
    requires IsLine(rest)
    ensures GoodEntry(Other(ISOLATED_KEY, Some(rest)))
  {
    KeyedIsGood("  ", "isolated", " ", rest);
  }

  lemma OverheadIsGood(rest: string)
    requires IsLine(rest)
    ensures GoodEntry(Other(OVERHEAD_KEY, Some(rest)))
  {
    KeyedIsGood("  ", "overhead", "", rest);
  }

  lemma RestsAreLines(t: Thread)
    ensures IsLine(IsolatedRest(t)) && IsLine(OverheadRest(t))
  {
    TwoColumnsContents(t.overhead);
    var rest := OverheadRest(t);
    assert rest[|rest| - 1] == '%';
  }

  /** The lines that introduce or close a thread name no port. */
  lemma ThreadLinesIgnored(t: Thread)
    ensures PortOfLine(HeaderKey(t) + ":" + "") == Ignored
    ensures PortOfLine(ISOLATED_KEY + ":" + IsolatedRest(t)) == Ignored
    ensures PortOfLine(OVERHEAD_KEY + ":" + OverheadRest(t)) == Ignored
  {
    HeaderIsGood(t);
    RestsAreLines(t);
    IsolatedIsGood(IsolatedRest(t));
    OverheadIsGood(OverheadRest(t));
    EntryParses(Other(HeaderKey(t), Some("")));
    EntryParses(Other(ISOLATED_KEY, Some(IsolatedRest(t))));
    EntryParses(Other(OVERHEAD_KEY, Some(OverheadRest(t))));
  }

  lemma ThreadEntriesAreGood(t: Thread)
    requires forall j | 0 <= j < |t.queues| :: PortName(t.queues[j].port)
    ensures GoodEntries(ThreadEntries(t))
  {
    HeaderIsGood(t);
    RestsAreLines(t);
    IsolatedIsGood(IsolatedRest(t));
    OverheadIsGood(OverheadRest(t));
    var queues := seq(|t.queues|, i requires 0 <= i < |t.queues| => QueueEntry(t.queues[i]));
    forall j | 0 <= j < |queues| ensures GoodEntry(queues[j]) {
      QueueEntryIsGood(t.queues[j]);
    }
    AllFramed(Other(HeaderKey(t), Some("")), Other(ISOLATED_KEY, Some(IsolatedRest(t))), queues,
              Other(OVERHEAD_KEY, Some(OverheadRest(t))), GoodEntry);
  }

  lemma {:induction false} ThreadsEntriesAreGood(threads: seq<Thread>)
    requires GoodNames(threads)
    ensures GoodEntries(ThreadsEntries(threads))
  {
    if threads != [] {
      ThreadEntriesAreGood(threads[0]);
      ThreadsEntriesAreGood(threads[1..]);
      AllAppend(ThreadEntries(threads[0]), ThreadsEntries(threads[1..]), GoodEntry);
    }
  }

  ghost function QueueOwners(threads: seq<Thread>): set<string> {
    set i, j | 0 <= i < |threads| && 0 <= j < |threads[i].queues| :: threads[i].queues[j].port
  }

  lemma OwnersAppend(a: seq<Entry>, b: seq<Entry>)
    ensures Owners(a + b) == Owners(a) + Owners(b)
  {
  }

  lemma ThreadOwners(t: Thread)
    ensures Owners(ThreadEntries(t)) == set j | 0 <= j < |t.queues| :: t.queues[j].port
  {
    var queues := seq(|t.queues|, i requires 0 <= i < |t.queues| => QueueEntry(t.queues[i]));
    var e := ThreadEntries(t);
    OwnersAppend([e[0], e[1]] + queues, [e[|e| - 1]]);
    OwnersAppend([e[0], e[1]], queues);
    QueueEntriesOwners(t.queues, queues);
  }

  lemma QueueEntriesOwners(infos: seq<QueueInfo>, queues: seq<Entry>)
    requires |queues| == |infos| && forall j | 0 <= j < |infos| :: queues[j] == QueueEntry(infos[j])
    ensures Owners(queues) == set j | 0 <= j < |infos| :: infos[j].port
  {
    forall j | 0 <= j < |infos| ensures infos[j].port in Owners(queues) {
      assert queues[j] in queues;
    }
    forall name | name in Owners(queues) ensures exists j :: 0 <= j < |infos| && infos[j].port == name {
      var e :| e in queues && e.Queue? && e.port == name;
      var j :| 0 <= j < |queues| && queues[j] == e;
    }
  }

  lemma {:induction false} ThreadsOwners(threads: seq<Thread>)
    ensures Owners(ThreadsEntries(threads)) == QueueOwners(threads)
  {
    if threads != [] {
      ThreadsOwners(threads[1..]);
      ThreadOwners(threads[0]);
      OwnersAppend(ThreadEntries(threads[0]), ThreadsEntries(threads[1..]));
      QueueOwnersStep(threads);
    }
  }

  lemma QueueOwnersStep(threads: seq<Thread>)
    requires threads != []
    ensures QueueOwners(threads) ==
              (set j | 0 <= j < |threads[0].queues| :: threads[0].queues[j].port) + QueueOwners(threads[1..])
  {
    var first := set j | 0 <= j < |threads[0].queues| :: threads[0].queues[j].port;
    forall name | name in QueueOwners(threads) ensures name in first + QueueOwners(threads[1..]) {
      var i, j :| 0 <= i < |threads| && 0 <= j < |threads[i].queues| && threads[i].queues[j].port == name;
      if i > 0 {
        assert threads[1..][i - 1].queues[j].port == name;
      }
    }
    forall name | name in QueueOwners(threads[1..]) ensures name in QueueOwners(threads) {
      var i, j :|
        0 <= i < |threads[1..]| && 0 <= j < |threads[1..][i].queues| && threads[1..][i].queues[j].port == name;
      assert threads[i + 1].queues[j].port == name;
    }
  }

  /** Reading the report of any threads, numbers aligned as the switch aligns them, with or without the
      empty first line and the last newline, returns exactly the ports that own a queue. */
  lemma QueueReportRoundTrip(threads: seq<Thread>)
    requires GoodNames(threads)
    ensures var lines := PrintEntries(ReportEntries(threads));
            && lines[|lines| - 1] != ""
            && ReadsAs(lines, QueueOwners(threads)) && ReadsAs(lines[1..], QueueOwners(threads))
  {
    var entries := ReportEntries(threads);
    ReportIsGood(threads);
    ReportEnds(threads);
    PrintedTail(entries);
    ReportRoundTrip(entries);
    ReportRoundTrip(entries[1..]);
  }

  lemma PrintedTail(entries: seq<Entry>)
    requires entries != []
    ensures PrintEntries(entries[1..]) == PrintEntries(entries)[1..]
  {
  }

  lemma ReportIsGood(threads: seq<Thread>)
    requires GoodNames(threads)
    ensures var entries := ReportEntries(threads);
            && GoodEntries(entries) && GoodEntries(entries[1..])
            && Owners(entries) == Owners(entries[1..]) == QueueOwners(threads)
  {
    var blank, title, rest := Other("", None), Other(REPORT_TITLE, None), ThreadsEntries(threads);
    TitlesAreLines();
    KeylessIsGood("");
    KeylessIsGood(REPORT_TITLE);
    ThreadsEntriesAreGood(threads);
    ThreadsOwners(threads);
    TitledReport(blank, title, rest);
    assert ReportEntries(threads) == [blank] + ([title] + rest);
    assert ReportEntries(threads)[1..] == [title] + rest;
  }

  lemma TitledReport(blank: Entry, title: Entry, rest: seq<Entry>)
    requires GoodEntry(blank) && GoodEntry(title) && GoodEntries(rest) && blank.Other? && title.Other?
    ensures GoodEntries([title] + rest) && GoodEntries([blank] + ([title] + rest))
    ensures Owners([title] + rest) == Owners(rest) && Owners([blank] + ([title] + rest)) == Owners(rest)
  {
    AllAppend([title], rest, GoodEntry);
    AllAppend([blank], [title] + rest, GoodEntry);
    OwnersAppend([title], rest);
    OwnersAppend([blank], [title] + rest);
  }

  lemma {:induction false} ThreadsEnd(threads: seq<Thread>)
    requires threads != []
    ensures var e := ThreadsEntries(threads); e != [] && PrintEntry(e[|e| - 1]) != ""
  {
    if |threads| > 1 {
      ThreadsEnd(threads[1..]);
    }
  }

  lemma ReportEnds(threads: seq<Thread>)
    ensures var e := ReportEntries(threads); PrintEntry(e[|e| - 1]) != ""
  {
    if threads != [] {
      ThreadsEnd(threads);
    }
  }

  /** A queue line as it appears in reports. */
  lemma SampleQueueLine()
    ensures PrintEntry(QueueEntry(QueueInfo("p0", 0, true, 0))) ==
            "  port: p0 " + "               queue-id:  0 (enabled)   pmd usage:  0 %"
  {
    var q := QueueInfo("p0", 0, true, 0);
    SampleNumbers();
    assert QueueFields(q) ==
      "              " + (" queue-id: " + " 0") + " (enabled) " + ("  pmd usage: " + " 0" + " %");
    SampleFields();
    SampleStart(QueueFields(q));
  }

  lemma SampleStart(fields: string)
    ensures QUEUE_PREFIX + ":" + (" " + ("p0" + " " + fields)) == "  port: p0 " + fields
  {
  }

  lemma SampleFields()
    ensures "              " + (" queue-id: " + " 0") + " (enabled) " + ("  pmd usage: " + " 0" + " %") ==
            "               queue-id:  0 (enabled)   pmd usage:  0 %"
  {
  }

  lemma SampleNumbers()
    ensures TwoColumns(0) == " 0" && Padding("p0") == "              "
  {
    assert Itoa(0) == "0";
  }

  // --------------------------------------------------------------- interface names

  function NamesOfLines(lines: seq<string>): set<string> {
    if lines == [] then {}
    else
      var front := NamesOfLines(lines[..|lines| - 1]);
      var kv := Cut(lines[|lines| - 1], ":");
      if kv.found then front + {TrimSpace(kv.after)} else front
  }

  method ListInterfaces(out: string) returns (ports: set<string>)
    ensures ports == NamesOfLines(Lines(out))
  {
    ports := {};
    var lines := Lines(out);
    for i := 0 to |lines|
      invariant ports == NamesOfLines(lines[..i])
    {
      NamesNext(lines, i);
      var kv := Cut(lines[i], ":");
      if !kv.found {
        continue;
      }
      ports := ports + {TrimSpace(kv.after)};
    }
    assert lines[..|lines|] == lines;
  }

  lemma NamesNext(lines: seq<string>, i: nat)
    requires i < |lines|
    ensures var kv := Cut(lines[i], ":");
            NamesOfLines(lines[..i + 1]) == NamesOfLines(lines[..i]) + if kv.found then {TrimSpace(kv.after)} else {}
  {
    assert lines[..i + 1][..i] == lines[..i];
  }

  /** The names of a listing are the trimmed texts after the first colon of a line that has one. */
  lemma {:induction false} NamesMeaning(lines: seq<string>, name: string)
    ensures name in NamesOfLines(lines) <==>
              exists i, n :: 0 <= i < |lines| && 0 <= n < |lines[i]| && lines[i][n] == ':' && ':' !in lines[i][..n]
                             && TrimSpace(lines[i][n + 1..]) == name
  {
    if lines != [] {
      var front, last := lines[..|lines| - 1], lines[|lines| - 1];
      assert forall i | 0 <= i < |front| :: front[i] == lines[i];
      NamesMeaning(front, name);
      LastNameMeaning(last, name);
    }
  }

  lemma LastNameMeaning(line: string, name: string)
    ensures var kv := Cut(line, ":");
            (kv.found && TrimSpace(kv.after) == name) <==>
              exists n :: 0 <= n < |line| && line[n] == ':' && ':' !in line[..n] && TrimSpace(line[n + 1..]) == name
  {
    FindChar(line, ':');
    match Find(line, ":")
    case None =>
    case Some(n) =>
      forall m | 0 <= m < |line| && line[m] == ':' && ':' !in line[..m] ensures m == n {
        FirstColonUnique(line, m, n);
      }
  }

  const NAME_COLUMN := "name                "

  function PrintName(name: string): string {
    NAME_COLUMN + ":" + (" " + name)
  }

  /** One record a name, with an empty line after each. */
  function PrintNames(names: seq<string>): seq<string> {
    if names == [] then []
    else PrintNames(names[..|names| - 1]) + [PrintName(names[|names| - 1])] + [""]
  }

  lemma NameLineCut(name: string)
    requires Trimmed(name)
    ensures Cut(PrintName(name), ":") == CutResult(NAME_COLUMN, " " + name, true) && TrimSpace(" " + name) == name
  {
    SeparableChar(NAME_COLUMN, ':');
    CutSeparator(NAME_COLUMN, ":", " " + name);
    TrimPadded(" ", name, "");
    assert " " + name + "" == " " + name;
  }

  lemma NamesLast(lines: seq<string>, line: string)
    ensures var kv := Cut(line, ":");
            NamesOfLines(lines + [line]) == NamesOfLines(lines) + if kv.found then {TrimSpace(kv.after)} else {}
  {
    assert (lines + [line])[..|lines|] == lines;
  }

  lemma NameLine(lines: seq<string>, name: string)
    requires Trimmed(name)
    ensures NamesOfLines(lines + [PrintName(name)] + [""]) == NamesOfLines(lines) + {name}
  {
    NameLineCut(name);
    NamesLast(lines, PrintName(name));
    FindNothing("", ":");
    NamesLast(lines + [PrintName(name)], "");
  }

  predicate InterfaceNames(names: seq<string>) {
    forall i | 0 <= i < |names| :: names[i] != "" && Trimmed(names[i]) && '\n' !in names[i]
  }

  predicate AllLines(lines: seq<string>) {
    forall i | 0 <= i < |lines| :: IsLine(lines[i])
  }

  lemma {:induction false} NamesAreLines(names: seq<string>)
    requires InterfaceNames(names)
    ensures AllLines(PrintNames(names))
  {
    if names != [] {
      var last := names[|names| - 1];
      NamesAreLines(names[..|names| - 1]);
      assert PrintName(last)[|PrintName(last)| - 1] == last[|last| - 1];
    }
  }

  lemma {:induction false} NamesParse(names: seq<string>)
    requires InterfaceNames(names)
    ensures NamesOfLines(PrintNames(names)) == set n | n in names
  {
    if names != [] {
      var front, last := names[..|names| - 1], names[|names| - 1];
      assert names == front + [last];
      NamesParse(front);
      NameLine(PrintNames(front), last);
    }
  }

  /** Listing interfaces returns exactly the printed names. */
  lemma InterfaceListRoundTrip(names: seq<string>)
    requires InterfaceNames(names)
    ensures NamesOfLines(Lines(Unlines(PrintNames(names)))) == set n | n in names
  {
    NamesAreLines(names);
    NamesParse(names);
    LinesUnlines(PrintNames(names));
  }

  // ------------------------------------------------------------- system identifier

  function TrimQuotes(s: string): string {
    if s != "" && s[0] == '"' then TrimQuotes(s[1..])
    else if s != "" && s[|s| - 1] == '"' then TrimQuotes(s[..|s| - 1])
    else s
  }

  /** The local system identifier, or the empty string if the switch has none. */
  function SystemID(out: string): string {
    var id := TrimQuotes(TrimSpace(out));
    if id == "[]" then "" else id
  }

  /** All quotes at both ends are removed, and nothing else. */
  lemma {:induction false} TrimQuotesExactly(s: string) returns (left: nat, right: nat)
    ensures left <= right <= |s| && TrimQuotes(s) == s[left..right]
    ensures forall i | 0 <= i < left || right <= i < |s| :: s[i] == '"'
    ensures TrimQuotes(s) != "" ==> TrimQuotes(s)[0] != '"' && TrimQuotes(s)[|TrimQuotes(s)| - 1] != '"'
  {
    if s != "" && s[0] == '"' {
      left, right := TrimQuotesExactly(s[1..]);
      left, right := left + 1, right + 1;
      assert s[1..][left - 1..right - 1] == s[left..right];
    } else if s != "" && s[|s| - 1] == '"' {
      left, right := TrimQuotesExactly(s[..|s| - 1]);
      assert s[..|s| - 1][left..right] == s[left..right];
    } else {
      left, right := 0, |s|;
    }
  }

  lemma TrimQuotesAround(id: string)
    requires id != "" && id[0] != '"' && id[|id| - 1] != '"'
    ensures TrimQuotes(id) == TrimQuotes("\"" + id + "\"") == id
  {
    var quoted := "\"" + id + "\"";
    assert quoted[1..] == id + "\"";
    assert (id + "\"")[..|id|] == id;
  }

  lemma TrimNewline(s: string)
    requires Trimmed(s)
    ensures TrimSpace(s + "\n") == s
  {
    TrimPadded("", s, "\n");
    assert "" + s + "\n" == s + "\n";
  }

  /** A printed identifier is read back, quoted or not, and no identifier reads as empty. */
  lemma SystemIDRoundTrip(id: string)
    requires id != "" && id[0] != '"' && id[|id| - 1] != '"' && id != "[]"
    ensures SystemID("\"" + id + "\"" + "\n") == id
    ensures Trimmed(id) ==> SystemID(id + "\n") == id
  {
    TrimQuotesAround(id);
    TrimNewline("\"" + id + "\"");
    if Trimmed(id) {
      TrimNewline(id);
    }
  }

  lemma NoSystemID()
    ensures SystemID("\n") == SystemID("[]\n") == ""
  {
    TrimNewline("");
    TrimNewline("[]");
    assert "" + "\n" == "\n" && "[]" + "\n" == "[]\n";
  }
}
