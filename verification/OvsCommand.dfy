/** Adding a port to the virtual switch with all of its metadata in one ovs-vsctl transaction. The
    argument list is built from maps, whose iteration order is arbitrary; an abstract switch database
    gives the arguments their meaning. */
module OvsCommand {
  import opened Wrappers
  import opened Decimal

  // -------------------------------------------------------------- the switch database

  datatype Interface = Interface(kind: string, ofportRequest: int, externalIDs: map<string, string>)

  datatype DB = DB(
    bridges: map<string, set<string>>,
    ports: map<string, map<string, string>>,
    interfaces: map<string, Interface>)

  /** column=value, or column:key=value. */
  datatype Assignment = Assignment(column: string, key: Option<string>, value: string)

  predicate IsDelimiter(c: char) {
    c == ':' || c == '='
  }

  predicate Undelimited(s: string) {
    forall i | 0 <= i < |s| :: !IsDelimiter(s[i])
  }

  /** The length of the text before the first delimiter. */
  function TokenLength(s: string): (n: nat)
    ensures n <= |s|
    ensures n < |s| ==> IsDelimiter(s[n])
  {
    if s == "" || IsDelimiter(s[0]) then 0 else 1 + TokenLength(s[1..])
  }

  function ParseAssignment(s: string): Option<Assignment> {
    var n := TokenLength(s);
    if n == |s| then None
    else if s[n] == '=' then Some(Assignment(s[..n], None, s[n + 1..]))
    else
      var rest := s[n + 1..];
      var k := TokenLength(rest);
      if k == |rest| || rest[k] != '=' then None
      else Some(Assignment(s[..n], Some(rest[..k]), rest[k + 1..]))
  }

  const EXTERNAL_IDS := "external_ids"

  function SetPort(db: DB, port: string, a: Assignment): Option<DB> {
    if port in db.ports && a.column == EXTERNAL_IDS && a.key.Some? then
      Some(db.(ports := db.ports[port := db.ports[port][a.key.value := a.value]]))
    else None
  }

  function SetInterface(db: DB, name: string, a: Assignment): Option<DB> {
    if name !in db.interfaces then None
    else
      var i := db.interfaces[name];
      if a.column == EXTERNAL_IDS && a.key.Some? then
        Some(db.(interfaces := db.interfaces[name := i.(externalIDs := i.externalIDs[a.key.value := a.value])]))
      else if a.column == "type" && a.key.None? then
        Some(db.(interfaces := db.interfaces[name := i.(kind := a.value)]))
      else if a.column == "ofport_request" && a.key.None? && Atoi(a.value).Some? then
        Some(db.(interfaces := db.interfaces[name := i.(ofportRequest := Atoi(a.value).value)]))
      else None
  }

  function AddPort(db: DB, bridge: string, port: string): Option<DB> {
    if bridge in db.bridges && port !in db.ports && port !in db.interfaces then
      Some(DB(db.bridges[bridge := db.bridges[bridge] + {port}],
              db.ports[port := map[]],
              db.interfaces[port := Interface("", 0, map[])]))
    else None
  }

  function SetColumn(db: DB, table: string, name: string, a: Assignment): Option<DB> {
    if table == "port" then SetPort(db, name, a)
    else if table == "int" then SetInterface(db, name, a)
    else None
  }

  function Execute(db: DB, command: seq<string>): Option<DB> {
    if |command| == 3 && command[0] == "add-port" then AddPort(db, command[1], command[2])
    else if |command| == 4 && command[0] == "set" then
      match ParseAssignment(command[3])
      case None => None
      case Some(a) => SetColumn(db, command[1], command[2], a)
    else None
  }

  /** A transaction: all of the commands in order, or none of them. */
  function ExecuteAll(db: DB, commands: seq<seq<string>>): Option<DB> {
    if commands == [] then Some(db)
    else
      var front := ExecuteAll(db, commands[..|commands| - 1]);
      if front.None? then None else Execute(front.value, commands[|commands| - 1])
  }

  const SEPARATOR := "--"

  /** The commands between the separators. */
  function SplitCommands(args: seq<string>): (commands: seq<seq<string>>)
    ensures |commands| >= 1
  {
    if args == [] then [[]]
    else
      var rest := SplitCommands(args[1..]);
      if args[0] == SEPARATOR then [[]] + rest else [[args[0]] + rest[0]] + rest[1..]
  }

  function RunVsctl(db: DB, args: seq<string>): Option<DB> {
    ExecuteAll(db, SplitCommands(args))
  }

  // ---------------------------------------------------------------- building the arguments

  /** An iteration order of a map: each of its keys exactly once. */
  ghost predicate IsOrder(order: seq<string>, keys: set<string>) {
    && (forall i, j | 0 <= i < j < |order| :: order[i] != order[j])
    && (forall k :: k in order <==> k in keys)
  }

  function IDCommand(table: string, name: string, key: string, value: string): seq<string> {
    ["set", table, name, EXTERNAL_IDS + ":" + key + "=" + value]
  }

  function IDCommands(table: string, name: string, order: seq<string>, ids: map<string, string>)
    : (commands: seq<seq<string>>)
    requires forall k | k in order :: k in ids
    ensures |commands| == |order|
  {
    seq(|order|, i requires 0 <= i < |order| => IDCommand(table, name, order[i], ids[order[i]]))
  }

  function HeadCommands(bridge: string, port: string, kind: string, ofport: int): seq<seq<string>> {
    [["add-port", bridge, port],
     ["set", "int", port, "type=" + kind],
     ["set", "int", port, "ofport_request=" + Itoa(ofport)]]
  }

  /** Every command followed by a separator. */
  function Terminated(commands: seq<seq<string>>): seq<string> {
    if commands == [] then []
    else Terminated(commands[..|commands| - 1]) + commands[|commands| - 1] + [SEPARATOR]
  }

  lemma TerminatedAppend(commands: seq<seq<string>>, command: seq<string>)
    ensures Terminated(commands + [command]) == Terminated(commands) + command + [SEPARATOR]
  {
    assert (commands + [command])[..|commands|] == commands;
  }

  lemma IDCommandsMore(commands: seq<seq<string>>, table: string, name: string, front: seq<string>, k: string,
                       ids: map<string, string>)
    requires forall x | x in front + [k] :: x in ids
    ensures commands + IDCommands(table, name, front + [k], ids) ==
            commands + IDCommands(table, name, front, ids) + [IDCommand(table, name, k, ids[k])]
  {
    IDCommandsLast(table, name, front, k, ids);
  }

  /** Appends one command per identifier, in whatever order the map yields its keys. */
  method AppendIDCommands(args: seq<string>, table: string, name: string, ids: map<string, string>,
                          ghost commands: seq<seq<string>>)
    returns (longer: seq<string>, order: seq<string>)
    requires args == Terminated(commands)
    ensures IsOrder(order, ids.Keys)
    ensures longer == Terminated(commands + IDCommands(table, name, order, ids))
  {
    longer, order := args, [];
    var left := ids.Keys;
    assert commands + IDCommands(table, name, order, ids) == commands;
    while left != {}
      invariant left <= ids.Keys
      invariant IsOrder(order, ids.Keys - left)
      invariant longer == Terminated(commands + IDCommands(table, name, order, ids))
      decreases left
    {
      var k :| k in left;
      ghost var before := commands + IDCommands(table, name, order, ids);
      longer := longer + IDCommand(table, name, k, ids[k]) + [SEPARATOR];
      TerminatedAppend(before, IDCommand(table, name, k, ids[k]));
      IDCommandsMore(commands, table, name, order, k, ids);
      order := order + [k];
      left := left - {k};
    }
  }

  /** The whole argument list, for some iteration order of each map. */
  method AddPortArguments(bridge: string, port: string, kind: string, portIDs: map<string, string>,
                          interfaceIDs: map<string, string>, ofport: int)
    returns (args: seq<string>, portOrder: seq<string>, interfaceOrder: seq<string>)
    ensures IsOrder(portOrder, portIDs.Keys) && IsOrder(interfaceOrder, interfaceIDs.Keys)
    ensures args + [SEPARATOR] ==
            Terminated(AddPortCommands(bridge, port, kind, portOrder, portIDs, interfaceOrder, interfaceIDs, ofport))
    ensures args + ["--"] ==
            ["add-port", bridge, port, "--", "set", "int", port, "type=" + kind, "--",
             "set", "int", port, "ofport_request=" + Itoa(ofport), "--"]
            + IDArguments("port", port, portOrder, portIDs) + IDArguments("int", port, interfaceOrder, interfaceIDs)
  {
    args := [];
    args := args + ["add-port", bridge, port, SEPARATOR];
    args := args + ["set", "int", port, "type=" + kind, SEPARATOR];
    args := args + ["set", "int", port, "ofport_request=" + Itoa(ofport), SEPARATOR];
    ghost var head := HeadCommands(bridge, port, kind, ofport);
    HeadWords(bridge, port, kind, ofport);
    args, portOrder := AppendIDCommands(args, "port", port, portIDs, head);
    ghost var more := head + IDCommands("port", port, portOrder, portIDs);
    args, interfaceOrder := AppendIDCommands(args, "int", port, interfaceIDs, more);
    args := args[..|args| - 1];
    ArgumentsLiterally(bridge, port, kind, portOrder, portIDs, interfaceOrder, interfaceIDs, ofport, args);
  }

  function AddPortCommands(bridge: string, port: string, kind: string,
                           portOrder: seq<string>, portIDs: map<string, string>,
                           interfaceOrder: seq<string>, interfaceIDs: map<string, string>, ofport: int)
    : seq<seq<string>>
    requires forall k | k in portOrder :: k in portIDs
    requires forall k | k in interfaceOrder :: k in interfaceIDs
  {
    HeadCommands(bridge, port, kind, ofport)
    + IDCommands("port", port, portOrder, portIDs)
    + IDCommands("int", port, interfaceOrder, interfaceIDs)
  }

  // --------------------------------------------------------------------- splitting laws

  lemma {:induction false} SplitAppend(command: seq<string>, rest: seq<string>)
    requires SEPARATOR !in command
    ensures SplitCommands(command + [SEPARATOR] + rest) == [command] + SplitCommands(rest)
  {
    var args := command + [SEPARATOR] + rest;
    if command == [] {
      assert args[1..] == rest;
    } else {
      assert args[1..] == command[1..] + [SEPARATOR] + rest;
      SplitAppend(command[1..], rest);
      assert [command[0]] + command[1..] == command;
    }
  }

  lemma {:induction false} SplitOne(command: seq<string>)
    requires SEPARATOR !in command
    ensures SplitCommands(command) == [command]
  {
    if command != [] {
      SplitOne(command[1..]);
      assert [command[0]] + command[1..] == command;
    }
  }

  lemma Regroup(a: seq<string>, b: seq<string>, c: seq<string>, d: seq<string>, e: seq<string>)
    ensures a + b + c + d + e == a + b + (c + d + e)
  {
  }

  lemma {:induction false} TerminatedPrepend(commands: seq<seq<string>>)
    requires commands != []
    ensures Terminated(commands) == commands[0] + [SEPARATOR] + Terminated(commands[1..])
  {
    if |commands| == 1 {
      assert commands[..0] == [] && commands[1..] == [];
      assert Terminated(commands) == Terminated([]) + commands[0] + [SEPARATOR];
    } else {
      var front, last := commands[..|commands| - 1], commands[|commands| - 1];
      TerminatedPrepend(front);
      assert commands == front + [last] && commands[1..] == front[1..] + [last];
      TerminatedAppend(front, last);
      TerminatedAppend(front[1..], last);
      Regroup(front[0], [SEPARATOR], Terminated(front[1..]), last, [SEPARATOR]);
    }
  }

  /** Dropping the last separator and splitting gives back the commands. */
  lemma {:induction false} SplitTerminated(commands: seq<seq<string>>, args: seq<string>)
    requires commands != [] && args + [SEPARATOR] == Terminated(commands)
    requires forall i | 0 <= i < |commands| :: SEPARATOR !in commands[i]
    ensures SplitCommands(args) == commands
    decreases |commands|
  {
    TerminatedPrepend(commands);
    if |commands| == 1 {
      assert Terminated(commands[1..]) == [];
      assert args == (args + [SEPARATOR])[..|args|] == commands[0];
      SplitOne(commands[0]);
    } else {
      var tail := Terminated(commands[1..]);
      TerminatedPrepend(commands[1..]);
      var rest := tail[..|tail| - 1];
      var last := commands[|commands| - 1];
      assert commands[1..][|commands| - 2] == last;
      assert rest + [SEPARATOR] == tail;
      assert args == (args + [SEPARATOR])[..|args|] == commands[0] + [SEPARATOR] + rest;
      SplitAppend(commands[0], rest);
      SplitTerminated(commands[1..], rest);
    }
  }

  function CountSeparators(args: seq<string>): nat {
    if args == [] then 0 else (if args[0] == SEPARATOR then 1 else 0) + CountSeparators(args[1..])
  }

  lemma {:induction false} SplitCount(args: seq<string>)
    ensures |SplitCommands(args)| == 1 + CountSeparators(args)
  {
    if args != [] {
      SplitCount(args[1..]);
    }
  }

  lemma {:induction false} CountAppend(a: seq<string>, b: seq<string>)
    ensures CountSeparators(a + b) == CountSeparators(a) + CountSeparators(b)
  {
    if a == [] {
      assert a + b == b;
    } else {
      assert (a + b)[1..] == a[1..] + b;
      CountAppend(a[1..], b);
    }
  }

  lemma CountLast(front: seq<seq<string>>, last: seq<string>)
    ensures CountSeparators(Terminated(front + [last])) ==
              CountSeparators(Terminated(front)) + CountSeparators(last) + 1
  {
    TerminatedAppend(front, last);
    CountAppend(Terminated(front) + last, [SEPARATOR]);
    CountAppend(Terminated(front), last);
  }

  lemma {:induction false} CountTerminated(commands: seq<seq<string>>)
    ensures CountSeparators(Terminated(commands)) >= |commands|
    ensures (exists i | 0 <= i < |commands| :: SEPARATOR in commands[i]) ==>
              CountSeparators(Terminated(commands)) > |commands|
  {
    if commands != [] {
      var front, last := commands[..|commands| - 1], commands[|commands| - 1];
      assert commands == front + [last];
      CountTerminated(front);
      CountLast(front, last);
      CountOccurrence(last);
    }
  }

  lemma {:induction false} CountOccurrence(args: seq<string>)
    ensures SEPARATOR in args ==> CountSeparators(args) > 0
  {
    if args != [] {
      CountOccurrence(args[1..]);
    }
  }

  // -------------------------------------------------------------- meaning of the commands

  lemma {:induction false} TokenBefore(a: string, d: char, b: string)
    requires Undelimited(a) && IsDelimiter(d)
    ensures TokenLength(a + [d] + b) == |a|
  {
    if a != "" {
      assert (a + [d] + b)[1..] == a[1..] + [d] + b;
      TokenBefore(a[1..], d, b);
    }
  }

  lemma ParsePlain(column: string, value: string)
    requires Undelimited(column)
    ensures ParseAssignment(column + "=" + value) == Some(Assignment(column, None, value))
  {
    var s := column + "=" + value;
    TokenBefore(column, '=', value);
    assert s[..|column|] == column && s[|column| + 1..] == value && s[|column|] == '=';
  }

  lemma ParseKeyed(column: string, key: string, value: string)
    requires Undelimited(column) && Undelimited(key)
    ensures ParseAssignment(column + ":" + key + "=" + value) == Some(Assignment(column, Some(key), value))
  {
    var rest := key + "=" + value;
    var s := column + ":" + rest;
    assert column + ":" + key + "=" + value == s;
    TokenBefore(column, ':', rest);
    TokenBefore(key, '=', value);
    assert s[..|column|] == column && s[|column| + 1..] == rest && s[|column|] == ':';
    assert rest[..|key|] == key && rest[|key| + 1..] == value && rest[|key|] == '=';
  }

  lemma ExecuteSet(db: DB, table: string, name: string, text: string, a: Assignment)
    requires ParseAssignment(text) == Some(a)
    ensures Execute(db, ["set", table, name, text]) == SetColumn(db, table, name, a)
  {
  }

  lemma ExecuteIDCommand(db: DB, table: string, name: string, key: string, value: string)
    requires Undelimited(key)
    ensures Execute(db, IDCommand(table, name, key, value)) ==
            SetColumn(db, table, name, Assignment(EXTERNAL_IDS, Some(key), value))
  {
    IDAssignmentParses(key, value);
    ExecuteSet(db, table, name, EXTERNAL_IDS + ":" + key + "=" + value, Assignment(EXTERNAL_IDS, Some(key), value));
  }

  lemma IDAssignmentParses(key: string, value: string)
    requires Undelimited(key)
    ensures ParseAssignment(EXTERNAL_IDS + ":" + key + "=" + value) == Some(Assignment(EXTERNAL_IDS, Some(key), value))
  {
    ParseKeyed(EXTERNAL_IDS, key, value);
  }

  function Restrict(ids: map<string, string>, order: seq<string>): map<string, string> {
    map k | k in ids && k in order :: ids[k]
  }

  lemma ExecuteLast(db: DB, commands: seq<seq<string>>, command: seq<string>)
    ensures ExecuteAll(db, commands + [command]) ==
            (var front := ExecuteAll(db, commands); if front.None? then None else Execute(front.value, command))
  {
    assert (commands + [command])[..|commands|] == commands;
  }

  lemma {:induction false} ExecuteAppend(db: DB, first: seq<seq<string>>, second: seq<seq<string>>)
    ensures ExecuteAll(db, first + second) ==
            (var mid := ExecuteAll(db, first); if mid.None? then None else ExecuteAll(mid.value, second))
  {
    if second == [] {
      assert first + second == first;
    } else {
      var front, last := second[..|second| - 1], second[|second| - 1];
      ExecuteAppend(db, first, front);
      assert first + second == (first + front) + [last];
      ExecuteLast(db, first + front, last);
    }
  }

  function PutPortIDs(db: DB, port: string, ids: map<string, string>): DB
    requires port in db.ports
  {
    db.(ports := db.ports[port := db.ports[port] + ids])
  }

  lemma PutPortID(db: DB, port: string, ids: map<string, string>, k: string, v: string)
    requires port in db.ports && Undelimited(k)
    ensures Execute(PutPortIDs(db, port, ids), IDCommand("port", port, k, v)) == Some(PutPortIDs(db, port, ids[k := v]))
  {
    ExecuteIDCommand(PutPortIDs(db, port, ids), "port", port, k, v);
    PutOneMore(db.ports[port], ids, k, v);
    PutTwice(db.ports, port, db.ports[port] + ids, db.ports[port] + ids[k := v]);
  }

  lemma PutOneMore(m: map<string, string>, ids: map<string, string>, k: string, v: string)
    ensures (m + ids)[k := v] == m + ids[k := v]
  {
  }

  lemma PutTwice<T>(m: map<string, T>, k: string, u: T, v: T)
    ensures m[k := u][k := v] == m[k := v]
  {
  }

  lemma RestrictLast(ids: map<string, string>, front: seq<string>, k: string)
    requires k in ids
    ensures Restrict(ids, front + [k]) == Restrict(ids, front)[k := ids[k]]
  {
  }

  lemma IDCommandsLast(table: string, name: string, front: seq<string>, k: string, ids: map<string, string>)
    requires forall x | x in front + [k] :: x in ids
    ensures IDCommands(table, name, front + [k], ids) ==
              IDCommands(table, name, front, ids) + [IDCommand(table, name, k, ids[k])]
  {
  }

  lemma {:induction false} ExecutePortIDs(db: DB, port: string, order: seq<string>, ids: map<string, string>)
    requires port in db.ports && forall k | k in order :: k in ids && Undelimited(k)
    ensures ExecuteAll(db, IDCommands("port", port, order, ids)) == Some(PutPortIDs(db, port, Restrict(ids, order)))
  {
    if order == [] {
      assert Restrict(ids, order) == map[] && db.ports[port] + map[] == db.ports[port];
      assert db.ports[port := db.ports[port]] == db.ports;
    } else {
      var front, k := order[..|order| - 1], order[|order| - 1];
      assert order == front + [k];
      ExecutePortIDs(db, port, front, ids);
      IDCommandsLast("port", port, front, k, ids);
      ExecuteLast(db, IDCommands("port", port, front, ids), IDCommand("port", port, k, ids[k]));
      PutPortID(db, port, Restrict(ids, front), k, ids[k]);
      RestrictLast(ids, front, k);
    }
  }

  function PutInterfaceIDs(db: DB, name: string, ids: map<string, string>): DB
    requires name in db.interfaces
  {
    var i := db.interfaces[name];
    db.(interfaces := db.interfaces[name := i.(externalIDs := i.externalIDs + ids)])
  }

  lemma PutInterfaceID(db: DB, name: string, ids: map<string, string>, k: string, v: string)
    requires name in db.interfaces && Undelimited(k)
    ensures Execute(PutInterfaceIDs(db, name, ids), IDCommand("int", name, k, v)) ==
              Some(PutInterfaceIDs(db, name, ids[k := v]))
  {
    ExecuteIDCommand(PutInterfaceIDs(db, name, ids), "int", name, k, v);
    var i := db.interfaces[name];
    PutOneMore(i.externalIDs, ids, k, v);
    PutTwice(db.interfaces, name,
             i.(externalIDs := i.externalIDs + ids), i.(externalIDs := i.externalIDs + ids[k := v]));
  }

  lemma {:induction false} ExecuteInterfaceIDs(db: DB, name: string, order: seq<string>, ids: map<string, string>)
    requires name in db.interfaces && forall k | k in order :: k in ids && Undelimited(k)
    ensures ExecuteAll(db, IDCommands("int", name, order, ids)) == Some(PutInterfaceIDs(db, name, Restrict(ids, order)))
  {
    if order == [] {
      var i := db.interfaces[name];
      assert Restrict(ids, order) == map[] && i.externalIDs + map[] == i.externalIDs;
      assert db.interfaces[name := i] == db.interfaces;
    } else {
      var front, k := order[..|order| - 1], order[|order| - 1];
      assert order == front + [k];
      ExecuteInterfaceIDs(db, name, front, ids);
      IDCommandsLast("int", name, front, k, ids);
      ExecuteLast(db, IDCommands("int", name, front, ids), IDCommand("int", name, k, ids[k]));
      PutInterfaceID(db, name, Restrict(ids, front), k, ids[k]);
      RestrictLast(ids, front, k);
    }
  }

  /** The database after the port was added: the port on its bridge with exactly its identifiers, and
      its interface with the given type, ofport request and exactly its identifiers. */
  function WithPort(db: DB, bridge: string, port: string, kind: string, portIDs: map<string, string>,
                    interfaceIDs: map<string, string>, ofport: int): DB
    requires bridge in db.bridges
  {
    DB(db.bridges[bridge := db.bridges[bridge] + {port}],
       db.ports[port := portIDs],
       db.interfaces[port := Interface(kind, ofport, interfaceIDs)])
  }

  /** Names the argument syntax can carry: neither is the separator, and no identifier's key holds a
      delimiter. */
  ghost predicate PlainNames(bridge: string, port: string, portIDs: map<string, string>,
                             interfaceIDs: map<string, string>) {
    && bridge != SEPARATOR && port != SEPARATOR
    && forall k | k in portIDs || k in interfaceIDs :: Undelimited(k)
  }

  predicate CanAdd(db: DB, bridge: string, port: string) {
    bridge in db.bridges && port !in db.ports && port !in db.interfaces
  }

  lemma ExecuteHead(db: DB, bridge: string, port: string, kind: string, ofport: int)
    ensures ExecuteAll(db, HeadCommands(bridge, port, kind, ofport)) ==
            if CanAdd(db, bridge, port) then Some(WithPort(db, bridge, port, kind, map[], map[], ofport)) else None
  {
    ExecuteThree(db, HeadCommands(bridge, port, kind, ofport));
    if CanAdd(db, bridge, port) {
      ExecuteHeadOn(db, bridge, port, kind, ofport);
    } else {
      assert AddPort(db, bridge, port).None?;
    }
  }

  lemma ExecuteHeadOn(db: DB, bridge: string, port: string, kind: string, ofport: int)
    requires CanAdd(db, bridge, port)
    ensures var head := HeadCommands(bridge, port, kind, ofport);
            && Execute(db, head[0]).Some?
            && Execute(Execute(db, head[0]).value, head[1]).Some?
            && Execute(Execute(Execute(db, head[0]).value, head[1]).value, head[2])
               == Some(WithPort(db, bridge, port, kind, map[], map[], ofport))
  {
    var d0 := AddPort(db, bridge, port).value;
    ExecuteAddPort(db, bridge, port);
    SetInterfaceColumns(d0, port, kind, ofport);
    NewInterface(db, bridge, port, kind, ofport);
  }

  lemma ExecuteAddPort(db: DB, bridge: string, port: string)
    ensures Execute(db, ["add-port", bridge, port]) == AddPort(db, bridge, port)
  {
  }

  lemma NewInterface(db: DB, bridge: string, port: string, kind: string, ofport: int)
    requires CanAdd(db, bridge, port)
    ensures var d0 := AddPort(db, bridge, port).value;
            d0.(interfaces := d0.interfaces[port := d0.interfaces[port].(kind := kind, ofportRequest := ofport)])
            == WithPort(db, bridge, port, kind, map[], map[], ofport)
  {
    var i := Interface(kind, ofport, map[]);
    assert db.interfaces[port := Interface("", 0, map[])][port := i] == db.interfaces[port := i];
  }

  lemma SetInterfaceColumns(db: DB, name: string, kind: string, ofport: int)
    requires name in db.interfaces
    ensures var i := db.interfaces[name];
            var typed := db.(interfaces := db.interfaces[name := i.(kind := kind)]);
            && Execute(db, ["set", "int", name, "type=" + kind]) == Some(typed)
            && Execute(typed, ["set", "int", name, "ofport_request=" + Itoa(ofport)]) ==
               Some(db.(interfaces := db.interfaces[name := i.(kind := kind, ofportRequest := ofport)]))
  {
    SetKind(db, name, kind);
    var i := db.interfaces[name];
    var i0 := i.(kind := kind);
    SetOfport(db.(interfaces := db.interfaces[name := i0]), name, ofport);
    var i1 := i.(kind := kind, ofportRequest := ofport);
    assert db.interfaces[name := i0][name := i1] == db.interfaces[name := i1];
  }

  lemma SetKind(db: DB, name: string, kind: string)
    requires name in db.interfaces
    ensures Execute(db, ["set", "int", name, "type=" + kind]) ==
            Some(db.(interfaces := db.interfaces[name := db.interfaces[name].(kind := kind)]))
  {
    ParsePlain("type", kind);
    assert "type=" + kind == "type" + "=" + kind;
    ExecuteSet(db, "int", name, "type=" + kind, Assignment("type", None, kind));
  }

  lemma SetOfport(db: DB, name: string, ofport: int)
    requires name in db.interfaces
    ensures Execute(db, ["set", "int", name, "ofport_request=" + Itoa(ofport)]) ==
            Some(db.(interfaces := db.interfaces[name := db.interfaces[name].(ofportRequest := ofport)]))
  {
    OfportParses(Itoa(ofport));
    AtoiItoa(ofport);
    ExecuteSet(db, "int", name, "ofport_request=" + Itoa(ofport), Assignment("ofport_request", None, Itoa(ofport)));
  }

  lemma OfportParses(text: string)
    ensures ParseAssignment("ofport_request=" + text) == Some(Assignment("ofport_request", None, text))
  {
    ParsePlain("ofport_request", text);
    assert "ofport_request=" + text == "ofport_request" + "=" + text;
  }

  lemma ExecuteThree(db: DB, commands: seq<seq<string>>)
    requires |commands| == 3
    ensures ExecuteAll(db, commands) ==
            (var a := Execute(db, commands[0]);
             if a.None? then None
             else
               var b := Execute(a.value, commands[1]);
               if b.None? then None else Execute(b.value, commands[2]))
  {
    assert commands[..2][..1] == commands[..1] && commands[..1][..0] == [];
    assert ExecuteAll(db, commands[..1][..0]) == Some(db);
    assert ExecuteAll(db, commands[..1]) == Execute(db, commands[0]);
    assert ExecuteAll(db, commands[..2][..1]) == ExecuteAll(db, commands[..1]);
  }

  /** Whatever the order of the maps, the commands leave the same database, or fail as one. */
  lemma AddPortMeaning(db: DB, bridge: string, port: string, kind: string,
                       portOrder: seq<string>, portIDs: map<string, string>,
                       interfaceOrder: seq<string>, interfaceIDs: map<string, string>, ofport: int)
    requires IsOrder(portOrder, portIDs.Keys) && IsOrder(interfaceOrder, interfaceIDs.Keys)
    requires forall k | k in portIDs || k in interfaceIDs :: Undelimited(k)
    ensures var commands :=
              AddPortCommands(bridge, port, kind, portOrder, portIDs, interfaceOrder, interfaceIDs, ofport);
            ExecuteAll(db, commands) ==
            if bridge in db.bridges && port !in db.ports && port !in db.interfaces
            then Some(DB(db.bridges[bridge := db.bridges[bridge] + {port}], db.ports[port := portIDs],
                         db.interfaces[port := Interface(kind, ofport, interfaceIDs)]))
            else None
  {
    var head := HeadCommands(bridge, port, kind, ofport);
    var p, i := IDCommands("port", port, portOrder, portIDs), IDCommands("int", port, interfaceOrder, interfaceIDs);
    ExecuteHead(db, bridge, port, kind, ofport);
    ExecuteThreeParts(db, head, p, i);
    if CanAdd(db, bridge, port) {
      ExecuteBoth(db, bridge, port, kind, portOrder, portIDs, interfaceOrder, interfaceIDs, ofport);
    }
  }

  lemma RestrictToOrder(ids: map<string, string>, order: seq<string>)
    requires IsOrder(order, ids.Keys)
    ensures Restrict(ids, order) == ids
  {
  }

  lemma ExecuteBoth(db: DB, bridge: string, port: string, kind: string,
                    portOrder: seq<string>, portIDs: map<string, string>,
                    interfaceOrder: seq<string>, interfaceIDs: map<string, string>, ofport: int)
    requires bridge in db.bridges && IsOrder(portOrder, portIDs.Keys) && IsOrder(interfaceOrder, interfaceIDs.Keys)
    requires forall k | k in portIDs || k in interfaceIDs :: Undelimited(k)
    ensures var d0 := WithPort(db, bridge, port, kind, map[], map[], ofport);
            var d1 := ExecuteAll(d0, IDCommands("port", port, portOrder, portIDs));
            d1.Some? && ExecuteAll(d1.value, IDCommands("int", port, interfaceOrder, interfaceIDs))
                        == Some(WithPort(db, bridge, port, kind, portIDs, interfaceIDs, ofport))
  {
    var d0 := WithPort(db, bridge, port, kind, map[], map[], ofport);
    ExecutePortIDs(d0, port, portOrder, portIDs);
    RestrictToOrder(portIDs, portOrder);
    var d1 := PutPortIDs(d0, port, portIDs);
    ExecuteInterfaceIDs(d1, port, interfaceOrder, interfaceIDs);
    RestrictToOrder(interfaceIDs, interfaceOrder);
    PutBoth(db, bridge, port, kind, portIDs, interfaceIDs, ofport);
  }

  lemma ExecuteThreeParts(db: DB, a: seq<seq<string>>, b: seq<seq<string>>, c: seq<seq<string>>)
    ensures ExecuteAll(db, a + b + c) ==
            (var d0 := ExecuteAll(db, a);
             if d0.None? then None
             else
               var d1 := ExecuteAll(d0.value, b);
               if d1.None? then None else ExecuteAll(d1.value, c))
  {
    ExecuteAppend(db, a, b);
    ExecuteAppend(db, a + b, c);
  }

  lemma PutBoth(db: DB, bridge: string, port: string, kind: string, portIDs: map<string, string>,
                interfaceIDs: map<string, string>, ofport: int)
    requires bridge in db.bridges
    ensures var d0 := WithPort(db, bridge, port, kind, map[], map[], ofport);
            PutInterfaceIDs(PutPortIDs(d0, port, portIDs), port, interfaceIDs)
            == WithPort(db, bridge, port, kind, portIDs, interfaceIDs, ofport)
  {
    assert map[] + portIDs == portIDs && map[] + interfaceIDs == interfaceIDs;
  }

  /** The arguments, word by word. */
  lemma ArgumentsLiterally(bridge: string, port: string, kind: string,
                           portOrder: seq<string>, portIDs: map<string, string>,
                           interfaceOrder: seq<string>, interfaceIDs: map<string, string>, ofport: int,
                           args: seq<string>)
    requires forall k | k in portOrder :: k in portIDs
    requires forall k | k in interfaceOrder :: k in interfaceIDs
    requires args + [SEPARATOR] ==
             Terminated(AddPortCommands(bridge, port, kind, portOrder, portIDs, interfaceOrder, interfaceIDs, ofport))
    ensures args + ["--"] ==
            ["add-port", bridge, port, "--", "set", "int", port, "type=" + kind, "--",
             "set", "int", port, "ofport_request=" + Itoa(ofport), "--"]
            + IDArguments("port", port, portOrder, portIDs) + IDArguments("int", port, interfaceOrder, interfaceIDs)
  {
    var head := HeadCommands(bridge, port, kind, ofport);
    var p, i := IDCommands("port", port, portOrder, portIDs), IDCommands("int", port, interfaceOrder, interfaceIDs);
    HeadWords(bridge, port, kind, ofport);
    TerminatedIDs(head, "port", port, portOrder, portIDs);
    TerminatedIDs(head + p, "int", port, interfaceOrder, interfaceIDs);
  }

  /** Five words for each identifier. */
  function IDArguments(table: string, name: string, order: seq<string>, ids: map<string, string>): seq<string>
    requires forall k | k in order :: k in ids
  {
    if order == [] then []
    else
      var front, k := order[..|order| - 1], order[|order| - 1];
      IDArguments(table, name, front, ids) + ["set", table, name, "external_ids:" + k + "=" + ids[k], "--"]
  }

  lemma HeadWords(bridge: string, port: string, kind: string, ofport: int)
    ensures Terminated(HeadCommands(bridge, port, kind, ofport)) ==
            ["add-port", bridge, port, "--", "set", "int", port, "type=" + kind, "--",
             "set", "int", port, "ofport_request=" + Itoa(ofport), "--"]
  {
    TerminatedHead(HeadCommands(bridge, port, kind, ofport));
    Words(bridge, port, "type=" + kind, "ofport_request=" + Itoa(ofport));
  }

  lemma Words(bridge: string, port: string, kind: string, ofport: string)
    ensures ["add-port", bridge, port] + ["--"] + ["set", "int", port, kind] + ["--"]
            + ["set", "int", port, ofport] + ["--"]
            == ["add-port", bridge, port, "--", "set", "int", port, kind, "--", "set", "int", port, ofport, "--"]
  {
  }

  lemma TerminatedHead(head: seq<seq<string>>)
    requires |head| == 3
    ensures Terminated(head) == head[0] + ["--"] + head[1] + ["--"] + head[2] + ["--"]
  {
    assert head[..2][..1] == head[..1] && head[..1][..0] == [];
    assert Terminated(head[..1]) == head[0] + [SEPARATOR];
    assert Terminated(head[..2]) == Terminated(head[..1]) + head[1] + [SEPARATOR];
    assert Terminated(head) == Terminated(head[..2]) + head[2] + [SEPARATOR];
  }

  lemma {:induction false} TerminatedIDs(commands: seq<seq<string>>, table: string, name: string, order: seq<string>,
                                         ids: map<string, string>)
    requires forall k | k in order :: k in ids
    ensures Terminated(commands + IDCommands(table, name, order, ids)) ==
              Terminated(commands) + IDArguments(table, name, order, ids)
  {
    if order == [] {
      assert commands + IDCommands(table, name, order, ids) == commands;
    } else {
      var front, k := order[..|order| - 1], order[|order| - 1];
      assert order == front + [k];
      TerminatedIDs(commands, table, name, front, ids);
      IDCommandsMore(commands, table, name, front, k, ids);
      TerminatedAppend(commands + IDCommands(table, name, front, ids), IDCommand(table, name, k, ids[k]));
      IDCommandLiterally(table, name, k, ids[k]);
    }
  }

  lemma IDCommandLiterally(table: string, name: string, k: string, v: string)
    ensures IDCommand(table, name, k, v) == ["set", table, name, "external_ids:" + k + "=" + v]
  {
    assert EXTERNAL_IDS + ":" == "external_ids:";
  }

  /** The separators cut the arguments into the intended commands exactly when neither name is itself
      a separator. */
  lemma AddPortCommandCount(bridge: string, port: string, kind: string,
                            portOrder: seq<string>, portIDs: map<string, string>,
                            interfaceOrder: seq<string>, interfaceIDs: map<string, string>, ofport: int,
                            args: seq<string>)
    requires IsOrder(portOrder, portIDs.Keys) && IsOrder(interfaceOrder, interfaceIDs.Keys)
    requires args + [SEPARATOR] ==
             Terminated(AddPortCommands(bridge, port, kind, portOrder, portIDs, interfaceOrder, interfaceIDs, ofport))
    ensures bridge != SEPARATOR && port != SEPARATOR ==>
              && SplitCommands(args) ==
                AddPortCommands(bridge, port, kind, portOrder, portIDs, interfaceOrder, interfaceIDs, ofport)
              && (forall i | 0 <= i < |SplitCommands(args)| :: SplitCommands(args)[i] != [])
    ensures |SplitCommands(args)| == 3 + |portIDs| + |interfaceIDs| <==> bridge != SEPARATOR && port != SEPARATOR
  {
    var commands := AddPortCommands(bridge, port, kind, portOrder, portIDs, interfaceOrder, interfaceIDs, ofport);
    OrderLength(portOrder, portIDs.Keys);
    OrderLength(interfaceOrder, interfaceIDs.Keys);
    if bridge != SEPARATOR && port != SEPARATOR {
      CommandsHaveNoSeparator(bridge, port, kind, portOrder, portIDs, interfaceOrder, interfaceIDs, ofport);
      SplitTerminated(commands, args);
    } else {
      SplitCount(args);
      CountAppend(args, [SEPARATOR]);
      assert SEPARATOR in commands[0];
      CountTerminated(commands);
    }
  }

  lemma CommandsHaveNoSeparator(bridge: string, port: string, kind: string,
                                portOrder: seq<string>, portIDs: map<string, string>,
                                interfaceOrder: seq<string>, interfaceIDs: map<string, string>, ofport: int)
    requires forall k | k in portOrder :: k in portIDs
    requires forall k | k in interfaceOrder :: k in interfaceIDs
    requires bridge != SEPARATOR && port != SEPARATOR
    ensures var commands :=
              AddPortCommands(bridge, port, kind, portOrder, portIDs, interfaceOrder, interfaceIDs, ofport);
            forall i | 0 <= i < |commands| :: SEPARATOR !in commands[i] && commands[i] != []
  {
    forall table, k, v ensures SEPARATOR !in IDCommand(table, port, k, v) || table == SEPARATOR {
      assert (EXTERNAL_IDS + ":" + k + "=" + v)[0] == 'e';
    }
    assert ("type=" + kind)[0] == 't' && ("ofport_request=" + Itoa(ofport))[0] == 'o';
  }

  lemma {:induction false} OrderLength(order: seq<string>, keys: set<string>)
    requires IsOrder(order, keys)
    ensures |order| == |keys|
  {
    if order == [] {
      assert keys == {} by {
        assert forall k | k in keys :: k in order;
      }
    } else {
      var front, last := order[..|order| - 1], order[|order| - 1];
      assert order == front + [last];
      assert last !in front;
      assert IsOrder(front, keys - {last});
      OrderLength(front, keys - {last});
    }
  }

  // ------------------------------------------------------------------------- the client

  /** The switch, reached through ovs-vsctl. Any invocation may report failure, without effect or after
      it took effect; such failures are counted, and refused transactions are not. */
  class Switch {
    var db: DB
    var faults: nat

    constructor (initial: DB)
      ensures db == initial && faults == 0
    {
      db, faults := initial, 0;
    }

    method Vsctl(args: seq<string>) returns (ok: bool)
      modifies this
      ensures ok ==> RunVsctl(old(db), args) == Some(db)
      ensures !ok ==> db == old(db) || RunVsctl(old(db), args) == Some(db)
      ensures !ok && RunVsctl(old(db), args).Some? ==> faults > old(faults)
    {
      var next := RunVsctl(db, args);
      if next.None? {
        return false;
      }
      ok := *;
      var lost: bool := *;
      if ok || lost {
        db := next.value;
      }
      faults := if ok then faults else faults + 1;
    }

    /** Adds a port in one transaction. Success means that the bridge existed, the port did not, and that
        it is there now: on its bridge, with exactly the given identifiers, type and ofport request, and
        nothing else changed. Failure means that it is there as asked or that nothing changed. */
    method AddPortWithMetadata(bridge: string, port: string, kind: string, portIDs: map<string, string>,
                               interfaceIDs: map<string, string>, ofport: int)
      returns (ok: bool)
      modifies this
      ensures PlainNames(bridge, port, portIDs, interfaceIDs) && (ok || db != old(db)) ==>
                && bridge in old(db).bridges && port !in old(db).ports && port !in old(db).interfaces
                && db == DB(old(db).bridges[bridge := old(db).bridges[bridge] + {port}],
                            old(db).ports[port := portIDs],
                            old(db).interfaces[port := Interface(kind, ofport, interfaceIDs)])
      ensures PlainNames(bridge, port, portIDs, interfaceIDs) && !ok ==>
                || faults > old(faults)
                || bridge !in old(db).bridges || port in old(db).ports || port in old(db).interfaces
    {
      var args, portOrder, interfaceOrder := AddPortArguments(bridge, port, kind, portIDs, interfaceIDs, ofport);
      ok := Vsctl(args);
      if PlainNames(bridge, port, portIDs, interfaceIDs) {
        AddPortCommandCount(bridge, port, kind, portOrder, portIDs, interfaceOrder, interfaceIDs, ofport, args);
        AddPortMeaning(old(db), bridge, port, kind, portOrder, portIDs, interfaceOrder, interfaceIDs, ofport);
      }
    }
  }
}
