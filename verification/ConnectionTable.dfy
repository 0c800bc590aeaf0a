/** The table of connections of the data-flow network, keyed by normalised pairs of ports. */
module ConnectionTable {
  import opened Runs

  datatype Port = Port(moduleId: int, name: string)

  // ----- the order of ports and keys

  /** operator< on port names: by code units, a proper prefix comes first. */
  predicate NameLess(s: string, t: string) {
    if t == "" then false else if s == "" then true
    else s[0] < t[0] || (s[0] == t[0] && NameLess(s[1..], t[1..]))
  }

  predicate PortLess(p: Port, q: Port) {
    if p.moduleId == q.moduleId then NameLess(p.name, q.name) else p.moduleId < q.moduleId
  }

  datatype Key = Key(port1: Port, port2: Port)

  /** The constructor of ConnectionKey swaps its ports into order. */
  function MakeKey(p: Port, q: Port): Key {
    if PortLess(q, p) then Key(q, p) else Key(p, q)
  }

  predicate KeyLess(k: Key, c: Key) {
    if k.port1 == c.port1 then PortLess(k.port2, c.port2) else PortLess(k.port1, c.port1)
  }

  lemma {:induction false} NamesOrdered(s: string, t: string)
    ensures !(NameLess(s, t) && NameLess(t, s))
    ensures !NameLess(s, t) && !NameLess(t, s) <==> s == t
  {
    if s != "" && t != "" {
      NamesOrdered(s[1..], t[1..]);
      assert s == [s[0]] + s[1..] && t == [t[0]] + t[1..];
    }
  }

  lemma {:induction false} NamesTransitive(s: string, t: string, u: string)
    requires NameLess(s, t) && NameLess(t, u)
    ensures NameLess(s, u)
  {
    if s != "" && s[0] == t[0] && t[0] == u[0] { NamesTransitive(s[1..], t[1..], u[1..]); }
  }

  /** The ports are in a strict order in which two of them are equal if neither comes first. */
  lemma PortsOrdered(p: Port, q: Port)
    ensures !(PortLess(p, q) && PortLess(q, p))
    ensures !PortLess(p, q) && !PortLess(q, p) <==> p == q
  {
    NamesOrdered(p.name, q.name);
  }

  lemma PortsTransitive(p: Port, q: Port, r: Port)
    requires PortLess(p, q) && PortLess(q, r)
    ensures PortLess(p, r)
  {
    if p.moduleId == q.moduleId == r.moduleId { NamesTransitive(p.name, q.name, r.name); }
  }

  /** The order of the keys is strict and total: two keys that are neither less nor greater are the same key. */
  lemma KeysOrdered(k: Key, c: Key, d: Key)
    ensures !(KeyLess(k, c) && KeyLess(c, k))
    ensures !KeyLess(k, c) && !KeyLess(c, k) <==> k == c
    ensures KeyLess(k, c) && KeyLess(c, d) ==> KeyLess(k, d)
  {
    PortsOrdered(k.port1, c.port1);
    PortsOrdered(k.port2, c.port2);
    PortsOrdered(c.port1, d.port1);
    PortsOrdered(k.port1, d.port1);
    if PortLess(k.port1, c.port1) && PortLess(c.port1, d.port1) { PortsTransitive(k.port1, c.port1, d.port1); }
    if PortLess(k.port2, c.port2) && PortLess(c.port2, d.port2) { PortsTransitive(k.port2, c.port2, d.port2); }
  }

  /** Two pairs of ports give the same key exactly if they are the same up to their order. */
  lemma SameKeyIff(p: Port, q: Port, p': Port, q': Port)
    ensures MakeKey(p, q) == MakeKey(p', q') <==> {p, q} == {p', q'}
  {
    PortsOrdered(p, q);
    PortsOrdered(p', q');
    if {p, q} == {p', q'} {
      assert p in {p', q'} && q in {p', q'} && p' in {p, q} && q' in {p, q};
    }
    if MakeKey(p, q) == MakeKey(p', q') {
      assert {p, q} == {MakeKey(p, q).port1, MakeKey(p, q).port2};
      assert {p', q'} == {MakeKey(p', q').port1, MakeKey(p', q').port2};
    }
  }

  // ----- the table

  datatype Status = ToEstablish | Established | ToRemove

  datatype Connection = Connection(source: Port, destination: Port, status: Status)

  type Table = map<Key, Connection>

  datatype Message = Connect(source: Port, destination: Port) | Disconnect(source: Port, destination: Port)

  /** m_connections, the ids in m_moduleList, the ports that the modules show (their m_vistleToGui), and the requests
      sent to the controller. */
  datatype Network = Network(table: Table, modules: seq<int>, ports: set<Port>, sent: seq<Message>)

  /** The connected pairs of ports, without order. */
  ghost function Pairs(t: Table): set<set<Port>> {
    set k | k in t :: {k.port1, k.port2}
  }

  ghost predicate TouchesModule(pair: set<Port>, id: int) {
    exists p :: p in pair && p.moduleId == id
  }

  ghost predicate Normal(t: Table) {
    forall k :: k in t ==> k == MakeKey(t[k].source, t[k].destination)
  }

  /** One entry for each connected pair. */
  lemma OneEntryPerPair(t: Table, k: Key, c: Key)
    requires Normal(t) && k in t && c in t && {k.port1, k.port2} == {c.port1, c.port2}
    ensures k == c
  {
    KeyOfPair(t, k);
    KeyOfPair(t, c);
    SameKeyIff(t[k].source, t[k].destination, t[c].source, t[c].destination);
  }

  lemma KeyOfPair(t: Table, k: Key)
    requires Normal(t) && k in t
    ensures {k.port1, k.port2} == {t[k].source, t[k].destination}
    ensures k == MakeKey(k.port1, k.port2)
  {
    PortsOrdered(k.port1, k.port2);
  }

  function Added(n: Network, p: Port, q: Port, toController: bool): Network {
    var key := MakeKey(p, q);
    var t := if key in n.table then n.table else
               n.table[key := Connection(p, q, if toController then ToEstablish else Established)];
    if toController then n.(table := t, sent := n.sent + [Connect(p, q)])
    else n.(table := t[key := t[key].(status := Established)])
  }

  function Removed(n: Network, p: Port, q: Port, toController: bool): Network {
    var key := MakeKey(p, q);
    if key !in n.table then n
    else if toController then
      n.(table := n.table[key := n.table[key].(status := ToRemove)], sent := n.sent + [Disconnect(p, q)])
    else n.(table := n.table - {key})
  }

  function Touching(t: Table, id: int): set<Key> {
    set k | k in t && (k.port1.moduleId == id || k.port2.moduleId == id)
  }

  function WithoutModule(modules: seq<int>, id: int): seq<int> {
    if modules == [] then [] else
      (if modules[0] == id then [] else [modules[0]]) + WithoutModule(modules[1..], id)
  }

  function DeletedModule(n: Network, id: int): Network {
    if id !in n.modules then n else
      n.(table := n.table - Touching(n.table, id), modules := WithoutModule(n.modules, id),
         ports := set p | p in n.ports && p.moduleId != id)
  }

  /** The entries that deletePort picks: it compares the name of the first port in both places. */
  function PickedForPort(t: Table, id: int, name: string): set<Key> {
    set k | k in t &&
            ((k.port1.moduleId == id && k.port1.name == name) || (k.port2.moduleId == id && k.port1.name == name))
  }

  /** The port itself goes only if the port tracker still knows it. */
  function DeletedPort(n: Network, id: int, name: string, known: bool): Network {
    if id !in n.modules then n else
      n.(table := n.table - PickedForPort(n.table, id, name),
         ports := if known then n.ports - {Port(id, name)} else n.ports)
  }

  // ----- what each operation does to the connected pairs

  lemma AddPairs(n: Network, p: Port, q: Port, toController: bool)
    requires Normal(n.table)
    ensures var n' := Added(n, p, q, toController);
            && Normal(n'.table) && Pairs(n'.table) == Pairs(n.table) + {{p, q}}
            && n.table.Keys <= n'.table.Keys && n'.modules == n.modules
            && forall k :: k in n.table && k != MakeKey(p, q) ==> n'.table[k] == n.table[k]
  {
    var n' := Added(n, p, q, toController);
    var key := MakeKey(p, q);
    assert {key.port1, key.port2} == {p, q};
    if key in n.table { KeyOfPair(n.table, key); }
    forall pair | pair in Pairs(n.table) + {{p, q}}
      ensures pair in Pairs(n'.table)
    {
      if pair == {p, q} { assert key in n'.table; } else {
        var k :| k in n.table && pair == {k.port1, k.port2};
        assert k in n'.table;
      }
    }
  }

  /** A removal asked for by the user only marks the entry; one confirmed by the controller takes out that pair. */
  lemma RemovePairs(n: Network, p: Port, q: Port, toController: bool)
    requires Normal(n.table)
    ensures var n' := Removed(n, p, q, toController);
            && Normal(n'.table)
            && Pairs(n'.table) == (if toController then Pairs(n.table) else Pairs(n.table) - {{p, q}})
            && (toController ==> n'.table.Keys == n.table.Keys) && n'.modules == n.modules
            && forall k :: k in n'.table && k != MakeKey(p, q) ==> k in n.table && n'.table[k] == n.table[k]
  {
    var n' := Removed(n, p, q, toController);
    var key := MakeKey(p, q);
    assert {key.port1, key.port2} == {p, q};
    if toController {
      assert n'.table.Keys == n.table.Keys;
      assert Pairs(n'.table) == Pairs(n.table);
    } else {
      forall pair
        ensures pair in Pairs(n'.table) <==> pair in Pairs(n.table) && pair != {p, q}
      {
        if k :| k in n'.table && pair == {k.port1, k.port2} {
          KeyOfPair(n.table, k);
          SameKeyIff(k.port1, k.port2, p, q);
        }
        if k :| k in n.table && pair == {k.port1, k.port2} && pair != {p, q} { assert k in n'.table; }
      }
    }
  }

  /** Deleting a module takes out exactly the pairs with a port of that module. */
  lemma DeleteModulePairs(n: Network, id: int)
    requires Normal(n.table) && id in n.modules
    ensures var n' := DeletedModule(n, id);
            && Normal(n'.table)
            && Pairs(n'.table) == (set pair | pair in Pairs(n.table) && !TouchesModule(pair, id))
            && (forall k :: k in n'.table ==> k in n.table && n'.table[k] == n.table[k])
            && forall m :: m in n'.modules <==> m in n.modules && m != id
  {
    var n' := DeletedModule(n, id);
    WithoutModuleIs(n.modules, id);
    forall pair
      ensures pair in Pairs(n'.table) <==> pair in Pairs(n.table) && !TouchesModule(pair, id)
    {
      if k :| k in n'.table && pair == {k.port1, k.port2} { assert k in n.table && !TouchesModule(pair, id); }
      if k :| k in n.table && pair == {k.port1, k.port2} && !TouchesModule(pair, id) {
        assert k.port1 in pair && k.port2 in pair;
        assert k in n'.table;
      }
    }
  }

  lemma {:induction false} WithoutModuleIs(modules: seq<int>, id: int)
    ensures forall m :: m in WithoutModule(modules, id) <==> m in modules && m != id
  {
    if modules == [] {
    } else {
      WithoutModuleIs(modules[1..], id);
      assert forall m :: m in modules <==> m == modules[0] || m in modules[1..];
    }
  }

  /** A new connection has the ends that were asked for, and waits to be established if the user asked for it; one that
      is there keeps its ends. A request is sent to the controller, a confirmation establishes the connection. */
  lemma AddResult(n: Network, p: Port, q: Port, toController: bool)
    ensures var n', key := Added(n, p, q, toController), MakeKey(p, q);
            && key in n'.table && n'.table - {key} == n.table - {key} && n'.modules == n.modules && n'.ports == n.ports
            && n'.sent == (if toController then n.sent + [Connect(p, q)] else n.sent)
            && (key !in n.table ==>
                  n'.table[key] == Connection(p, q, if toController then ToEstablish else Established))
            && (key in n.table ==>
                  n'.table[key] == n.table[key].(status := if toController then n.table[key].status else Established))
  {
    var key := MakeKey(p, q);
    if key in n.table { assert n.table[key].(status := n.table[key].status) == n.table[key]; }
  }

  /** A removal of a connection that is there: asked for by the user, it is marked and a request is sent; confirmed, it
      is gone. There is nothing to do for one that is not there. */
  lemma RemoveResult(n: Network, p: Port, q: Port, toController: bool)
    ensures var n', key := Removed(n, p, q, toController), MakeKey(p, q);
            && n'.table - {key} == n.table - {key} && n'.modules == n.modules && n'.ports == n.ports
            && (key !in n.table ==> n' == n)
            && (key in n.table && toController ==>
                  key in n'.table && n'.table[key] == n.table[key].(status := ToRemove) &&
                  n'.sent == n.sent + [Disconnect(p, q)])
            && (key in n.table && !toController ==> key !in n'.table && n'.sent == n.sent)
  {}

  /** A request and its confirmation, which may name the ports in either order: the connection is there, established,
      with the ends of the request unless it was there before, and one message was sent. */
  lemma ConnectThenConfirm(n: Network, p: Port, q: Port)
    ensures var n' := Added(Added(n, p, q, true), q, p, false);
            var key := MakeKey(p, q);
            && key in n'.table && n'.table[key].status == Established && n'.sent == n.sent + [Connect(p, q)]
            && (key !in n.table ==> n'.table[key] == Connection(p, q, Established))
            && n'.table - {key} == n.table - {key}
  {
    PortsOrdered(p, q);
  }

  /** The same for a removal: until it is confirmed the entry stays, marked; then it is gone. */
  lemma DisconnectThenConfirm(n: Network, p: Port, q: Port)
    requires MakeKey(p, q) in n.table
    ensures var key := MakeKey(p, q);
            var n1 := Removed(n, p, q, true);
            var n2 := Removed(n1, q, p, false);
            && key in n1.table && n1.table[key] == n.table[key].(status := ToRemove)
            && n2.table == n.table - {key} && n2.sent == n.sent + [Disconnect(p, q)]
  {
    PortsOrdered(p, q);
  }

  // ----- deletePort

  ghost predicate TouchesPort(k: Key, p: Port) {
    k.port1 == p || k.port2 == p
  }

  /** The other ends have the right names: where the second end of a connection is on the module (and the first is
      not the port itself), the first end is named like the port exactly if the second end is. */
  predicate NamesAlike(t: Table, id: int, name: string) {
    forall k :: k in t && k.port2.moduleId == id && k.port1 != Port(id, name) ==>
      (k.port1.name == name <==> k.port2.name == name)
  }

  /** deletePort takes out exactly the connections of the port if and only if the names happen to be alike. */
  lemma DeletePortIff(n: Network, id: int, name: string, known: bool)
    requires id in n.modules
    ensures (DeletedPort(n, id, name, known).table.Keys == set k | k in n.table && !TouchesPort(k, Port(id, name))) <==>
            NamesAlike(n.table, id, name)
  {
    var t := DeletedPort(n, id, name, known).table;
    var wanted := set k | k in n.table && !TouchesPort(k, Port(id, name));
    if t.Keys == wanted {
      forall k | k in n.table && k.port2.moduleId == id && k.port1 != Port(id, name)
        ensures k.port1.name == name <==> k.port2.name == name
      {
        assert k in t.Keys <==> k in wanted;
      }
    }
    if NamesAlike(n.table, id, name) {
      forall k | k in n.table
        ensures k in t <==> k in wanted
      {
      }
      assert t.Keys == wanted;
    }
  }

  /** A connection from data_out of module 1 to data_in of module 2 survives the deletion of data_in. */
  lemma DeletePortExample()
    ensures var p, q := Port(1, "data_out"), Port(2, "data_in");
            var n := Network(map[MakeKey(p, q) := Connection(p, q, Established)], [1, 2], {p, q}, []);
            Attached(n) && MakeKey(p, q) in DeletedPort(n, 2, "data_in", true).table &&
            !Attached(DeletedPort(n, 2, "data_in", true))
  {
    var p, q := Port(1, "data_out"), Port(2, "data_in");
    var n := Network(map[MakeKey(p, q) := Connection(p, q, Established)], [1, 2], {p, q}, []);
    assert MakeKey(p, q) == Key(p, q);
    assert Key(p, q) in DeletedPort(n, 2, "data_in", true).table;
    assert q !in DeletedPort(n, 2, "data_in", true).ports;
  }

  // ----- runs

  datatype Event =
    | NewModule(id: int)
    | NewPortEvent(p: Port)
    | AddEvent(p: Port, q: Port, toController: bool)
    | RemoveEvent(p: Port, q: Port, toController: bool)
    | DeleteModuleEvent(id: int)
    | DeletePortEvent(id: int, name: string, known: bool)

  /** Connections are made and removed between ports that are shown. */
  function Step(n: Network, e: Event): Network {
    match e
    case NewModule(id) => n.(modules := n.modules + [id])
    case NewPortEvent(p) => if p.moduleId in n.modules then n.(ports := n.ports + {p}) else n
    case AddEvent(p, q, c) => if p in n.ports && q in n.ports then Added(n, p, q, c) else n
    case RemoveEvent(p, q, c) => if p in n.ports && q in n.ports then Removed(n, p, q, c) else n
    case DeleteModuleEvent(id) => DeletedModule(n, id)
    case DeletePortEvent(id, name, known) => DeletedPort(n, id, name, known)
  }

  const START := Network(map[], [], {}, [])

  lemma StepNormal(n: Network, e: Event)
    requires Normal(n.table)
    ensures Normal(Step(n, e).table)
  {
    match e
    case NewModule(_) =>
    case NewPortEvent(_) =>
    case AddEvent(p, q, c) => AddPairs(n, p, q, c);
    case RemoveEvent(p, q, c) => RemovePairs(n, p, q, c);
    case DeleteModuleEvent(id) =>
    case DeletePortEvent(_, _, _) =>
  }

  /** What becomes of modules and of the ports that are shown. */
  lemma ShownAfter(n: Network, e: Event)
    ensures var n' := Step(n, e);
            match e
            case NewModule(id) => n' == n.(modules := n.modules + [id])
            case NewPortEvent(p) => n' == n.(ports := n'.ports) &&
              (forall q :: q in n'.ports <==> q in n.ports || (q == p && p.moduleId in n.modules))
            case DeleteModuleEvent(id) => id in n.modules ==>
              (forall q :: q in n'.ports <==> q in n.ports && q.moduleId != id) && id !in n'.modules
            case DeletePortEvent(id, name, known) => n'.modules == n.modules && forall q :: q in n'.ports <==>
              q in n.ports && !(known && id in n.modules && q == Port(id, name))
            case _ => n'.ports == n.ports && n'.modules == n.modules
  {
    match e
    case DeleteModuleEvent(id) => WithoutModuleIs(n.modules, id);
    case _ =>
  }

  /** Between two ports that are shown, a connection is made and unmade as it was asked for; if one of them is not
      shown, nothing happens. */
  lemma ConnectsShown(n: Network, p: Port, q: Port, toController: bool)
    requires Normal(n.table)
    ensures if p in n.ports && q in n.ports then
              && Pairs(Step(n, AddEvent(p, q, toController)).table) == Pairs(n.table) + {{p, q}}
              && Pairs(Step(n, RemoveEvent(p, q, false)).table) == Pairs(n.table) - {{p, q}}
            else
              Step(n, AddEvent(p, q, toController)) == n && Step(n, RemoveEvent(p, q, toController)) == n
  {
    AddPairs(n, p, q, toController);
    RemovePairs(n, p, q, false);
  }

  /** After any run of requests and confirmations the table has at most one entry for every pair of ports. */
  lemma RunNormal(events: seq<Event>, k: Key, c: Key)
    ensures var t := Run((n, e) => Step(n, e), START, events).table;
            Normal(t) && (k in t && c in t && {k.port1, k.port2} == {c.port1, c.port2} ==> k == c)
  {
    var step := (n: Network, e: Event) => Step(n, e);
    var any := (n: Network, e: Event) => true;
    forall n: Network, e: Event | Normal(n.table)
      ensures Normal(step(n, e).table)
    {
      StepNormal(n, e);
    }
    AllAllowed(any, step, START, events);
    RunKeeps((n: Network) => Normal(n.table), any, step, START, events);
    var t := Run(step, START, events).table;
    if k in t && c in t && {k.port1, k.port2} == {c.port1, c.port2} { OneEntryPerPair(t, k, c); }
  }

  // ----- ends that are still there

  /** Both ends of every connection are ports that are shown, and every port that is shown belongs to a module. */
  ghost predicate Attached(n: Network) {
    && (forall k :: k in n.table ==> k.port1 in n.ports && k.port2 in n.ports)
    && (forall p :: p in n.ports ==> p.moduleId in n.modules)
  }

  /** A port goes while it is the second end of a connection from a port with another name. */
  ghost predicate LeavesLooseEnd(n: Network, e: Event) {
    e.DeletePortEvent? && e.id in n.modules && e.known &&
    exists k :: k in n.table && k.port2 == Port(e.id, e.name) && k.port1.name != e.name
  }

  lemma DeletePortAttachedIff(n: Network, id: int, name: string, known: bool)
    requires Attached(n)
    ensures Attached(DeletedPort(n, id, name, known)) <==> !LeavesLooseEnd(n, DeletePortEvent(id, name, known))
  {
    var n', p := DeletedPort(n, id, name, known), Port(id, name);
    if id in n.modules && known {
      forall k | k in n'.table
        ensures (k.port1 in n'.ports && k.port2 in n'.ports) <==> !(k.port2 == p && k.port1.name != name)
      {
        assert k in n.table && k !in PickedForPort(n.table, id, name);
      }
      forall k | k in n.table && k.port2 == p && k.port1.name != name
        ensures k in n'.table
      {
        assert k !in PickedForPort(n.table, id, name);
      }
    } else {
      assert forall k :: k in n'.table ==> k in n.table;
    }
  }

  lemma StepAttachedIff(n: Network, e: Event)
    requires Attached(n)
    ensures Attached(Step(n, e)) <==> !LeavesLooseEnd(n, e)
  {
    match e
    case NewModule(_) =>
    case NewPortEvent(_) =>
    case AddEvent(p, q, c) =>
      var n' := Step(n, e);
      assert forall k :: k in n'.table ==> k in n.table || (k == MakeKey(p, q) && p in n.ports && q in n.ports);
    case RemoveEvent(p, q, c) =>
      var n' := Step(n, e);
      assert forall k :: k in n'.table ==> k in n.table;
    case DeleteModuleEvent(id) => WithoutModuleIs(n.modules, id);
    case DeletePortEvent(id, name, known) => DeletePortAttachedIff(n, id, name, known);
  }

  /** In every run from the empty network, no connection ever has an end that is gone if and only if no port goes
      while it is the second end of a connection from a port with another name. */
  lemma RunAttachedIff(events: seq<Event>)
    ensures Throughout(n => Attached(n), (n, e) => Step(n, e), START, events) <==>
            Allowed((n, e) => !LeavesLooseEnd(n, e), (n, e) => Step(n, e), START, events)
  {
    var step := (n: Network, e: Event) => Step(n, e);
    var good := (n: Network, e: Event) => !LeavesLooseEnd(n, e);
    var any := (n: Network, e: Event) => true;
    var inv := (n: Network) => Attached(n);
    forall n: Network, e: Event | inv(n)
      ensures inv(step(n, e)) <==> good(n, e)
    {
      StepAttachedIff(n, e);
    }
    AllAllowed(any, step, START, events);
    ThroughoutIff(inv, inv, any, good, step, START, events);
  }

  ghost function KeySet(keys: seq<Key>): set<Key> {
    set k | k in keys
  }

  // ----- the methods

  class DataFlowNetwork {
    var m_connections: Table
    var m_moduleList: seq<int>
    var guiPorts: set<Port>
    var sent: seq<Message>

    ghost function St(): Network
      reads this
    {
      Network(m_connections, m_moduleList, guiPorts, sent)
    }

    /** A missing port (no graphical representation) is an empty sequence. */
    method AddConnection(from: seq<Port>, to: seq<Port>, toController: bool)
      requires |from| <= 1 && |to| <= 1
      modifies this`m_connections, this`sent
      ensures St() == if from == [] || to == [] then old(St()) else Added(old(St()), from[0], to[0], toController)
    {
      if from == [] {
        return;
      }
      if to == [] {
        return;
      }
      var key := MakeKey(from[0], to[0]);
      if key !in m_connections {
        m_connections :=
          m_connections[key := Connection(from[0], to[0], if toController then ToEstablish else Established)];
      }
      if toController {
        sent := sent + [Connect(from[0], to[0])];
      } else {
        m_connections := m_connections[key := m_connections[key].(status := Established)];
      }
    }

    method RemoveConnection(from: seq<Port>, to: seq<Port>, toController: bool)
      requires |from| <= 1 && |to| <= 1
      modifies this`m_connections, this`sent
      ensures St() == if from == [] || to == [] then old(St()) else Removed(old(St()), from[0], to[0], toController)
    {
      if from == [] {
        return;
      }
      if to == [] {
        return;
      }
      var key := MakeKey(from[0], to[0]);
      if key !in m_connections {
        return;
      }
      if toController {
        m_connections := m_connections[key := m_connections[key].(status := ToRemove)];
        sent := sent + [Disconnect(from[0], to[0])];
      } else {
        m_connections := m_connections - {key};
      }
    }

    /** The second loop of deleteModule and deletePort: the collected entries are removed one by one. */
    method RemoveAll(keys: seq<Key>)
      requires forall i :: 0 <= i < |keys| ==> keys[i] == MakeKey(keys[i].port1, keys[i].port2)
      modifies this`m_connections, this`sent
      ensures m_connections == old(m_connections) - KeySet(keys) && sent == old(sent)
    {
      for i := 0 to |keys|
        invariant m_connections == old(m_connections) - KeySet(keys[..i]) && sent == old(sent)
      {
        assert KeySet(keys[..i + 1]) == KeySet(keys[..i]) + {keys[i]};
        RemoveConnection([keys[i].port1], [keys[i].port2], false);
      }
      assert keys[..|keys|] == keys;
    }

    method DeleteModule(id: int)
      requires Normal(m_connections)
      modifies this
      ensures St() == DeletedModule(old(St()), id)
    {
      if id !in m_moduleList {
        return;
      }
      var picked := Collect((k: Key) => k.port1.moduleId == id || k.port2.moduleId == id);
      RemoveAll(picked);
      m_moduleList := WithoutModule(m_moduleList, id);
      guiPorts := set p | p in guiPorts && p.moduleId != id;
    }

    method DeletePort(id: int, name: string, known: bool)
      requires Normal(m_connections)
      modifies this
      ensures St() == DeletedPort(old(St()), id, name, known)
    {
      if id !in m_moduleList {
        return;
      }
      var picked := Collect((k: Key) => (k.port1.moduleId == id && k.port1.name == name) ||
                                        (k.port2.moduleId == id && k.port1.name == name));
      RemoveAll(picked);
      RemovePort(Port(id, name), known);
    }

    /** removePort of the module. */
    method RemovePort(port: Port, known: bool)
      modifies this`guiPorts
      ensures guiPorts == if known then old(guiPorts) - {port} else old(guiPorts)
    {
      if port !in guiPorts {
        return;
      }
      if !known {
        return;
      }
      guiPorts := guiPorts - {port};
    }

    method NewPort(port: Port)
      modifies this`guiPorts
      ensures St() == Step(old(St()), NewPortEvent(port))
    {
      if port.moduleId in m_moduleList {
        guiPorts := guiPorts + {port};
      }
    }

    /** getGuiPort of the module. */
    method GuiPort(port: Port) returns (found: seq<Port>)
      ensures found == if port in guiPorts then [port] else []
    {
      found := if port in guiPorts then [port] else [];
    }

    /** A confirmation of the controller; `known` says whether the port tracker has both ports. */
    method NewConnection(from: Port, to: Port, known: bool)
      modifies this`m_connections, this`sent
      ensures St() == if known && from.moduleId in m_moduleList && to.moduleId in m_moduleList
                      then Step(old(St()), AddEvent(from, to, false)) else old(St())
    {
      if from.moduleId in m_moduleList && to.moduleId in m_moduleList && known {
        var guiFrom := GuiPort(from);
        var guiTo := GuiPort(to);
        AddConnection(guiFrom, guiTo, false);
      }
    }

    method DeleteConnection(from: Port, to: Port, known: bool)
      modifies this`m_connections, this`sent
      ensures St() == if known && from.moduleId in m_moduleList && to.moduleId in m_moduleList
                      then Step(old(St()), RemoveEvent(from, to, false)) else old(St())
    {
      if from.moduleId in m_moduleList && to.moduleId in m_moduleList && known {
        var guiFrom := GuiPort(from);
        var guiTo := GuiPort(to);
        RemoveConnection(guiFrom, guiTo, false);
      }
    }

    /** The first loop of deleteModule and deletePort. */
    method Collect(pick: Key -> bool) returns (keys: seq<Key>)
      requires Normal(m_connections)
      ensures forall k :: k in keys <==> k in m_connections && pick(k)
      ensures forall k :: k in keys ==> k == MakeKey(k.port1, k.port2)
    {
      keys := [];
      var rest := m_connections.Keys;
      while rest != {}
        invariant rest <= m_connections.Keys
        invariant forall k :: k in keys <==> k in m_connections && k !in rest && pick(k)
        decreases |rest|
      {
        var k :| k in rest;
        if pick(k) {
          keys := keys + [k];
        }
        rest := rest - {k};
      }
      forall k | k in keys
        ensures k == MakeKey(k.port1, k.port2)
      {
        KeyOfPair(m_connections, k);
      }
    }
  }
}
