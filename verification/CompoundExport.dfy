/** DataFlowNetwork::createModuleCompound: the selected modules and their connections as a module compound. */
module CompoundExport {
  import opened Sorting

  datatype Port = Port(moduleId: int, name: string)

  datatype Module = Module(id: int, name: string, hub: int, x: real, y: real)

  datatype SubModule = SubModule(name: string, x: real, y: real)

  /** An entry of the compound; -1 stands for a module outside. */
  datatype Record = Record(fromId: int, toId: int, fromPort: string, toPort: string)

  datatype Compound = Compound(submodules: seq<SubModule>, connections: seq<Record>)

  datatype Option<T> = None | Some(value: T)

  /** The port tracker: the connected output and input ports of a module, and the ports a port is connected to. */
  datatype Tracker = Tracker(outputs: int -> seq<Port>, inputs: int -> seq<Port>, connections: Port -> seq<Port>)

  datatype Edge = Edge(from: Port, to: Port)

  ghost predicate NoDup<T>(s: seq<T>) {
    forall i, j :: 0 <= i < j < |s| ==> s[i] != s[j]
  }

  /** The connections of the network. */
  ghost predicate IsEdge(t: Tracker, e: Edge) {
    e.from in t.outputs(e.from.moduleId) && e.to in t.connections(e.from)
  }

  /** The tracker keeps both ends of every connection, and lists every port and every connection once. */
  ghost predicate Symmetric(t: Tracker) {
    && (forall id :: NoDup(t.outputs(id)) && NoDup(t.inputs(id)))
    && (forall id, p :: p in t.outputs(id) ==> p.moduleId == id)
    && (forall id, p :: p in t.inputs(id) ==> p.moduleId == id)
    && (forall p :: NoDup(t.connections(p)))
    && (forall p: Port, q: Port :: p in t.outputs(p.moduleId) && q in t.connections(p) ==>
          q in t.inputs(q.moduleId) && p in t.connections(q))
    && (forall p: Port, q: Port :: q in t.inputs(q.moduleId) && p in t.connections(q) ==>
          p in t.outputs(p.moduleId) && q in t.connections(p))
  }

  // ----- what is exported

  predicate Selected(sel: seq<Module>, id: int) {
    exists m :: m in sel && m.id == id
  }

  /** The position of a module in the sorted selection, or -1. */
  function Position(sel: seq<Module>, id: int): (k: int)
    ensures -1 <= k < |sel|
    ensures if Selected(sel, id) then k >= 0 && sel[k].id == id else k == -1
  {
    if sel == [] then -1
    else if sel[0].id == id then 0
    else
      var k := Position(sel[1..], id);
      assert Selected(sel[1..], id) <==> Selected(sel, id);
      if k == -1 then -1 else k + 1
  }

  function Render(sel: seq<Module>, e: Edge): Record {
    Record(Position(sel, e.from.moduleId), Position(sel, e.to.moduleId), e.from.name, e.to.name)
  }

  function Rendered(sel: seq<Module>, es: seq<Edge>): (rs: seq<Record>)
    ensures |rs| == |es| && forall k :: 0 <= k < |es| ==> rs[k] == Render(sel, es[k])
  {
    seq(|es|, k requires 0 <= k < |es| => Render(sel, es[k]))
  }

  /** k is the place of the module with the id, or -1 if none of them has it. */
  ghost predicate PlaceOrOutside(sel: seq<Module>, id: int, k: int) {
    if 0 <= k < |sel| then sel[k].id == id else k == -1 && forall m :: m in sel ==> m.id != id
  }

  /** The entry has the names of the two ports and the places of their modules. */
  ghost predicate Describes(sel: seq<Module>, r: Record, e: Edge) {
    && r.fromPort == e.from.name && r.toPort == e.to.name
    && PlaceOrOutside(sel, e.from.moduleId, r.fromId) && PlaceOrOutside(sel, e.to.moduleId, r.toId)
  }

  ghost predicate DescribeAll(sel: seq<Module>, rs: seq<Record>, es: seq<Edge>) {
    |rs| == |es| && forall k :: 0 <= k < |es| ==> Describes(sel, rs[k], es[k])
  }

  lemma RecordDescribes(sel: seq<Module>, e: Edge)
    ensures Describes(sel, Render(sel, e), e)
  {}

  /** The entries made for connections say what the connections are. */
  lemma RecordsDescribe(sel: seq<Module>, es: seq<Edge>)
    ensures DescribeAll(sel, Rendered(sel, es), es)
  {
    forall k | 0 <= k < |es|
      ensures Describes(sel, Rendered(sel, es)[k], es[k])
    {
      RecordDescribes(sel, es[k]);
    }
  }

  /** The connections that leave output p, the first n of them. */
  function OutOf(t: Tracker, p: Port, n: nat): (es: seq<Edge>)
    requires n <= |t.connections(p)|
    ensures |es| == n && forall k :: 0 <= k < n ==> es[k] == Edge(p, t.connections(p)[k])
  {
    seq(n, k requires 0 <= k < n => Edge(p, t.connections(p)[k]))
  }

  function OutEdges(t: Tracker, ps: seq<Port>): seq<Edge> {
    if ps == [] then [] else
      var k := |ps| - 1;
      OutEdges(t, ps[..k]) + OutOf(t, ps[k], |t.connections(ps[k])|)
  }

  /** The connections that reach input q from outside the selection, among the given sources. */
  function InOf(sel: seq<Module>, q: Port, sources: seq<Port>): seq<Edge> {
    if sources == [] then [] else
      var k := |sources| - 1;
      InOf(sel, q, sources[..k]) +
      (if Position(sel, sources[k].moduleId) == -1 then [Edge(sources[k], q)] else [])
  }

  function InEdges(t: Tracker, sel: seq<Module>, qs: seq<Port>): seq<Edge> {
    if qs == [] then [] else
      var k := |qs| - 1;
      InEdges(t, sel, qs[..k]) + InOf(sel, qs[k], t.connections(qs[k]))
  }

  /** The connections exported for the first n modules of the selection. */
  function EdgesOf(t: Tracker, sel: seq<Module>, n: nat): seq<Edge>
    requires n <= |sel|
  {
    if n == 0 then [] else
      EdgesOf(t, sel, n - 1) + OutEdges(t, t.outputs(sel[n - 1].id)) + InEdges(t, sel, t.inputs(sel[n - 1].id))
  }

  // ----- each once, none missing

  lemma AppendNoDup<T>(a: seq<T>, b: seq<T>)
    requires NoDup(a) && NoDup(b) && forall x :: x in a ==> x !in b
    ensures NoDup(a + b)
  {
    forall i, j | 0 <= i < j < |a + b|
      ensures (a + b)[i] != (a + b)[j]
    {
      if i < |a| && |a| <= j { assert a[i] in a && b[j - |a|] in b; }
    }
  }

  lemma {:induction false} OutEdgesAre(t: Tracker, ps: seq<Port>)
    requires NoDup(ps) && forall p :: NoDup(t.connections(p))
    ensures NoDup(OutEdges(t, ps))
    ensures forall e :: e in OutEdges(t, ps) <==> e.from in ps && e.to in t.connections(e.from)
  {
    if ps == [] {
    } else {
      var k := |ps| - 1;
      OutEdgesAre(t, ps[..k]);
      var last := OutOf(t, ps[k], |t.connections(ps[k])|);
      assert forall p :: p in ps <==> p in ps[..k] || p == ps[k];
      assert ps[k] !in ps[..k];
      forall e
        ensures e in last <==> e.from == ps[k] && e.to in t.connections(ps[k])
      {
        if e.from == ps[k] && e.to in t.connections(ps[k]) {
          var j :| 0 <= j < |t.connections(ps[k])| && t.connections(ps[k])[j] == e.to;
          assert last[j] == e;
        }
      }
      AppendNoDup(OutEdges(t, ps[..k]), last);
    }
  }

  lemma {:induction false} InOfAre(sel: seq<Module>, q: Port, sources: seq<Port>)
    requires NoDup(sources)
    ensures NoDup(InOf(sel, q, sources))
    ensures forall e :: e in InOf(sel, q, sources) <==>
              e.to == q && e.from in sources && !Selected(sel, e.from.moduleId)
  {
    if sources == [] {
    } else {
      var k := |sources| - 1;
      InOfAre(sel, q, sources[..k]);
      assert forall p :: p in sources <==> p in sources[..k] || p == sources[k];
      assert sources[k] !in sources[..k];
      AppendNoDup(InOf(sel, q, sources[..k]),
                  if Position(sel, sources[k].moduleId) == -1 then [Edge(sources[k], q)] else []);
    }
  }

  lemma {:induction false} InEdgesAre(t: Tracker, sel: seq<Module>, qs: seq<Port>)
    requires NoDup(qs) && forall p :: NoDup(t.connections(p))
    ensures NoDup(InEdges(t, sel, qs))
    ensures forall e :: e in InEdges(t, sel, qs) <==>
              e.to in qs && e.from in t.connections(e.to) && !Selected(sel, e.from.moduleId)
  {
    if qs == [] {
    } else {
      var k := |qs| - 1;
      InEdgesAre(t, sel, qs[..k]);
      InOfAre(sel, qs[k], t.connections(qs[k]));
      assert forall p :: p in qs <==> p in qs[..k] || p == qs[k];
      assert qs[k] !in qs[..k];
      AppendNoDup(InEdges(t, sel, qs[..k]), InOf(sel, qs[k], t.connections(qs[k])));
    }
  }

  /** The connection belongs to one of the first n modules: it starts there, or it ends there and starts outside. */
  ghost predicate Belongs(sel: seq<Module>, n: nat, e: Edge)
    requires n <= |sel|
  {
    Selected(sel[..n], e.from.moduleId) || (!Selected(sel, e.from.moduleId) && Selected(sel[..n], e.to.moduleId))
  }

  ghost predicate DistinctIds(sel: seq<Module>) {
    forall i, j :: 0 <= i < j < |sel| ==> sel[i].id != sel[j].id
  }

  lemma SelectedOneMore(sel: seq<Module>, n: nat, id: int)
    requires n < |sel|
    ensures Selected(sel[..n + 1], id) <==> Selected(sel[..n], id) || sel[n].id == id
    ensures DistinctIds(sel) && sel[n].id == id ==> !Selected(sel[..n], id)
    ensures Selected(sel[..n], id) ==> Selected(sel, id)
  {
    assert sel[..n + 1] == sel[..n] + [sel[n]];
  }

  /** es are the connections that belong to the first n modules, each once. */
  ghost predicate AreEdges(t: Tracker, sel: seq<Module>, n: nat, es: seq<Edge>)
    requires n <= |sel|
  {
    NoDup(es) && forall e :: e in es <==> IsEdge(t, e) && Belongs(sel, n, e)
  }

  lemma {:induction false} EdgesAre(t: Tracker, sel: seq<Module>, n: nat)
    requires Symmetric(t) && DistinctIds(sel) && n <= |sel|
    ensures AreEdges(t, sel, n, EdgesOf(t, sel, n))
  {
    if n == 0 {
    } else {
      EdgesAre(t, sel, n - 1);
      NextEdges(t, sel, n, EdgesOf(t, sel, n - 1));
    }
  }

  lemma NextEdges(t: Tracker, sel: seq<Module>, n: nat, es: seq<Edge>)
    requires Symmetric(t) && DistinctIds(sel) && 0 < n <= |sel| && AreEdges(t, sel, n - 1, es)
    ensures var id := sel[n - 1].id;
            AreEdges(t, sel, n, es + OutEdges(t, t.outputs(id)) + InEdges(t, sel, t.inputs(id)))
  {
    var id := sel[n - 1].id;
    OwnEdges(t, sel, id);
    JoinEdges(t, sel, n, es, OutEdges(t, t.outputs(id)), InEdges(t, sel, t.inputs(id)));
  }

  lemma OwnEdges(t: Tracker, sel: seq<Module>, id: int)
    requires Symmetric(t)
    ensures var outs := OutEdges(t, t.outputs(id));
            NoDup(outs) && forall e :: e in outs <==> e.from in t.outputs(id) && e.to in t.connections(e.from)
    ensures var ins := InEdges(t, sel, t.inputs(id));
            NoDup(ins) && forall e :: e in ins <==>
              e.to in t.inputs(id) && e.from in t.connections(e.to) && !Selected(sel, e.from.moduleId)
  {
    OutEdgesAre(t, t.outputs(id));
    InEdgesAre(t, sel, t.inputs(id));
  }

  /** The connections of the modules in front, and what module n - 1 adds. */
  lemma JoinEdges(t: Tracker, sel: seq<Module>, n: nat, es: seq<Edge>, outs: seq<Edge>, ins: seq<Edge>)
    requires Symmetric(t) && DistinctIds(sel) && 0 < n <= |sel| && NoDup(outs) && NoDup(ins)
    requires AreEdges(t, sel, n - 1, es)
    requires forall e :: e in outs <==> e.from in t.outputs(sel[n - 1].id) && e.to in t.connections(e.from)
    requires forall e :: e in ins <==> e.to in t.inputs(sel[n - 1].id) && e.from in t.connections(e.to) &&
                                       !Selected(sel, e.from.moduleId)
    ensures AreEdges(t, sel, n, es + outs + ins)
  {
    forall e
      ensures IsEdge(t, e) && Belongs(sel, n, e) <==> e in es || e in outs || e in ins
      ensures e in outs ==> e !in es
      ensures e in ins ==> e !in es && e !in outs
    {
      NextModule(t, sel, n, e);
    }
    AppendNoDup(es, outs);
    AppendNoDup(es + outs, ins);
  }

  /** What module n - 1 adds: its outgoing connections, and the incoming ones from outside. */
  lemma NextModule(t: Tracker, sel: seq<Module>, n: nat, e: Edge)
    requires Symmetric(t) && DistinctIds(sel) && 0 < n <= |sel|
    ensures var id := sel[n - 1].id;
            var out := e.from in t.outputs(id) && e.to in t.connections(e.from);
            var inn := e.to in t.inputs(id) && e.from in t.connections(e.to) && !Selected(sel, e.from.moduleId);
            && (IsEdge(t, e) && Belongs(sel, n, e) <==> (IsEdge(t, e) && Belongs(sel, n - 1, e)) || out || inn)
            && (out ==> !Belongs(sel, n - 1, e))
            && (inn ==> !Belongs(sel, n - 1, e) && !out)
  {
    assert sel[n - 1] in sel && Selected(sel, sel[n - 1].id);
    SelectedOneMore(sel, n - 1, e.from.moduleId);
    SelectedOneMore(sel, n - 1, e.to.moduleId);
  }

  /** Every connection with an end in the selection is exported, once, and no other. */
  lemma ExportedOnce(t: Tracker, sel: seq<Module>)
    requires Symmetric(t) && DistinctIds(sel)
    ensures NoDup(EdgesOf(t, sel, |sel|))
    ensures forall e :: e in EdgesOf(t, sel, |sel|) <==>
              IsEdge(t, e) && (Selected(sel, e.from.moduleId) || Selected(sel, e.to.moduleId))
  {
    EdgesAre(t, sel, |sel|);
    assert sel[..|sel|] == sel;
  }

  ghost predicate HasId(s: seq<Module>, id: int) {
    exists m :: m in s && m.id == id
  }

  /** The compound of a selection: its modules by ascending id, placed relative to the first one, and one entry for
      each connection with an end in the selection. */
  ghost predicate Exports(t: Tracker, selection: seq<Module>, sel: seq<Module>, es: seq<Edge>, comp: Compound) {
    && multiset(sel) == multiset(selection) && (forall i, j :: 0 <= i < j < |sel| ==> sel[i].id < sel[j].id)
    && |comp.submodules| == |sel|
    && (forall i :: 0 <= i < |sel| ==>
          comp.submodules[i] == SubModule(sel[i].name, sel[i].x - sel[0].x, sel[i].y - sel[0].y))
    && NoDup(es)
    && (forall e :: e in es <==>
          && e.from in t.outputs(e.from.moduleId) && e.to in t.connections(e.from)
          && (HasId(selection, e.from.moduleId) || HasId(selection, e.to.moduleId)))
    && DescribeAll(sel, comp.connections, es)
  }

  lemma SameIds(s: seq<Module>, u: seq<Module>, id: int)
    requires multiset(s) == multiset(u)
    ensures HasId(s, id) <==> Selected(u, id)
  {
    if m :| m in s && m.id == id { assert m in multiset(u); }
    if m :| m in u && m.id == id { assert m in multiset(s); }
  }

  /** What createModuleCompound exports. */
  lemma ExportIs(t: Tracker, selection: seq<Module>, sel: seq<Module>)
    requires Symmetric(t) && DistinctIds(selection) && sel == Sort(ById(), selection)
    ensures Exports(t, selection, sel, EdgesOf(t, sel, |sel|),
                    Compound(Submodules(sel, |sel|), Rendered(sel, EdgesOf(t, sel, |sel|))))
  {
    var es := EdgesOf(t, sel, |sel|);
    SortedIds(selection);
    ExportedOnce(t, sel);
    SubmodulesSize(sel, |sel|);
    forall i | 0 <= i < |sel|
      ensures Submodules(sel, |sel|)[i] == SubModule(sel[i].name, sel[i].x - sel[0].x, sel[i].y - sel[0].y)
    {
      SubmoduleAt(sel, |sel|, i);
    }
    forall id
      ensures HasId(selection, id) <==> Selected(sel, id)
    {
      SameIds(selection, sel, id);
    }
    RecordsDescribe(sel, es);
  }

  lemma {:induction false} SubmodulesSize(sel: seq<Module>, n: nat)
    requires n <= |sel|
    ensures |Submodules(sel, n)| == n
  {
    if n == 0 {
    } else {
      SubmodulesSize(sel, n - 1);
    }
  }

  /** A module as the compound stores it: placed relative to the first one. */
  function SubModuleOf(m: Module, first: Module): SubModule {
    SubModule(m.name, m.x - first.x, m.y - first.y)
  }

  /** The first n modules, placed relative to the first one. */
  function Submodules(sel: seq<Module>, n: nat): seq<SubModule>
    requires n <= |sel|
  {
    if n == 0 then [] else Submodules(sel, n - 1) + [SubModuleOf(sel[n - 1], sel[0])]
  }

  lemma {:induction false} SubmoduleAt(sel: seq<Module>, n: nat, i: nat)
    requires i < n <= |sel|
    ensures |Submodules(sel, n)| == n && Submodules(sel, n)[i] == SubModuleOf(sel[i], sel[0])
  {
    if n > 1 { SubmoduleAt(sel, n - 1, if i < n - 1 then i else 0); }
  }

  /** Every module of the selection finds itself at its own index. */
  ghost predicate Indexed(sel: seq<Module>) {
    forall i :: 0 <= i < |sel| ==> Position(sel, sel[i].id) == i
  }

  ghost predicate OwnPorts(t: Tracker) {
    forall id, p :: p in t.outputs(id) || p in t.inputs(id) ==> p.moduleId == id
  }

  // ----- the method

  function ById(): (Module, Module) -> bool {
    (m1: Module, m2: Module) => m1.id < m2.id
  }

  /** std::find_if over the selection, as an index or -1. */
  method FindModule(sel: seq<Module>, id: int) returns (k: int)
    ensures k == Position(sel, id)
  {
    k := 0;
    while k < |sel|
      invariant 0 <= k <= |sel|
      invariant Position(sel, id) == if Position(sel[k..], id) == -1 then -1 else Position(sel[k..], id) + k
    {
      if sel[k].id == id {
        return;
      }
      assert sel[k..][1..] == sel[k + 1..];
      k := k + 1;
    }
    k := -1;
  }

  method ExportOutputs(t: Tracker, sel: seq<Module>, i: nat) returns (rs: seq<Record>)
    requires i < |sel| && Position(sel, sel[i].id) == i
    requires forall p :: p in t.outputs(sel[i].id) ==> p.moduleId == sel[i].id
    ensures rs == Rendered(sel, OutEdges(t, t.outputs(sel[i].id)))
    ensures DescribeAll(sel, rs, OutEdges(t, t.outputs(sel[i].id)))
  {
    RecordsDescribe(sel, OutEdges(t, t.outputs(sel[i].id)));
    rs := [];
    var ps := t.outputs(sel[i].id);
    for a := 0 to |ps|
      invariant rs == Rendered(sel, OutEdges(t, ps[..a]))
    {
      assert ps[a] in ps;
      var more := ExportOutput(t, sel, i, ps[a]);
      NextOutput(t, sel, ps, a);
      rs := rs + more;
    }
    assert ps[..|ps|] == ps;
  }

  lemma NextOutput(t: Tracker, sel: seq<Module>, ps: seq<Port>, a: nat)
    requires a < |ps|
    ensures Rendered(sel, OutEdges(t, ps[..a + 1])) ==
            Rendered(sel, OutEdges(t, ps[..a])) + Rendered(sel, OutOf(t, ps[a], |t.connections(ps[a])|))
  {
    assert ps[..a + 1][..a] == ps[..a];
    RenderedConcat(sel, OutEdges(t, ps[..a]), OutOf(t, ps[a], |t.connections(ps[a])|));
  }

  /** The connections of one output. */
  method ExportOutput(t: Tracker, sel: seq<Module>, i: nat, p: Port) returns (rs: seq<Record>)
    requires i < |sel| && Position(sel, p.moduleId) == i
    ensures rs == Rendered(sel, OutOf(t, p, |t.connections(p)|))
  {
    rs := [];
    var conns := t.connections(p);
    for b := 0 to |conns|
      invariant rs == Rendered(sel, OutOf(t, p, b))
    {
      var toId := FindModule(sel, conns[b].moduleId);
      rs := rs + [Record(i, toId, p.name, conns[b].name)];
    }
  }

  method ExportInputs(t: Tracker, sel: seq<Module>, i: nat) returns (rs: seq<Record>)
    requires i < |sel| && Position(sel, sel[i].id) == i
    requires forall p :: p in t.inputs(sel[i].id) ==> p.moduleId == sel[i].id
    ensures rs == Rendered(sel, InEdges(t, sel, t.inputs(sel[i].id)))
    ensures DescribeAll(sel, rs, InEdges(t, sel, t.inputs(sel[i].id)))
  {
    RecordsDescribe(sel, InEdges(t, sel, t.inputs(sel[i].id)));
    rs := [];
    var qs := t.inputs(sel[i].id);
    for a := 0 to |qs|
      invariant rs == Rendered(sel, InEdges(t, sel, qs[..a]))
    {
      assert qs[a] in qs;
      var more := ExportInput(sel, i, qs[a], t.connections(qs[a]));
      NextInput(t, sel, qs, a);
      rs := rs + more;
    }
    assert qs[..|qs|] == qs;
  }

  lemma NextInput(t: Tracker, sel: seq<Module>, qs: seq<Port>, a: nat)
    requires a < |qs|
    ensures Rendered(sel, InEdges(t, sel, qs[..a + 1])) ==
            Rendered(sel, InEdges(t, sel, qs[..a])) + Rendered(sel, InOf(sel, qs[a], t.connections(qs[a])))
  {
    assert qs[..a + 1][..a] == qs[..a];
    RenderedConcat(sel, InEdges(t, sel, qs[..a]), InOf(sel, qs[a], t.connections(qs[a])));
  }

  lemma RenderedConcat(sel: seq<Module>, es: seq<Edge>, fs: seq<Edge>)
    ensures Rendered(sel, es + fs) == Rendered(sel, es) + Rendered(sel, fs)
  {}

  /** The connections of one input from modules outside the selection. */
  method ExportInput(sel: seq<Module>, i: nat, q: Port, conns: seq<Port>) returns (rs: seq<Record>)
    requires i < |sel| && Position(sel, q.moduleId) == i
    ensures rs == Rendered(sel, InOf(sel, q, conns))
  {
    rs := [];
    for b := 0 to |conns|
      invariant rs == Rendered(sel, InOf(sel, q, conns[..b]))
    {
      assert conns[..b + 1][..b] == conns[..b];
      var fromId := FindModule(sel, conns[b].moduleId);
      if fromId == -1 {
        rs := rs + [Record(-1, i, conns[b].name, q.name)];
      }
    }
    assert conns[..|conns|] == conns;
  }

  lemma {:induction false} PositionOf(sel: seq<Module>, i: nat)
    requires DistinctIds(sel) && i < |sel|
    ensures Position(sel, sel[i].id) == i
  {
    if i == 0 {
    } else {
      PositionOf(sel[1..], i - 1);
    }
  }

  lemma NextRecords(t: Tracker, sel: seq<Module>, i: nat)
    requires i < |sel|
    ensures var id := sel[i].id;
            Rendered(sel, EdgesOf(t, sel, i + 1)) ==
            Rendered(sel, EdgesOf(t, sel, i)) + Rendered(sel, OutEdges(t, t.outputs(id))) +
            Rendered(sel, InEdges(t, sel, t.inputs(id)))
  {
    var id := sel[i].id;
    RenderedConcat(sel, EdgesOf(t, sel, i), OutEdges(t, t.outputs(id)));
    RenderedConcat(sel, EdgesOf(t, sel, i) + OutEdges(t, t.outputs(id)), InEdges(t, sel, t.inputs(id)));
  }

  ghost predicate OneHub(sel: seq<Module>, n: nat)
    requires n <= |sel|
  {
    forall j :: 0 <= j < n ==> sel[j].hub == sel[0].hub
  }

  lemma OneHubIff(selection: seq<Module>, sel: seq<Module>)
    requires multiset(sel) == multiset(selection)
    ensures OneHub(sel, |sel|) <==> forall m, n :: m in selection && n in selection ==> m.hub == n.hub
  {
    assert forall m :: m in selection <==> m in multiset(sel);
    assert forall m :: m in sel <==> m in multiset(sel);
    if OneHub(sel, |sel|) {
      forall m, n | m in selection && n in selection
        ensures m.hub == n.hub
      {
        assert m in sel && n in sel;
      }
    }
  }

  /** The two loops over the ports of module i. */
  method ExportConnections(t: Tracker, sel: seq<Module>, i: nat, before: seq<Record>) returns (conns: seq<Record>)
    requires Indexed(sel) && OwnPorts(t) && i < |sel| && before == Rendered(sel, EdgesOf(t, sel, i))
    ensures conns == Rendered(sel, EdgesOf(t, sel, i + 1))
  {
    var outs := ExportOutputs(t, sel, i);
    var ins := ExportInputs(t, sel, i);
    NextRecords(t, sel, i);
    conns := before + outs + ins;
  }

  lemma HubsSoFar(sel: seq<Module>, i: nat)
    requires i < |sel|
    ensures OneHub(sel, i + 1) <==> OneHub(sel, i) && sel[i].hub == sel[0].hub
    ensures sel[i].hub != sel[0].hub ==> !OneHub(sel, |sel|)
  {}

  /** The loop over the sorted modules. */
  method ExportModules(t: Tracker, sel: seq<Module>, havePython: bool) returns (comp: Option<Compound>)
    requires Indexed(sel) && OwnPorts(t)
    ensures comp == if havePython && !OneHub(sel, |sel|) then None else Some(ExportedSoFar(t, sel, |sel|))
  {
    var c := Compound([], []);
    for i := 0 to |sel|
      invariant havePython ==> OneHub(sel, i)
      invariant c == ExportedSoFar(t, sel, i)
    {
      HubsSoFar(sel, i);
      if havePython && sel[i].hub != sel[0].hub {
        return None;
      }
      c := ExportModule(t, sel, i, c);
    }
    comp := Some(c);
  }

  ghost function ExportedSoFar(t: Tracker, sel: seq<Module>, n: nat): Compound
    requires n <= |sel|
  {
    Compound(Submodules(sel, n), Rendered(sel, EdgesOf(t, sel, n)))
  }

  /** One round of the loop. */
  method ExportModule(t: Tracker, sel: seq<Module>, i: nat, c: Compound) returns (comp: Compound)
    requires Indexed(sel) && OwnPorts(t) && i < |sel| && c == ExportedSoFar(t, sel, i)
    ensures comp == ExportedSoFar(t, sel, i + 1)
  {
    var conns := ExportConnections(t, sel, i, c.connections);
    comp := Compound(c.submodules + [SubModuleOf(sel[i], sel[0])], conns);
  }

  /** The compound, or nothing if scripting is built in and the modules are on different hubs. */
  method CreateModuleCompound(t: Tracker, selection: seq<Module>, havePython: bool) returns (comp: Option<Compound>)
    requires Symmetric(t) && DistinctIds(selection)
    ensures var sel := Sort(ById(), selection);
            comp == if havePython && !OneHub(sel, |sel|) then None
                    else Some(Compound(Submodules(sel, |sel|), Rendered(sel, EdgesOf(t, sel, |sel|))))
    ensures comp.None? <==> havePython && exists m, n :: m in selection && n in selection && m.hub != n.hub
    ensures comp.Some? ==> exists sel, es :: Exports(t, selection, sel, es, comp.value)
  {
    var sel := Sort(ById(), selection);
    SortedIds(selection);
    ExportIs(t, selection, sel);
    OneHubIff(selection, sel);
    forall i | 0 <= i < |sel|
      ensures Position(sel, sel[i].id) == i
    {
      PositionOf(sel, i);
    }
    comp := ExportModules(t, sel, havePython);
  }

  /** The sorted selection has the same modules, by ascending id. */
  lemma SortedIds(selection: seq<Module>)
    requires DistinctIds(selection)
    ensures var sel := Sort(ById(), selection);
            && multiset(sel) == multiset(selection) && DistinctIds(sel)
            && forall i, j :: 0 <= i < j < |sel| ==> sel[i].id < sel[j].id
  {
    var sel := Sort(ById(), selection);
    SortSorts(ById(), selection);
    forall i, j | 0 <= i < j < |sel|
      ensures sel[i].id < sel[j].id
    {
      if sel[i].id == sel[j].id { SameIdTwice(selection, sel, i, j); }
    }
  }

  lemma SameIdTwice(s: seq<Module>, t: seq<Module>, i: nat, j: nat)
    requires DistinctIds(s) && multiset(s) == multiset(t) && i < j < |t|
    ensures t[i].id != t[j].id
  {
    if t[i].id == t[j].id {
      assert t[i] in multiset(s) && t[j] in multiset(s);
      assert t[i] == t[j];
      Twice(t, i, j);
      OnlyOnce(s, t[i]);
    }
  }

  lemma Twice(t: seq<Module>, i: nat, j: nat)
    requires i < j < |t| && t[i] == t[j]
    ensures multiset(t)[t[i]] >= 2
  {
    assert t == t[..j] + [t[j]] + t[j + 1..];
    assert t[i] in t[..j];
    assert t[i] in multiset(t[..j]);
  }

  lemma {:induction false} OnlyOnce(s: seq<Module>, m: Module)
    requires DistinctIds(s)
    ensures multiset(s)[m] <= 1
  {
    if s == [] {
    } else {
      assert s == [s[0]] + s[1..];
      OnlyOnce(s[1..], m);
      assert s[0] == m ==> m !in s[1..];
    }
  }
}
