/** When the grids that were edited step by step are the ones that would be computed from the tree alone. */
module RecomputedGrids {
  import opened GridAgreement
  import opened PropertyTree
  import opened Runs

  /** The grid of an owner, built from its children: all of their cells, and the spacer below them in the main area. */
  ghost function FromTree(st: State, o: Owner): Grid {
    var vs := Views(st, Kids(st, o));
    Recomputed(vs) + (if o.Top? then map[Spacer := RowOf(vs, |vs|)] else map[])
  }

  ghost predicate AllRecomputed(st: State) {
    forall o :: o in st.grids ==> st.grids[o] == FromTree(st, o)
  }

  /** The last child of a vector goes: with the container, the vector gives up its heading box. */
  ghost predicate LosesBox(st: State, op: Op) {
    && op.DoRemove?
    && op.x in st.items
    && var o := st.items[op.x].parent;
       o.Of? && o.id in st.items && Kids(st, o) == [op.x] && st.items[o.id].caption.InBox?
  }

  // ----- lost boxes do not matter to the operations

  function Forget(st: State): State {
    st.(lost := {})
  }

  lemma SameWithout(st: State, s: seq<Id>)
    ensures Views(Forget(st), s) == Views(st, s)
  {}

  lemma ForgetShape(st: State)
    ensures Shape(Forget(st)) <==> Shape(st)
  {
    assert forall o :: HasGrid(Forget(st), o) <==> HasGrid(st, o);
    assert forall o :: KnownOwner(Forget(st), o) <==> KnownOwner(st, o);
  }

  lemma AgreesTidy(g: Grid, vs: seq<View>, spacer: bool, lost: set<nat>)
    requires Agrees(g, vs, spacer, lost)
    ensures Tidy(g, vs) <==> Agrees(g, vs, spacer, {})
  {
    if Tidy(g, vs) {
      forall c | c in g
        ensures Belongs(c, Items(vs), Boxes(vs) + {}, spacer)
      {
        assert Belongs(c, Items(vs), Boxes(vs) + lost, spacer);
      }
    }
    if Agrees(g, vs, spacer, {}) {
      forall n | Box(n) in g
        ensures n in Boxes(vs)
      {
        assert Belongs(Box(n), Items(vs), Boxes(vs) + {}, spacer);
      }
    }
  }

  lemma OwnerRecomputed(st: State, o: Owner)
    requires o in st.grids && OwnerAgrees(st, o)
    ensures st.grids[o] == FromTree(st, o) <==> OwnerAgrees(Forget(st), o)
  {
    var vs := Views(st, Kids(st, o));
    SameWithout(st, Kids(st, o));
    AgreesTidy(st.grids[o], vs, o.Top?, st.lost);
    AgreesIsRecomputed(st.grids[o], vs, o.Top?, st.lost);
  }

  /** The grids are the recomputed ones just when they agree with the tree without any lost box. */
  lemma RecomputedIsInv(st: State)
    requires Inv(st)
    ensures AllRecomputed(st) <==> Inv(Forget(st))
  {
    ForgetShape(st);
    forall o | o in st.grids
      ensures st.grids[o] == FromTree(st, o) <==> OwnerAgrees(Forget(st), o)
    {
      assert OwnerAgrees(st, o);
      OwnerRecomputed(st, o);
    }
  }

  lemma {:induction false} UpdateForgets(st: State)
    requires Shape(st) && Shape(Forget(st))
    ensures Update(Forget(st)) == Forget(Update(st)) && Update(st).lost == st.lost
    decreases |st.queue|
  {
    if st.queue == [] {
    } else {
      var x := st.queue[0];
      OwnerHasGrid(st, x);
      RelabelShape(st, x);
      ForgetShape(Relabel(st, x));
      SameWithout(st, Kids(st, st.items[x].parent));
      assert Relabel(Forget(st), x) == Forget(Relabel(st, x));
      UpdateForgets(Relabel(st, x));
    }
  }

  lemma InsertForgets(st: State, op: Op)
    requires Shape(st) && op.DoInsert? && Possible(st, op)
    ensures Step(Forget(st), op) == Forget(Step(st, op)) && Step(st, op).lost == st.lost
  {
    ForgetShape(st);
    if HasGrid(st, op.owner) {
      if op.owner.Of? { OwnerHasGrid(st, op.owner.id); }
      HereForgets(st, op.x, op.owner, op.after, op.vector, op.editor, op.valueLabel);
    } else {
      OwnerHasGrid(st, op.owner.id);
      FirstForgets(st, op.x, op.owner, op.after, op.vector, op.editor, op.valueLabel);
    }
  }

  lemma HereForgets(st: State, x: Id, o: Owner, after: seq<Id>, vector: bool, editor: bool, valueLabel: bool)
    requires HasGrid(st, o) && o in st.grids
    requires o.Of? ==> st.items[o.id].parent in st.grids && o.id in Kids(st, st.items[o.id].parent)
    requires |after| <= 1 && forall a :: a in after ==> a in Kids(st, o)
    ensures Kids(Forget(st), o) == Kids(st, o)
    ensures Insert(Forget(st), x, o, after, vector, editor, valueLabel) ==
            Forget(Insert(st, x, o, after, vector, editor, valueLabel))
    ensures Insert(st, x, o, after, vector, editor, valueLabel).lost == st.lost
  {
    SameWithout(st, Kids(st, o));
  }

  lemma FirstForgets(st: State, x: Id, o: Owner, after: seq<Id>, vector: bool, editor: bool, valueLabel: bool)
    requires o.Of? && o.id in st.items && !st.items[o.id].container
    requires st.items[o.id].parent in st.grids && o.id in Kids(st, st.items[o.id].parent)
    requires |after| <= 1 && forall a :: a in after ==> a in Kids(st, o)
    ensures Kids(Forget(st), o) == Kids(st, o)
    ensures Insert(Forget(st), x, o, after, vector, editor, valueLabel) ==
            Forget(Insert(st, x, o, after, vector, editor, valueLabel))
    ensures Insert(st, x, o, after, vector, editor, valueLabel).lost == st.lost
  {
    SameWithout(st, Kids(st, st.items[o.id].parent));
  }

  lemma RemoveForgets(st: State, op: Op)
    requires Shape(st) && op.DoRemove? && Possible(st, op)
    ensures Forget(Step(Forget(st), op)) == Forget(Step(st, op))
    ensures Step(st, op).lost >= st.lost && (Step(st, op).lost == st.lost || LosesBox(st, op))
    ensures Step(Forget(st), op).lost == {} <==> !LosesBox(st, op)
  {
    ForgetShape(st);
    CanRemoveOwners(st, op.x);
    CutOnly(Kids(st, st.items[op.x].parent), op.x);
    SameWithout(st, Kids(st, st.items[op.x].parent));
    if st.items[op.x].parent.Of? { SameWithout(st, Kids(st, st.items[st.items[op.x].parent.id].parent)); }
  }

  lemma CutOnly(s: seq<Id>, x: Id)
    requires x in s
    ensures Cut(s, IndexIn(s, x)) == [] <==> s == [x]
  {}

  /** No operation looks at the lost boxes, and only the removal of the last child of a vector adds one. */
  lemma StepForgets(st: State, op: Op)
    requires Shape(st)
    ensures Forget(Step(Forget(st), op)) == Forget(Step(st, op))
    ensures Step(Forget(st), op).lost == {} <==> !(Possible(st, op) && LosesBox(st, op))
  {
    ForgetShape(st);
    if Possible(st, op) {
      match op
      case DoInsert(_, _, _, _, _, _) => InsertForgets(st, op);
      case DoRemove(_) => RemoveForgets(st, op);
      case DoExpand(x, _) =>
        OwnerHasGrid(st, x);
        SameWithout(st, Kids(st, st.items[x].parent));
      case DoDropEditor(x) => OwnerHasGrid(st, x);
      case DoUpdate => UpdateForgets(st);
    }
  }

  // ----- one step

  lemma UntidyOwner(st: State, o: Owner)
    requires AllAgree(st) && o in st.grids && !Tidy(st.grids[o], Views(st, Kids(st, o)))
    ensures !AllRecomputed(st)
  {
    assert OwnerAgrees(st, o);
    AgreesIsRecomputed(st.grids[o], Views(st, Kids(st, o)), o.Top?, st.lost);
  }

  lemma KeepsGrids(st: State, op: Op)
    requires Inv(st) && AllRecomputed(st) && Legal(st, op) && !LosesBox(st, op)
    ensures AllRecomputed(Step(st, op))
  {
    RecomputedIsInv(st);
    StepForgets(st, op);
    StepInv(st, op);
    StepInv(Forget(st), op);
    RecomputedIsInv(Step(st, op));
  }

  /** Where every grid is the recomputed one, they all are again after a legal operation if and only if it is not the
      removal of the last child of a vector. */
  lemma StepRecomputedIff(st: State, op: Op)
    requires Inv(st) && AllRecomputed(st) && Legal(st, op)
    ensures AllRecomputed(Step(st, op)) <==> !LosesBox(st, op)
  {
    if LosesBox(st, op) {
      var p := st.items[op.x].parent.id;
      StepInv(st, op);
      LeftBehind(st, p, op.x);
      UntidyOwner(Step(st, op), st.items[p].parent);
    } else {
      KeepsGrids(st, op);
    }
  }

  // ----- runs

  /** No operation of the run is the removal of the last child of a vector, where it happens. */
  ghost predicate Calm(st: State, ops: seq<Op>) {
    Allowed((s, op) => !LosesBox(s, op), (s, op) => Step(s, op), st, ops)
  }

  /** Every grid is the recomputed one at the beginning of the run and after each of its operations. */
  ghost predicate RecomputedThroughout(st: State, ops: seq<Op>) {
    Throughout(s => AllRecomputed(s), (s, op) => Step(s, op), st, ops)
  }

  lemma FirstLegal(st: State, ops: seq<Op>)
    requires ops != [] && LegalRun(st, ops)
    ensures Legal(st, ops[0]) && LegalRun(Step(st, ops[0]), ops[1..])
    ensures PropertyTree.After(st, ops) == PropertyTree.After(Step(st, ops[0]), ops[1..])
    ensures Calm(st, ops) <==> !LosesBox(st, ops[0]) && Calm(Step(st, ops[0]), ops[1..])
  {}

  lemma BoxesDecide()
    ensures Decides(s => AllRecomputed(s), s => Inv(s) && AllRecomputed(s), (s, op) => Legal(s, op),
                    (s, op) => !LosesBox(s, op), (s, op) => Step(s, op))
  {
    forall st: State, op: Op | Inv(st) && AllRecomputed(st) && Legal(st, op)
      ensures Inv(Step(st, op)) && (AllRecomputed(Step(st, op)) <==> !LosesBox(st, op))
    {
      StepInv(st, op);
      StepRecomputedIff(st, op);
    }
  }

  /** From the empty browser on, the edited grids are the recomputed ones at every moment of a legal run if and only
      if no vector loses its last child in it. */
  lemma ThroughoutIff(ops: seq<Op>)
    requires LegalRun(EMPTY, ops)
    ensures RecomputedThroughout(EMPTY, ops) <==> Calm(EMPTY, ops)
    ensures Calm(EMPTY, ops) ==> AllRecomputed(PropertyTree.After(EMPTY, ops))
  {
    InitInv();
    assert AllRecomputed(EMPTY);
    BoxesDecide();
    Runs.ThroughoutIff(s => AllRecomputed(s), s => Inv(s) && AllRecomputed(s), (s, op) => Legal(s, op),
                       (s, op) => !LosesBox(s, op), (s, op) => Step(s, op), EMPTY, ops);
  }

  /** In every state of every run from the empty browser: the cells of item k below owner o start on the row of the
      item, an open container is one row below, sibling rows do not overlap, and the spacer is below everything. The
      grid is the recomputed one exactly if no stray box is in it, and that is so if no vector lost its last child. */
  lemma ReachableRows(ops: seq<Op>, st: State, o: Owner, k: nat)
    requires LegalRun(EMPTY, ops) && st == PropertyTree.After(EMPTY, ops) && o in st.grids && k < |Kids(st, o)|
    ensures var vs := Views(st, Kids(st, o));
            && Placed(st.grids[o], vs[k], RowOf(vs, k))
            && (forall j :: 0 <= j < k ==> RowOf(vs, j) + Span(vs[j]) <= RowOf(vs, k))
            && RowOf(vs, k) + Span(vs[k]) <= RowOf(vs, |vs|)
            && (o == Top ==> Spacer in st.grids[o] && st.grids[o][Spacer] == RowOf(vs, |vs|))
            && (st.grids[o] == FromTree(st, o) <==> Tidy(st.grids[o], vs))
            && (Calm(EMPTY, ops) ==> st.grids[o] == FromTree(st, o))
  {
    PropertyTree.RunInv(ops);
    assert OwnerAgrees(st, o);
    var vs := Views(st, Kids(st, o));
    assert Placed(st.grids[o], vs[k], RowOf(vs, k));
    forall j | 0 <= j < k
      ensures RowOf(vs, j) + Span(vs[j]) <= RowOf(vs, k)
    {
      RowsOrdered(vs, j, k);
    }
    RowsOrdered(vs, k, |vs|);
    AgreesIsRecomputed(st.grids[o], vs, o.Top?, st.lost);
    ThroughoutIff(ops);
  }

  lemma StepLost(st: State, op: Op)
    requires Shape(st)
    ensures Step(st, op).lost >= st.lost
    ensures st.lost == {} ==> (Step(st, op).lost == {} <==> !(Possible(st, op) && LosesBox(st, op)))
  {
    if st.lost == {} { assert Forget(st) == st; }
    StepForgets(st, op);
    if Possible(st, op) {
      match op
      case DoInsert(_, _, _, _, _, _) => InsertForgets(st, op);
      case DoRemove(_) => RemoveForgets(st, op);
      case DoExpand(_, _) =>
      case DoDropEditor(_) =>
      case DoUpdate =>
        ForgetShape(st);
        UpdateForgets(st);
    }
  }

  lemma {:induction false} RunLost(st: State, ops: seq<Op>)
    requires Inv(st) && LegalRun(st, ops)
    ensures PropertyTree.After(st, ops).lost >= st.lost
    ensures st.lost == {} ==> (PropertyTree.After(st, ops).lost == {} <==> Calm(st, ops))
    decreases |ops|
  {
    if ops == [] {
    } else {
      FirstLegal(st, ops);
      StepInv(st, ops[0]);
      StepLost(st, ops[0]);
      RunLost(Step(st, ops[0]), ops[1..]);
    }
  }

  // ----- the run into it

  const ADD_VECTOR_CHILD := DoInsert(1, Of(0), [], true, false, false)

  lemma VectorNext(st: State, op: Op)
    requires OneItem(st) && Shape(st) && op == ADD_VECTOR_CHILD
    ensures Legal(st, op) && TwoItems(Step(st, op), false) && Step(st, op).items[0].caption.InBox?
    ensures Step(st, op).items[1].parent == Of(0)
  {
    StepInsertFirst(st, op, 0);
  }

  lemma ExampleFrom(e: State, a: Op, b: Op, c: Op)
    requires Inv(e) && AllRecomputed(e) && NoItems(e) && a == ADD_ITEM && b == ADD_VECTOR_CHILD && c == DoRemove(1)
    ensures var st2 := Step(Step(e, a), b);
            && Legal(e, a) && Legal(Step(e, a), b) && Legal(st2, c)
            && AllRecomputed(st2) && !AllRecomputed(Step(st2, c))
  {
    ItemLegal(e, a);
    StepInv(e, a);
    ItemNext(e, a);
    StepRecomputedIff(e, a);
    VectorNext(Step(e, a), b);
    StepInv(Step(e, a), b);
    StepRecomputedIff(Step(e, a), b);
    StepRecomputedIff(Step(Step(e, a), b), c);
  }

  /** An item, a child that makes it a vector, and the child goes again: a box is left in the main grid. */
  lemma BoxLostExample()
    ensures var ops := [ADD_ITEM, ADD_VECTOR_CHILD, DoRemove(1)];
            LegalRun(EMPTY, ops) && !AllRecomputed(PropertyTree.After(EMPTY, ops))
  {
    InitInv();
    assert AllRecomputed(EMPTY);
    ExampleFrom(EMPTY, ADD_ITEM, ADD_VECTOR_CHILD, DoRemove(1));
    ThreeSteps((s, op) => Legal(s, op), (s, op) => Step(s, op), EMPTY, ADD_ITEM, ADD_VECTOR_CHILD, DoRemove(1));
  }

  lemma ThreeSteps<S, O>(allowed: (S, O) -> bool, step: (S, O) -> S, st: S, a: O, b: O, c: O)
    ensures var st2 := step(step(st, a), b);
            && Run(step, st, [a, b, c]) == step(st2, c)
            && (Allowed(allowed, step, st, [a, b, c]) <==>
                  allowed(st, a) && allowed(step(st, a), b) && allowed(st2, c))
  {
    assert [a] + [b, c] == [a, b, c] && [b] + [c] == [b, c] && [c] + [] == [c];
    OneStep(allowed, step, st, a, [b, c]);
    OneStep(allowed, step, step(st, a), b, [c]);
    OneStep(allowed, step, step(step(st, a), b), c, []);
  }
}
