/** What every operation of the property browser does, item by item and cell by cell. */
module PropertyEffects {
  import opened GridAgreement
  import opened PropertyTree
  import opened PropertyRoundTrips

  // ----- what an item looks like

  /** The cells of the grid g show the item: its label, or the button or box of its container, its editor, its value
      label and the open container. */
  ghost predicate ShownIn(g: Grid, x: Id, it: Item) {
    && (Label(x) in g <==> !it.container && it.caption == InGrid)
    && (Button(x) in g <==> it.container && !it.caption.InBox?)
    && (it.container && it.caption.InBox? ==> Box(it.caption.box) in g)
    && (Editor(x) in g <==> it.editor)
    && (ValueLabel(x) in g <==> it.valueLabel)
    && (Container(x) in g <==> it.container && it.expanded)
  }

  /** They are on the item's row, the container one row below. */
  ghost predicate OnRow(g: Grid, x: Id, it: Item, row: int) {
    && (forall c :: c in [Label(x), Button(x), Editor(x), ValueLabel(x)] && c in g ==> g[c] == row)
    && (it.container && it.caption.InBox? && Box(it.caption.box) in g ==> g[Box(it.caption.box)] == row)
    && (Container(x) in g ==> g[Container(x)] == row + 1)
  }

  lemma PlacedMeans(g: Grid, x: Id, it: Item, row: int)
    requires Placed(g, ViewOf(x, it), row)
    ensures ShownIn(g, x, it) && OnRow(g, x, it, row)
  {}

  /** Every item is shown in the grid of its owner, on its row. */
  lemma CellsShown(st: State, x: Id)
    requires Inv(st) && x in st.items
    ensures st.items[x].parent in st.grids && x in Kids(st, st.items[x].parent)
    ensures ShownIn(st.grids[st.items[x].parent], x, st.items[x])
    ensures OnRow(st.grids[st.items[x].parent], x, st.items[x], RowAt(st, x))
  {
    OwnerFacts(st, x);
    PlacedHere(st, x, st.items[x].parent);
    PlacedMeans(st.grids[st.items[x].parent], x, st.items[x], RowAt(st, x));
  }

  lemma PlacedHere(st: State, x: Id, o: Owner)
    requires o in st.grids && x in st.items && st.items[x].parent == o && x in Kids(st, o)
    requires AllPlaced(st.grids[o], Views(st, Kids(st, o)))
    ensures Placed(st.grids[o], ViewOf(x, st.items[x]), RowAt(st, x))
  {
    var vs := Views(st, Kids(st, o));
    var k := IndexIn(Kids(st, o), x);
    assert Placed(st.grids[o], vs[k], RowOf(vs, k));
  }

  /** The first child is on row 0, and each one follows its predecessor, two rows below if that is open. */
  lemma RowsFollow(st: State, o: Owner, k: nat)
    requires Inv(st) && o in st.kids && k < |Kids(st, o)|
    ensures forall c :: c in Kids(st, o) ==> c in st.items && st.items[c].parent == o
    ensures var x := Kids(st, o)[k];
            RowAt(st, x) == if k == 0 then 0 else
              var y := Kids(st, o)[k - 1];
              RowAt(st, y) + if st.items[y].container && st.items[y].expanded then 2 else 1
  {
    KidsKnown(st, o);
    var s := Kids(st, o);
    IndexHere(s, k);
    if k > 0 { IndexHere(s, k - 1); }
  }

  lemma IndexHere(s: seq<Id>, k: nat)
    requires NoDup(s) && k < |s|
    ensures IndexIn(s, s[k]) == k
  {
    IndexIs(s, s[k], k);
  }

  // ----- propertyInserted

  /** Every item outside p is as it was. */
  ghost predicate OthersSame(st: State, st': State, p: set<Id>) {
    forall y :: y in st.items && y !in p ==> y in st'.items && st'.items[y] == st.items[y]
  }

  /** The new item is the one asked for, below its owner, with its label, and nothing else changes but an owner that
      gets its container. */
  lemma InsertItem(st: State, x: Id, o: Owner, after: seq<Id>, vector: bool, editor: bool, valueLabel: bool)
    requires Inv(st) && CanInsert(st, x, o, after)
    ensures var st' := Step(st, DoInsert(x, o, after, vector, editor, valueLabel));
            && st'.items.Keys == st.items.Keys + {x}
            && st'.items[x] == Item(o, editor, valueLabel, InGrid, false, false)
            && st'.lost == st.lost
            && (HasGrid(st, o) ==> OthersSame(st, st', {}) && st'.nextBox == st.nextBox && st'.queue == st.queue)
            && (!HasGrid(st, o) ==> NewOwner(st, st', o.id, vector))
  {
    var it := Item(o, editor, valueLabel, InGrid, false, false);
    if HasGrid(st, o) {
      var k, g := HungHere(st, x, o, after, vector, editor, valueLabel);
      HangItem(st, x, o, k, it, g);
    } else {
      var gp, gx := HungFirst(st, x, o, after, vector, editor, valueLabel);
      HangFirstItem(st, x, o.id, vector, it, gp, gx);
    }
  }

  lemma HangItem(st: State, x: Id, o: Owner, k: nat, it: Item, g: Grid)
    requires x !in st.items && k <= |Kids(st, o)|
    ensures var st' := Hang(st, x, o, k, it, g);
            && st'.items.Keys == st.items.Keys + {x} && st'.items[x] == it && OthersSame(st, st', {})
            && st'.lost == st.lost && st'.nextBox == st.nextBox && st'.queue == st.queue
  {}

  lemma HangFirstItem(st: State, x: Id, p: Id, vector: bool, it: Item, gp: Grid, gx: Grid)
    requires x !in st.items && p in st.items
    ensures var pit := st.items[p].(container := true, caption := if vector then InBox(st.nextBox) else NoLabel);
            var st' := HangFirst(st, x, p, pit, it, gp, gx);
            && st'.items.Keys == st.items.Keys + {x} && st'.items[x] == it && NewOwner(st, st', p, vector)
            && st'.lost == st.lost
  {}

  /** p has its container now, with a button or with the next box, and does not wait any more. */
  ghost predicate NewOwner(st: State, st': State, p: Id, vector: bool) {
    && p in st.items && p in st'.items
    && OthersSame(st, st', {p})
    && st'.items[p] == st.items[p].(container := true, caption := if vector then InBox(st.nextBox) else NoLabel)
    && st'.nextBox == (if vector then st.nextBox + 1 else st.nextBox)
    && forall y :: y in st'.queue <==> y in st.queue && y != p
  }

  lemma HungHere(st: State, x: Id, o: Owner, after: seq<Id>, vector: bool, editor: bool, valueLabel: bool)
    returns (k: nat, g: Grid)
    requires Shape(st) && CanInsert(st, x, o, after) && HasGrid(st, o)
    ensures k <= |Kids(st, o)|
    ensures Step(st, DoInsert(x, o, after, vector, editor, valueLabel)) ==
            Hang(st, x, o, k, Item(o, editor, valueLabel, InGrid, false, false), g)
  {
    if o.Of? { OwnerHasGrid(st, o.id); }
    k := Slot(Kids(st, o), after);
    var row := RowOf(Views(st, Kids(st, o)), k);
    g := ShiftDown(st.grids[o], row) + NewCells(ViewOf(x, NewItem(o, editor, valueLabel)), row);
  }

  lemma HungFirst(st: State, x: Id, o: Owner, after: seq<Id>, vector: bool, editor: bool, valueLabel: bool)
    returns (gp: Grid, gx: Grid)
    requires Shape(st) && CanInsert(st, x, o, after) && !HasGrid(st, o)
    ensures var pit := st.items[o.id].(container := true, caption := if vector then InBox(st.nextBox) else NoLabel);
            Step(st, DoInsert(x, o, after, vector, editor, valueLabel)) ==
            HangFirst(st, x, o.id, pit, Item(o, editor, valueLabel, InGrid, false, false), gp, gx)
    ensures gx == NewCells(ViewOf(x, Item(o, editor, valueLabel, InGrid, false, false)), 0)
  {
    OwnerHasGrid(st, o.id);
    var pit := NewContainer(st, o.id, vector);
    gp := Reheaded(st.grids[pit.parent], ViewOf(o.id, pit), RowAt(st, o.id));
    gx := NewCells(ViewOf(x, NewItem(o, editor, valueLabel)), 0);
  }

  /** The grid g of its owner shows the new item as it was asked for. */
  ghost predicate ShowsNew(g: Grid, x: Id, editor: bool, valueLabel: bool) {
    && Label(x) in g && Button(x) !in g && Container(x) !in g
    && (Editor(x) in g <==> editor) && (ValueLabel(x) in g <==> valueLabel)
  }

  /** The new item has exactly the cells that were asked for. */
  lemma InsertCells(st: State, x: Id, o: Owner, after: seq<Id>, vector: bool, editor: bool, valueLabel: bool)
    requires Inv(st) && CanInsert(st, x, o, after)
    ensures var st' := Step(st, DoInsert(x, o, after, vector, editor, valueLabel));
            o in st'.grids && ShowsNew(st'.grids[o], x, editor, valueLabel)
  {
    var st' := Step(st, DoInsert(x, o, after, vector, editor, valueLabel));
    if HasGrid(st, o) {
      StepInv(st, DoInsert(x, o, after, vector, editor, valueLabel));
      InsertItem(st, x, o, after, vector, editor, valueLabel);
      NewShown(st', x, o, editor, valueLabel);
    } else {
      var gp, gx := HungFirst(st, x, o, after, vector, editor, valueLabel);
      FirstShown(x, o, editor, valueLabel);
      assert st'.grids[o] == gx;
    }
  }

  lemma NewShown(st: State, x: Id, o: Owner, editor: bool, valueLabel: bool)
    requires Inv(st) && x in st.items && st.items[x] == Item(o, editor, valueLabel, InGrid, false, false)
    ensures o in st.grids && ShowsNew(st.grids[o], x, editor, valueLabel)
  {
    CellsShown(st, x);
  }

  lemma FirstShown(x: Id, o: Owner, editor: bool, valueLabel: bool)
    ensures ShowsNew(NewCells(ViewOf(x, Item(o, editor, valueLabel, InGrid, false, false)), 0), x, editor, valueLabel)
  {}

  /** An owner that gets its container without a stale mark shows a button, or a box if it is a vector, in place of its
      label, and stays shut. */
  lemma InsertOwner(st: State, x: Id, p: Id, vector: bool, editor: bool, valueLabel: bool)
    requires Inv(st) && CanInsert(st, x, Of(p), []) && !HasGrid(st, Of(p)) && !st.items[p].expanded
    ensures var st' := Step(st, DoInsert(x, Of(p), [], vector, editor, valueLabel));
            && Inv(st') && st.items[p].parent in st'.grids
            && var g := st'.grids[st.items[p].parent];
               && Label(p) !in g && Container(p) !in g
               && (Button(p) in g <==> !vector) && (Box(st.nextBox) in g <==> vector)
  {
    var st' := Step(st, DoInsert(x, Of(p), [], vector, editor, valueLabel));
    StepInv(st, DoInsert(x, Of(p), [], vector, editor, valueLabel));
    InsertItem(st, x, Of(p), [], vector, editor, valueLabel);
    CellsShown(st', p);
    assert BoxesBelow(st'.grids[st.items[p].parent], st'.nextBox);
  }

  // ----- propertyRemoved

  /** The item goes with all of its cells. Its owner gives up its container with its last child; nothing else of any
      other item changes. */
  lemma RemoveItem(st: State, x: Id)
    requires Inv(st) && CanRemove(st, x)
    ensures var st', o := Step(st, DoRemove(x)), st.items[x].parent;
            && st'.items.Keys == st.items.Keys - {x}
            && (o.Top? || Kids(st, o) != [x] ==> OthersSame(st, st', {x}) && st'.lost == st.lost)
            && (o.Of? && Kids(st, o) == [x] ==> OwnerGone(st, st', o.id, x))
    ensures var st', o := Step(st, DoRemove(x)), st.items[x].parent;
            && (forall q :: q != o && q != Of(x) ==> Kids(st', q) == Kids(st, q))
            && x in Kids(st, o) && Kids(st', o) == Cut(Kids(st, o), IndexIn(Kids(st, o), x))
  {
    CanRemoveOwners(st, x);
    var o := st.items[x].parent;
    CutEmpty(Kids(st, o), x);
    if o.Of? && Kids(st, o) == [x] {
      DropLastPlaces(st, x, o.id);
      var gp := StepRemoveLast(st, o.id, x);
      DropLastItem(st, x, o.id, gp);
      DropLastKids(st, x, o.id, gp);
    } else {
      RemoveHere(st, x, o, IndexIn(Kids(st, o), x));
      DropItem(st, x, o, IndexIn(Kids(st, o), x), ShiftUp(st.grids[o] - OwnCells(x), RowAt(st, x)));
    }
  }

  /** p has no container any more and waits; its box is lost if it had one. */
  ghost predicate OwnerGone(st: State, st': State, p: Id, x: Id) {
    && p in st.items && p in st'.items && p != x && p in st'.queue
    && OthersSame(st, st', {x, p})
    && st'.items[p] == st.items[p].(container := false)
    && st'.lost == st.lost + (if st.items[p].caption.InBox? then {st.items[p].caption.box} else {})
  }

  lemma CutEmpty(s: seq<Id>, x: Id)
    requires x in s
    ensures Cut(s, IndexIn(s, x)) == [] <==> s == [x]
  {}

  lemma DropItem(st: State, x: Id, o: Owner, k: nat, g: Grid)
    requires x in st.items && o != Of(x) && k < |Kids(st, o)|
    ensures var st' := Drop(st, x, o, k, g);
            && st'.items.Keys == st.items.Keys - {x} && OthersSame(st, st', {x}) && st'.lost == st.lost
            && (forall q :: q != o && q != Of(x) ==> Kids(st', q) == Kids(st, q)) && Kids(st', o) == Cut(Kids(st, o), k)
  {}

  lemma DropLastItem(st: State, x: Id, p: Id, gp: Grid)
    requires x in st.items && p in st.items && p != x && Kids(st, Of(p)) == [x]
    ensures var st' := DropLast(st, x, p, gp);
            && st'.items.Keys == st.items.Keys - {x} && OwnerGone(st, st', p, x)
            && forall q :: q != Of(p) && q != Of(x) ==> Kids(st', q) == Kids(st, q)
  {}

  lemma DropLastKids(st: State, x: Id, p: Id, gp: Grid)
    requires p in st.items && p != x
    ensures Kids(DropLast(st, x, p, gp), Of(p)) == [] == Cut([x], 0) && IndexIn([x], x) == 0
  {}

  lemma RemoveCells(st: State, x: Id, q: Owner)
    requires Inv(st) && CanRemove(st, x) && q in Step(st, DoRemove(x)).grids
    ensures forall c :: c in [Label(x), Button(x), Editor(x), ValueLabel(x), Container(x)] ==>
              c !in Step(st, DoRemove(x)).grids[q]
  {
    var st' := Step(st, DoRemove(x));
    StepInv(st, DoRemove(x));
    RemoveItem(st, x);
    assert OwnerAgrees(st', q);
    NotListed(st', q, x);
    NotShown(st', q, x);
    NoCells(st'.grids[q], Views(st', Kids(st', q)), q.Top?, st'.lost, x);
  }

  lemma NotListed(st: State, q: Owner, x: Id)
    requires Shape(st) && x !in st.items
    ensures x !in Kids(st, q)
  {}

  // ----- setExpanded, slotEditorDestroyed, slotUpdate

  lemma ExpandData(st: State, x: Id, expanded: bool)
    requires Shape(st) && x in st.items
    ensures var st' := Step(st, DoExpand(x, expanded));
            var it := st.items[x];
            && st'.items == st.items[x := if it.container then it.(expanded := expanded) else it]
            && st'.kids == st.kids && st'.queue == st.queue && st'.lost == st.lost
  {
    OwnerHasGrid(st, x);
    assert st.items[x := st.items[x]] == st.items;
  }

  /** An item with a container is open or shut as it was asked to be; an item without one stays as it is. */
  lemma ExpandItem(st: State, x: Id, expanded: bool)
    requires Inv(st) && x in st.items
    ensures var st' := Step(st, DoExpand(x, expanded));
            var it := st.items[x];
            && st'.items == st.items[x := if it.container then it.(expanded := expanded) else it]
            && st'.kids == st.kids && st'.queue == st.queue && st'.lost == st.lost
            && it.parent in st'.grids
            && (it.container ==> (Container(x) in st'.grids[it.parent] <==> expanded))
  {
    ExpandData(st, x, expanded);
    StepInv(st, DoExpand(x, expanded));
    CellsShown(Step(st, DoExpand(x, expanded)), x);
  }

  lemma DropEditorItem(st: State, x: Id)
    requires Inv(st) && x in st.items
    ensures var st' := Step(st, DoDropEditor(x));
            && st'.items == st.items[x := st.items[x].(editor := false)]
            && st'.kids == st.kids && st'.queue == st.queue && st'.lost == st.lost
            && st.items[x].parent in st'.grids && Editor(x) !in st'.grids[st.items[x].parent]
  {
    OwnerHasGrid(st, x);
    StepInv(st, DoDropEditor(x));
    CellsShown(Step(st, DoDropEditor(x)), x);
  }

  lemma RelabelItem(st: State, x: Id)
    requires Shape(st) && x in st.queue
    ensures var st' := Relabel(st, x);
            && Shape(st') && st'.items == st.items[x := st.items[x].(caption := InGrid)]
            && !st.items[x].container && st.items[x].caption != InGrid
            && st'.kids == st.kids && st'.lost == st.lost && |st'.queue| < |st.queue|
  {
    RelabelShape(st, x);
    OwnerHasGrid(st, x);
  }

  /** Every item without a container has its label, and nothing else differs. */
  ghost predicate Labelled(items: map<Id, Item>, items': map<Id, Item>) {
    && items'.Keys == items.Keys
    && forall y :: y in items ==>
         var it := items[y]; items'[y] == it.(caption := if it.container then it.caption else InGrid)
  }

  lemma LabelledMore(items: map<Id, Item>, x: Id, items': map<Id, Item>)
    requires x in items && !items[x].container && Labelled(items[x := items[x].(caption := InGrid)], items')
    ensures Labelled(items, items')
  {}

  lemma NoneWaits(st: State)
    requires Shape(st) && st.queue == []
    ensures Labelled(st.items, st.items)
  {
    forall y | y in st.items
      ensures st.items[y].container || st.items[y].caption == InGrid
    {
      assert y !in st.queue;
    }
  }

  lemma {:induction false} UpdateFrom(st: State)
    requires Shape(st)
    ensures var st' := Update(st);
            st'.kids == st.kids && st'.lost == st.lost && st'.queue == [] && Labelled(st.items, st'.items)
    decreases |st.queue|
  {
    if st.queue == [] {
      NoneWaits(st);
    } else {
      var x, st1 := st.queue[0], Relabel(st, st.queue[0]);
      RelabelItem(st, x);
      UpdateFrom(st1);
      LabelledMore(st.items, x, Update(st1).items);
    }
  }

  /** Every item that shows neither label nor button has its label again, and nothing else changes. */
  lemma UpdateItem(st: State, y: Id)
    requires Inv(st) && y in st.items
    ensures var st' := Step(st, DoUpdate);
            && st'.items.Keys == st.items.Keys && st'.kids == st.kids && st'.lost == st.lost && st'.queue == []
            && var it := st.items[y];
               && st'.items[y] == it.(caption := if it.container then it.caption else InGrid)
               && it.parent in st'.grids && (!it.container ==> Label(y) in st'.grids[it.parent])
  {
    UpdateFrom(st);
    StepInv(st, DoUpdate);
    CellsShown(Step(st, DoUpdate), y);
  }
}
