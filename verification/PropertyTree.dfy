/** The button property browser as a state: the tree of items, one grid per container, and the recreate queue.
    Every operation is a function on states; `Inv` is what every operation keeps. */
module PropertyTree {
  import opened GridAgreement
  import opened Runs

  /** Where an item's label widget is: nowhere, in the item's own cell, or inside the heading box of a vector. */
  datatype Caption = NoLabel | InGrid | InBox(box: nat)

  /** The main area or the item whose container holds the children. */
  datatype Owner = Top | Of(id: Id)

  /** One WidgetItem. Container, layout and expand button come and go together: `container` stands for all three. */
  datatype Item = Item(
    parent: Owner, editor: bool, valueLabel: bool, caption: Caption, container: bool, expanded: bool)

  /** `kids` are the children lists, of the main area and of every item; `nextBox` numbers the heading boxes;
      `lost` are the boxes that no item owns any more. */
  datatype State = State(
    kids: map<Owner, seq<Id>>, items: map<Id, Item>, grids: map<Owner, Grid>, queue: seq<Id>,
    nextBox: nat, lost: set<nat>)

  function HeadingOf(x: Item): Heading {
    if x.container then (if x.caption.InBox? then BoxHead(x.caption.box) else ButtonHead)
    else if x.caption.InGrid? then LabelHead else NoHead
  }

  function ViewOf(id: Id, x: Item): View {
    View(id, HeadingOf(x), x.editor, x.valueLabel, x.container && x.expanded)
  }

  function Kids(st: State, o: Owner): seq<Id> {
    if o in st.kids then st.kids[o] else []
  }

  function ItemAt(st: State, id: Id): Item {
    if id in st.items then st.items[id] else Item(Top, false, false, NoLabel, false, false)
  }

  function Views(st: State, s: seq<Id>): (vs: seq<View>)
    ensures |vs| == |s| && forall i :: 0 <= i < |s| ==> vs[i] == ViewOf(s[i], ItemAt(st, s[i]))
  {
    seq(|s|, i requires 0 <= i < |s| => ViewOf(s[i], ItemAt(st, s[i])))
  }

  ghost predicate NoDup(s: seq<Id>) {
    forall i, j :: 0 <= i < j < |s| ==> s[i] != s[j]
  }

  function IndexIn(s: seq<Id>, x: Id): (k: nat)
    requires x in s
    ensures k < |s| && s[k] == x && x !in s[..k]
  {
    if s[0] == x then 0 else
      var k := 1 + IndexIn(s[1..], x);
      assert s[..k] == [s[0]] + s[1..][..k - 1];
      k
  }

  function Without(s: seq<Id>, x: Id): (r: seq<Id>)
    ensures forall y :: y in r <==> y in s && y != x
    ensures |r| <= |s| && (x in s ==> |r| < |s|)
  {
    if s == [] then [] else if s[0] == x then Without(s[1..], x) else [s[0]] + Without(s[1..], x)
  }

  // ----- the invariant

  ghost predicate KnownOwner(st: State, o: Owner) {
    o.Top? || o.id in st.items
  }

  ghost predicate Tree(st: State) {
    && (forall o :: o in st.kids <==> KnownOwner(st, o))
    && (forall o :: o in st.kids ==> NoDup(st.kids[o]))
    && (forall o, c {:trigger c in st.kids[o]} :: o in st.kids && c in st.kids[o] ==>
          c in st.items && st.items[c].parent == o)
    && (forall c {:trigger st.items[c].parent} :: c in st.items ==>
          st.items[c].parent in st.kids && c in st.kids[st.items[c].parent])
    && (forall c {:trigger st.items[c].container} :: c in st.items ==>
          (st.items[c].container <==> st.kids[Of(c)] != []))
  }

  ghost predicate BoxesBelow(g: Grid, n: nat) {
    forall c :: c in g && c.Box? ==> c.box < n
  }

  ghost predicate HasGrid(st: State, o: Owner) {
    o.Top? || (o.id in st.items && st.items[o.id].container)
  }

  ghost predicate Grids(st: State) {
    && (forall o :: o in st.grids <==> HasGrid(st, o))
    && (forall o :: o in st.grids ==> BoxesBelow(st.grids[o], st.nextBox))
  }

  /** Exactly the items that have neither a container nor a label cell are waiting to be recreated. */
  ghost predicate Queue(st: State) {
    && NoDup(st.queue)
    && (forall x :: x in st.queue <==> x in st.items && HeadingOf(st.items[x]) == NoHead)
    && (forall x :: x in st.items && st.items[x].container ==> !st.items[x].caption.InGrid?)
  }

  ghost predicate OwnerAgrees(st: State, o: Owner)
    requires o in st.grids
  {
    Agrees(st.grids[o], Views(st, Kids(st, o)), o.Top?, st.lost)
  }

  ghost predicate AllAgree(st: State) {
    forall o :: o in st.grids ==> OwnerAgrees(st, o)
  }

  ghost predicate Shape(st: State) {
    Tree(st) && Grids(st) && Queue(st)
  }

  ghost predicate Inv(st: State) {
    Shape(st) && AllAgree(st)
  }

  // ----- the operations

  /** x hangs below an owner that lists it, with a grid, among items that are all known. */
  ghost predicate Listed(st: State, x: Id) {
    && x in st.items && st.items[x].parent in st.grids && x in Kids(st, st.items[x].parent)
    && forall c :: c in Kids(st, st.items[x].parent) ==> c in st.items
  }

  function RowAt(st: State, x: Id): int
    requires x in st.items && x in Kids(st, st.items[x].parent)
  {
    var s := Kids(st, st.items[x].parent);
    RowOf(Views(st, s), IndexIn(s, x))
  }

  const EMPTY := State(map[Top := []], map[], map[Top := map[Spacer := 0]], [], 0, {})

  /** Item x becomes `it` and its owner's grid becomes g. */
  function Edit(st: State, x: Id, it: Item, g: Grid): State {
    st.(items := st.items[x := it], grids := st.grids[it.parent := g])
  }

  /** setExpanded */
  function Expand(st: State, x: Id, expanded: bool): State
    requires x in st.items && x in Kids(st, st.items[x].parent) && st.items[x].parent in st.grids
  {
    var it := st.items[x];
    if it.expanded == expanded || !it.container then st else
      var row := RowAt(st, x);
      var g := st.grids[it.parent];
      Edit(st, x, it.(expanded := expanded), if expanded then Opened(g, x, row) else ClosedUp(g, x, row))
  }

  /** slotEditorDestroyed: the editor is gone and its cell with it. */
  function DropEditor(st: State, x: Id): State
    requires x in st.items && st.items[x].parent in st.grids
  {
    var it := st.items[x];
    Edit(st, x, it.(editor := false), st.grids[it.parent] - {Editor(x)})
  }

  /** One round of slotUpdate: x gets a label cell again. */
  function Relabel(st: State, x: Id): State
    requires x in st.items && x in Kids(st, st.items[x].parent) && st.items[x].parent in st.grids
  {
    var it := st.items[x];
    Edit(st, x, it.(caption := InGrid), st.grids[it.parent][Label(x) := RowAt(st, x)]).(queue := Without(st.queue, x))
  }

  /** The index a new child gets: in front, or right behind its predecessor. */
  function Slot(s: seq<Id>, after: seq<Id>): (k: nat)
    requires |after| <= 1 && forall a :: a in after ==> a in s
    ensures k <= |s|
  {
    if after == [] then 0 else IndexIn(s, after[0]) + 1
  }

  function With(s: seq<Id>, k: nat, x: Id): seq<Id>
    requires k <= |s|
  {
    s[..k] + [x] + s[k..]
  }

  /** Item x is new, the k-th child of o, and o's grid becomes g. */
  function Hang(st: State, x: Id, o: Owner, k: nat, it: Item, g: Grid): State
    requires k <= |Kids(st, o)|
  {
    st.(kids := st.kids[o := With(Kids(st, o), k, x)][Of(x) := []], items := st.items[x := it],
        grids := st.grids[o := g])
  }

  /** An item that gets its first child while it has no container gets one now: the label cell gives way to a
      button, or to a box with label and button. */
  function NewContainer(st: State, p: Id, vector: bool): Item
    requires p in st.items
  {
    st.items[p].(container := true, caption := if vector then InBox(st.nextBox) else NoLabel)
  }

  /** Item x is new, the only child of p; p becomes pit and has a container; the grids of p's owner and of p
      become gp and gx. */
  function HangFirst(st: State, x: Id, p: Id, pit: Item, it: Item, gp: Grid, gx: Grid): State {
    st.(kids := st.kids[Of(p) := [x]][Of(x) := []], items := st.items[p := pit][x := it],
        grids := st.grids[pit.parent := gp][Of(p) := gx], queue := Without(st.queue, p),
        nextBox := if pit.caption.InBox? then st.nextBox + 1 else st.nextBox)
  }

  function NewItem(o: Owner, editor: bool, valueLabel: bool): Item {
    Item(o, editor, valueLabel, InGrid, false, false)
  }

  /** propertyInserted: x becomes a child of o, behind `after` (a sequence of at most one sibling). */
  function Insert(st: State, x: Id, o: Owner, after: seq<Id>, vector: bool, editor: bool, valueLabel: bool): State
    requires o.Of? ==> o.id in st.items && st.items[o.id].parent in st.grids
    requires o.Of? ==> o.id in Kids(st, st.items[o.id].parent)
    requires (o.Top? || st.items[o.id].container) ==> o in st.grids
    requires |after| <= 1 && forall a :: a in after ==> a in Kids(st, o)
  {
    var it := NewItem(o, editor, valueLabel);
    if o.Top? || st.items[o.id].container then
      var k := Slot(Kids(st, o), after);
      var row := RowOf(Views(st, Kids(st, o)), k);
      Hang(st, x, o, k, it, ShiftDown(st.grids[o], row) + NewCells(ViewOf(x, it), row))
    else
      var p := o.id;
      var pit := NewContainer(st, p, vector);
      var gp := st.grids[pit.parent];
      HangFirst(st, x, p, pit, it, Reheaded(gp, ViewOf(p, pit), RowAt(st, p)), NewCells(ViewOf(x, it), 0))
  }

  function Cut(s: seq<Id>, k: nat): seq<Id>
    requires k < |s|
  {
    s[..k] + s[k + 1..]
  }

  /** Item x, the k-th child of o, is gone and o's grid becomes g. */
  function Drop(st: State, x: Id, o: Owner, k: nat, g: Grid): State
    requires k < |Kids(st, o)|
  {
    st.(kids := st.kids[o := Cut(Kids(st, o), k)] - {Of(x)}, items := st.items - {x}, grids := st.grids[o := g],
        queue := Without(st.queue, x))
  }

  /** Item x, the only child of p, is gone, p's container with it, and p waits to be recreated; `expanded` stays. */
  function DropLast(st: State, x: Id, p: Id, gp: Grid): State
    requires p in st.items
  {
    var pit := st.items[p];
    st.(kids := st.kids[Of(p) := []] - {Of(x)}, items := st.items[p := pit.(container := false)] - {x},
        grids := st.grids[pit.parent := gp] - {Of(p)},
        queue := Without(if p in st.queue then st.queue else st.queue + [p], x),
        lost := if pit.caption.InBox? then st.lost + {pit.caption.box} else st.lost)
  }

  /** propertyRemoved, for an item whose children have been removed before. */
  function Remove(st: State, x: Id): State
    requires x in st.items && x in Kids(st, st.items[x].parent) && st.items[x].parent in st.grids
    requires var o := st.items[x].parent; o.Of? ==> o.id in st.items && o.id in Kids(st, st.items[o.id].parent)
    requires var o := st.items[x].parent; o.Of? ==> st.items[o.id].parent in st.grids
  {
    var o := st.items[x].parent;
    var k := IndexIn(Kids(st, o), x);
    if o.Top? || Cut(Kids(st, o), k) != [] then
      Drop(st, x, o, k, ShiftUp(st.grids[o] - OwnCells(x), RowAt(st, x)))
    else
      var pit := st.items[o.id];
      DropLast(st, x, o.id, Folded(st.grids[pit.parent], ViewOf(o.id, pit), RowAt(st, o.id)))
  }

  /** slotUpdate: every waiting item gets its label back. */
  ghost function Update(st: State): State
    requires Shape(st)
    decreases |st.queue|
  {
    if st.queue == [] then st else
      RelabelShape(st, st.queue[0]);
      OwnerHasGrid(st, st.queue[0]);
      Update(Relabel(st, st.queue[0]))
  }

  lemma InitInv()
    ensures Inv(EMPTY)
  {}

  // ----- views of untouched owners

  lemma SameViews(st: State, st': State, o: Owner)
    requires Kids(st', o) == Kids(st, o)
    requires forall c :: c in Kids(st, o) ==> ItemAt(st', c) == ItemAt(st, c)
    ensures Views(st', Kids(st', o)) == Views(st, Kids(st, o))
  {}

  lemma OneView(st: State, st': State, o: Owner, k: nat)
    requires Kids(st', o) == Kids(st, o) && NoDup(Kids(st, o)) && k < |Kids(st, o)|
    requires forall c :: c in Kids(st, o) && c != Kids(st, o)[k] ==> ItemAt(st', c) == ItemAt(st, c)
    ensures Views(st', Kids(st', o)) ==
            Views(st, Kids(st, o))[k := ViewOf(Kids(st, o)[k], ItemAt(st', Kids(st, o)[k]))]
    ensures OnlyAt(Views(st, Kids(st, o)), k)
  {}

  lemma ShiftedBoxes(g: Grid, row: int, x: Id, r: int, n: nat)
    requires BoxesBelow(g, n)
    ensures BoxesBelow(Opened(g, x, row), n) && BoxesBelow(ClosedUp(g, x, row), n)
  {}

  /** An edit that leaves x where it is in the tree, with or without a container as before, keeps the shape. */
  lemma EditShape(st: State, x: Id, it: Item, g: Grid)
    requires Shape(st) && x in st.items && BoxesBelow(g, st.nextBox)
    requires it.parent == st.items[x].parent
    requires it.container == st.items[x].container && it.caption == st.items[x].caption
    ensures Shape(Edit(st, x, it, g))
  {
    EditTree(st, x, it, g);
    EditQueue(st, x, it, g);
    assert forall q :: HasGrid(Edit(st, x, it, g), q) <==> HasGrid(st, q);
  }

  lemma EditTree(st: State, x: Id, it: Item, g: Grid)
    requires Tree(st) && x in st.items && it.parent == st.items[x].parent && it.container == st.items[x].container
    ensures Tree(Edit(st, x, it, g))
  {}

  lemma EditQueue(st: State, x: Id, it: Item, g: Grid)
    requires Queue(st) && x in st.items && it.container == st.items[x].container && it.caption == st.items[x].caption
    ensures Queue(Edit(st, x, it, g))
  {}

  /** An edit below one owner shows in that owner's views alone. */
  lemma EditViews(st: State, x: Id, it: Item, g: Grid, q: Owner)
    requires Shape(st) && x in st.items && q in st.grids
    requires it.parent == st.items[x].parent
    ensures Kids(Edit(st, x, it, g), q) == Kids(st, q)
    ensures Views(Edit(st, x, it, g), Kids(st, q)) ==
            if q != it.parent then Views(st, Kids(st, q))
            else Views(st, Kids(st, q))[IndexIn(Kids(st, q), x) := ViewOf(x, it)]
  {
    var st' := Edit(st, x, it, g);
    assert Kids(st', q) == Kids(st, q);
    if q == it.parent {
      OneView(st, st', q, IndexIn(Kids(st, q), x));
    } else {
      SameViews(st, st', q);
    }
  }

  /** An edit below one owner leaves the agreement of every other owner as it was. */
  lemma EditAgrees(st: State, x: Id, it: Item, g: Grid)
    requires Inv(st) && x in st.items
    requires it.parent == st.items[x].parent
    requires Agrees(g, Views(st, Kids(st, it.parent))[IndexIn(Kids(st, it.parent), x) := ViewOf(x, it)],
                    it.parent.Top?, st.lost)
    ensures AllAgree(Edit(st, x, it, g))
  {
    forall q | q in st.grids
      ensures OwnerAgrees(Edit(st, x, it, g), q)
    {
      EditViews(st, x, it, g, q);
      assert OwnerAgrees(st, q);
    }
  }

  /** What the invariant says about the owner of x. */
  lemma OwnerFacts(st: State, x: Id)
    requires Inv(st) && x in st.items
    ensures var o := st.items[x].parent;
            var s := Kids(st, o);
            && o in st.grids && x in s
            && Agrees(st.grids[o], Views(st, s), o.Top?, st.lost)
            && OnlyAt(Views(st, s), IndexIn(s, x))
  {
    var o := st.items[x].parent;
    OneView(st, st, o, IndexIn(Kids(st, o), x));
    assert OwnerAgrees(st, o);
  }

  lemma ToggledHere(st: State, x: Id, expanded: bool, o: Owner)
    requires x in st.items && st.items[x].parent == o && o in st.grids && x in Kids(st, o)
    requires st.items[x].container && st.items[x].expanded != expanded
    requires OnlyAt(Views(st, Kids(st, o)), IndexIn(Kids(st, o), x))
    requires Agrees(st.grids[o], Views(st, Kids(st, o)), o.Top?, st.lost)
    ensures var g, row := st.grids[o], RowAt(st, x);
            Agrees(if expanded then Opened(g, x, row) else ClosedUp(g, x, row),
                   Views(st, Kids(st, o))[IndexIn(Kids(st, o), x) := ViewOf(x, st.items[x].(expanded := expanded))],
                   o.Top?, st.lost)
  {
    var k := IndexIn(Kids(st, o), x);
    if expanded {
      OpenAgrees(st.grids[o], Views(st, Kids(st, o)), o.Top?, st.lost, k);
    } else {
      CloseAgrees(st.grids[o], Views(st, Kids(st, o)), o.Top?, st.lost, k);
    }
  }

  lemma ExpandInv(st: State, x: Id, expanded: bool)
    requires Inv(st) && x in st.items
    ensures Inv(Expand(st, x, expanded))
  {
    var it := st.items[x];
    if it.expanded != expanded && it.container {
      var o, row, g := it.parent, RowAt(st, x), st.grids[it.parent];
      OwnerFacts(st, x);
      var g' := if expanded then Opened(g, x, row) else ClosedUp(g, x, row);
      ToggledHere(st, x, expanded, o);
      ShiftedBoxes(g, row, x, 0, st.nextBox);
      EditShape(st, x, it.(expanded := expanded), g');
      EditAgrees(st, x, it.(expanded := expanded), g');
    }
  }

  lemma EditorGoneHere(st: State, x: Id, o: Owner)
    requires x in st.items && st.items[x].parent == o && o in st.grids && x in Kids(st, o)
    requires OnlyAt(Views(st, Kids(st, o)), IndexIn(Kids(st, o), x))
    requires Agrees(st.grids[o], Views(st, Kids(st, o)), o.Top?, st.lost)
    ensures Agrees(st.grids[o] - {Editor(x)},
                   Views(st, Kids(st, o))[IndexIn(Kids(st, o), x) := ViewOf(x, st.items[x].(editor := false))],
                   o.Top?, st.lost)
  {
    EditorGoneAgrees(st.grids[o], Views(st, Kids(st, o)), o.Top?, st.lost, IndexIn(Kids(st, o), x));
  }

  lemma DropEditorInv(st: State, x: Id)
    requires Inv(st) && x in st.items
    ensures Inv(DropEditor(st, x))
  {
    var it := st.items[x];
    var o := it.parent;
    OwnerFacts(st, x);
    EditorGoneHere(st, x, o);
    EditShape(st, x, it.(editor := false), st.grids[o] - {Editor(x)});
    EditAgrees(st, x, it.(editor := false), st.grids[o] - {Editor(x)});
  }

  lemma {:induction false} WithoutNoDup(s: seq<Id>, x: Id)
    requires NoDup(s)
    ensures NoDup(Without(s, x))
  {
    if s == [] {
    } else {
      assert s[0] !in s[1..];
      WithoutNoDup(s[1..], x);
    }
  }

  lemma RelabelQueue(st: State, x: Id, it: Item, g: Grid)
    requires Queue(st) && x in st.queue && it == st.items[x].(caption := InGrid)
    ensures Queue(Edit(st, x, it, g).(queue := Without(st.queue, x)))
  {
    WithoutNoDup(st.queue, x);
  }

  lemma LabelledBoxes(g: Grid, x: Id, row: int, n: nat)
    requires BoxesBelow(g, n)
    ensures BoxesBelow(g[Label(x) := row], n)
  {}

  lemma RelabelShape(st: State, x: Id)
    requires Shape(st) && x in st.queue
    ensures Shape(Relabel(st, x))
  {
    var it := st.items[x].(caption := InGrid);
    OwnerHasGrid(st, x);
    LabelledBoxes(st.grids[it.parent], x, RowAt(st, x), st.nextBox);
    RelabelQueue(st, x, it, st.grids[it.parent][Label(x) := RowAt(st, x)]);
    RelabelTree(st, x, it, st.grids[it.parent][Label(x) := RowAt(st, x)]);
  }

  lemma RelabelTree(st: State, x: Id, it: Item, g: Grid)
    requires Tree(st) && Grids(st) && x in st.items && it == st.items[x].(caption := InGrid)
    requires it.parent in st.grids && BoxesBelow(g, st.nextBox)
    ensures var st' := Edit(st, x, it, g).(queue := Without(st.queue, x)); Tree(st') && Grids(st')
  {
    EditTree(st, x, it, g);
    assert forall q :: HasGrid(Edit(st, x, it, g), q) <==> HasGrid(st, q);
  }

  /** The grids do not look at the queue and the box counter. */
  lemma AgreeAnyQueue(st: State, queue: seq<Id>, nextBox: nat)
    requires AllAgree(st)
    ensures AllAgree(st.(queue := queue, nextBox := nextBox))
  {
    var st' := st.(queue := queue, nextBox := nextBox);
    forall q | q in st'.grids
      ensures OwnerAgrees(st', q)
    {
      assert OwnerAgrees(st, q);
      SameViews(st, st', q);
    }
  }

  /** After its round of slotUpdate an item has its label cell, on the item's row. */
  lemma RelabelInv(st: State, x: Id)
    requires Inv(st) && x in st.queue
    ensures Inv(Relabel(st, x))
  {
    var it := st.items[x].(caption := InGrid);
    var g := st.grids[it.parent][Label(x) := RowAt(st, x)];
    OwnerFacts(st, x);
    RelabelAgrees(st.grids[it.parent], Views(st, Kids(st, it.parent)), it.parent.Top?, st.lost,
                  IndexIn(Kids(st, it.parent), x));
    EditAgrees(st, x, it, g);
    AgreeAnyQueue(Edit(st, x, it, g), Without(st.queue, x), st.nextBox);
    RelabelShape(st, x);
  }

  // ----- propertyInserted

  /** The arguments propertyInserted is called with: a new item, a known owner, and a child of that owner or none. */
  ghost predicate CanInsert(st: State, x: Id, o: Owner, after: seq<Id>) {
    x !in st.items && KnownOwner(st, o) && |after| <= 1 && forall a :: a in after ==> a in Kids(st, o)
  }

  lemma OwnerHasGrid(st: State, x: Id)
    requires Shape(st) && x in st.items
    ensures st.items[x].parent in st.grids && x in Kids(st, st.items[x].parent)
  {
    var o := st.items[x].parent;
    assert o.Of? ==> st.items[o.id].container;
  }

  lemma ItemListed(st: State, x: Id)
    requires Shape(st) && x in st.items
    ensures Listed(st, x)
  {
    OwnerHasGrid(st, x);
    assert forall c :: c in st.kids[st.items[x].parent] ==> c in st.items;
  }

  lemma ViewsWith(st: State, st': State, s: seq<Id>, k: nat, x: Id)
    requires k <= |s| && forall c :: c in s ==> ItemAt(st', c) == ItemAt(st, c)
    ensures Views(st', With(s, k, x)) == Inserted(Views(st, s), k, ViewOf(x, ItemAt(st', x)))
  {}

  lemma HangViews(st: State, x: Id, o: Owner, k: nat, it: Item, g: Grid, q: Owner)
    requires Tree(st) && x !in st.items && o in st.kids && q in st.kids && k <= |Kids(st, o)|
    ensures var st' := Hang(st, x, o, k, it, g);
            && Kids(st', q) == (if q == o then With(Kids(st, o), k, x) else Kids(st, q))
            && Views(st', Kids(st', q)) ==
               if q == o then Inserted(Views(st, Kids(st, o)), k, ViewOf(x, it)) else Views(st, Kids(st, q))
  {
    var st' := Hang(st, x, o, k, it, g);
    assert forall c :: c in Kids(st, q) ==> c != x;
    if q == o {
      ViewsWith(st, st', Kids(st, o), k, x);
    } else {
      SameViews(st, st', q);
    }
  }

  lemma NotShown(st: State, o: Owner, x: Id)
    requires x !in Kids(st, o)
    ensures x !in Items(Views(st, Kids(st, o)))
  {}

  lemma NewBoxes(g: Grid, row: int, v: View, n: nat)
    requires BoxesBelow(g, n)
    ensures BoxesBelow(ShiftDown(g, row) + NewCells(v, row), n)
    ensures BoxesBelow(NewCells(v, row), n)
  {}

  lemma HeadBoxes(g: Grid, v: View, row: int, n: nat)
    requires BoxesBelow(g, n)
    ensures v.heading == BoxHead(n) ==> BoxesBelow(Reheaded(g, v, row), n + 1)
    ensures !v.heading.BoxHead? ==> BoxesBelow(Reheaded(g, v, row), n)
  {}

  lemma HangAgrees(st: State, x: Id, o: Owner, k: nat, it: Item, g: Grid)
    requires Tree(st) && Grids(st) && AllAgree(st) && x !in st.items && o in st.grids && k <= |Kids(st, o)|
    requires Agrees(g, Inserted(Views(st, Kids(st, o)), k, ViewOf(x, it)), o.Top?, st.lost)
    ensures AllAgree(Hang(st, x, o, k, it, g))
  {
    forall q | q in st.grids
      ensures OwnerAgrees(Hang(st, x, o, k, it, g), q)
    {
      HangViews(st, x, o, k, it, g, q);
      assert OwnerAgrees(st, q);
    }
  }

  lemma WithNoDup(s: seq<Id>, k: nat, x: Id)
    requires NoDup(s) && k <= |s| && x !in s
    ensures NoDup(With(s, k, x)) && forall c :: c in With(s, k, x) <==> c in s || c == x
  {
    assert With(s, k, x)[k] == x;
  }

  lemma HangTree(st: State, x: Id, o: Owner, k: nat, it: Item, g: Grid)
    requires Tree(st) && x !in st.items && HasGrid(st, o) && k <= |Kids(st, o)|
    requires it.parent == o && !it.container
    ensures Tree(Hang(st, x, o, k, it, g))
  {
    WithNoDup(Kids(st, o), k, x);
  }

  lemma HangShape(st: State, x: Id, o: Owner, k: nat, it: Item, g: Grid)
    requires Shape(st) && x !in st.items && HasGrid(st, o) && k <= |Kids(st, o)| && BoxesBelow(g, st.nextBox)
    requires it == NewItem(o, it.editor, it.valueLabel)
    ensures Shape(Hang(st, x, o, k, it, g))
  {
    HangTree(st, x, o, k, it, g);
    assert Grids(Hang(st, x, o, k, it, g));
  }

  /** A child among siblings, or any child of the main area. */
  lemma InsertHereInv(st: State, x: Id, o: Owner, after: seq<Id>, vector: bool, editor: bool, valueLabel: bool)
    requires Inv(st) && CanInsert(st, x, o, after) && HasGrid(st, o)
    ensures Inv(Insert(st, x, o, after, vector, editor, valueLabel))
  {
    var it := NewItem(o, editor, valueLabel);
    var k := Slot(Kids(st, o), after);
    var row := RowOf(Views(st, Kids(st, o)), k);
    assert OwnerAgrees(st, o);
    NotShown(st, o, x);
    InsertAgrees(st.grids[o], Views(st, Kids(st, o)), o.Top?, st.lost, k, ViewOf(x, it));
    NewBoxes(st.grids[o], row, ViewOf(x, it), st.nextBox);
    HangShape(st, x, o, k, it, ShiftDown(st.grids[o], row) + NewCells(ViewOf(x, it), row));
    HangAgrees(st, x, o, k, it, ShiftDown(st.grids[o], row) + NewCells(ViewOf(x, it), row));
  }

  lemma HangFirstTree(st: State, x: Id, p: Id, pit: Item, it: Item, gp: Grid, gx: Grid)
    requires Tree(st) && x !in st.items && p in st.items && !HasGrid(st, Of(p))
    requires pit.parent == st.items[p].parent && pit.container && it.parent == Of(p) && !it.container
    ensures Tree(HangFirst(st, x, p, pit, it, gp, gx))
  {
    assert st.kids[Of(p)] == [];
  }

  lemma HangFirstGrids(st: State, x: Id, p: Id, pit: Item, it: Item, gp: Grid, gx: Grid)
    requires Grids(st) && x !in st.items && p in st.items && pit.container && !it.container
    requires HasGrid(st, pit.parent)
    requires var st' := HangFirst(st, x, p, pit, it, gp, gx);
             BoxesBelow(gp, st'.nextBox) && BoxesBelow(gx, st'.nextBox)
    ensures Grids(HangFirst(st, x, p, pit, it, gp, gx))
  {}

  lemma HangFirstQueue(st: State, x: Id, p: Id, pit: Item, it: Item, gp: Grid, gx: Grid)
    requires Queue(st) && x !in st.items && p in st.items && pit.container && !pit.caption.InGrid?
    requires HeadingOf(it) == LabelHead
    ensures Queue(HangFirst(st, x, p, pit, it, gp, gx))
  {
    WithoutNoDup(st.queue, p);
  }

  lemma HangFirstShape(st: State, x: Id, p: Id, vector: bool, it: Item, gp: Grid, gx: Grid)
    requires Shape(st) && x !in st.items && p in st.items && !HasGrid(st, Of(p))
    requires it == NewItem(Of(p), it.editor, it.valueLabel)
    requires BoxesBelow(gp, if vector then st.nextBox + 1 else st.nextBox) && BoxesBelow(gx, st.nextBox)
    ensures Shape(HangFirst(st, x, p, NewContainer(st, p, vector), it, gp, gx))
  {
    var pit := NewContainer(st, p, vector);
    HangFirstTree(st, x, p, pit, it, gp, gx);
    OwnerHasGrid(st, p);
    HangFirstGrids(st, x, p, pit, it, gp, gx);
    HangFirstQueue(st, x, p, pit, it, gp, gx);
  }

  lemma KidsKnown(st: State, q: Owner)
    requires Tree(st) && q in st.kids
    ensures NoDup(Kids(st, q))
    ensures forall c :: c in Kids(st, q) ==> c in st.items && st.items[c].parent == q
    ensures forall c :: c in st.items && st.items[c].parent == q ==> c in Kids(st, q)
  {}

  lemma HangFirstViews(st: State, x: Id, p: Id, pit: Item, it: Item, gp: Grid, gx: Grid, q: Owner)
    requires Tree(st) && x !in st.items && p in st.items && q in st.kids && q != Of(p)
    requires pit.parent == st.items[p].parent
    ensures var st' := HangFirst(st, x, p, pit, it, gp, gx);
            && Kids(st', q) == Kids(st, q)
            && (q == pit.parent ==>
                  Views(st', Kids(st', q)) == Views(st, Kids(st, q))[IndexIn(Kids(st, q), p) := ViewOf(p, pit)])
    ensures var st' := HangFirst(st, x, p, pit, it, gp, gx);
            q != pit.parent ==> Views(st', Kids(st', q)) == Views(st, Kids(st, q))
  {
    var st' := HangFirst(st, x, p, pit, it, gp, gx);
    HangFirstItems(st, x, p, pit, it, gp, gx, q);
    if q == pit.parent {
      OneView(st, st', q, IndexIn(Kids(st, q), p));
    } else {
      SameViews(st, st', q);
    }
  }

  /** What becomes of the children of q. */
  lemma HangFirstItems(st: State, x: Id, p: Id, pit: Item, it: Item, gp: Grid, gx: Grid, q: Owner)
    requires Tree(st) && x !in st.items && p in st.items && q in st.kids && q != Of(p)
    requires pit.parent == st.items[p].parent
    ensures var st' := HangFirst(st, x, p, pit, it, gp, gx);
            && Kids(st', q) == Kids(st, q) && NoDup(Kids(st, q)) && (p in Kids(st, q) <==> q == pit.parent)
            && ItemAt(st', p) == pit
            && forall c :: c in Kids(st, q) && c != p ==> ItemAt(st', c) == ItemAt(st, c)
  {
    KidsKnown(st, q);
    assert q != Of(x);
  }

  lemma FirstChildGrid(x: View, lost: set<nat>)
    requires x.heading == LabelHead && !x.open
    ensures Agrees(NewCells(x, 0), [x], false, lost)
  {
    var none: Grid := map[];
    InsertAgrees(none, [], false, lost, 0, x);
    assert ShiftDown(none, 0) + NewCells(x, 0) == NewCells(x, 0);
    assert Inserted([], 0, x) == [x];
  }

  lemma HangFirstOther(st: State, x: Id, p: Id, pit: Item, it: Item, gp: Grid, gx: Grid, q: Owner)
    requires Tree(st) && x !in st.items && p in st.items && q in st.kids && q in st.grids && q != Of(p)
    requires pit.parent == st.items[p].parent && OwnerAgrees(st, q)
    requires var s := Kids(st, pit.parent);
             Agrees(gp, Views(st, s)[IndexIn(s, p) := ViewOf(p, pit)], pit.parent.Top?, st.lost)
    ensures OwnerAgrees(HangFirst(st, x, p, pit, it, gp, gx), q)
  {
    HangFirstViews(st, x, p, pit, it, gp, gx, q);
  }

  lemma HangFirstOwn(st: State, x: Id, p: Id, pit: Item, it: Item, gp: Grid, gx: Grid)
    requires x !in st.items && it == NewItem(Of(p), it.editor, it.valueLabel) && gx == NewCells(ViewOf(x, it), 0)
    requires x != p
    ensures OwnerAgrees(HangFirst(st, x, p, pit, it, gp, gx), Of(p))
  {
    FirstChildGrid(ViewOf(x, it), st.lost);
    assert Views(HangFirst(st, x, p, pit, it, gp, gx), [x]) == [ViewOf(x, it)];
  }

  lemma HangFirstAgrees(st: State, x: Id, p: Id, pit: Item, it: Item, gp: Grid, gx: Grid)
    requires Tree(st) && Grids(st) && AllAgree(st) && x !in st.items && p in st.items && !HasGrid(st, Of(p))
    requires it == NewItem(Of(p), it.editor, it.valueLabel) && pit.parent == st.items[p].parent
    requires gx == NewCells(ViewOf(x, it), 0) && pit.parent in st.grids
    requires var s := Kids(st, pit.parent);
             Agrees(gp, Views(st, s)[IndexIn(s, p) := ViewOf(p, pit)], pit.parent.Top?, st.lost)
    ensures AllAgree(HangFirst(st, x, p, pit, it, gp, gx))
  {
    var st' := HangFirst(st, x, p, pit, it, gp, gx);
    HangFirstOwn(st, x, p, pit, it, gp, gx);
    forall q | q in st'.grids && q != Of(p)
      ensures OwnerAgrees(st', q)
    {
      assert HasGrid(st, q) && OwnerAgrees(st, q);
      HangFirstOther(st, x, p, pit, it, gp, gx, q);
    }
  }

  lemma FirstShape(st: State, x: Id, p: Id, vector: bool, it: Item, gx: Grid)
    requires Shape(st) && x !in st.items && p in st.items && !HasGrid(st, Of(p))
    requires it == NewItem(Of(p), it.editor, it.valueLabel) && gx == NewCells(ViewOf(x, it), 0)
    ensures st.items[p].parent in st.grids && p in Kids(st, st.items[p].parent)
    ensures var pit := NewContainer(st, p, vector);
            Shape(HangFirst(st, x, p, pit, it, Reheaded(st.grids[pit.parent], ViewOf(p, pit), RowAt(st, p)), gx))
  {
    OwnerHasGrid(st, p);
    var pit := NewContainer(st, p, vector);
    HeadBoxes(st.grids[pit.parent], ViewOf(p, pit), RowAt(st, p), st.nextBox);
    NewBoxes(map[], 0, ViewOf(x, it), st.nextBox);
    HangFirstShape(st, x, p, vector, it, Reheaded(st.grids[pit.parent], ViewOf(p, pit), RowAt(st, p)), gx);
  }

  lemma FirstHead(st: State, p: Id, vector: bool)
    requires Inv(st) && p in st.items && !HasGrid(st, Of(p)) && !st.items[p].expanded
    ensures st.items[p].parent in st.grids && p in Kids(st, st.items[p].parent)
    ensures var pit := NewContainer(st, p, vector);
            var s := Kids(st, pit.parent);
            Agrees(Reheaded(st.grids[pit.parent], ViewOf(p, pit), RowAt(st, p)),
                   Views(st, s)[IndexIn(s, p) := ViewOf(p, pit)], pit.parent.Top?, st.lost)
  {
    OwnerFacts(st, p);
    HeadHere(st, p, vector, st.items[p].parent);
  }

  lemma HeadHere(st: State, p: Id, vector: bool, o: Owner)
    requires p in st.items && !st.items[p].container && !st.items[p].expanded && st.items[p].parent == o
    requires o in st.grids && p in Kids(st, o) && OnlyAt(Views(st, Kids(st, o)), IndexIn(Kids(st, o), p))
    requires Agrees(st.grids[o], Views(st, Kids(st, o)), o.Top?, st.lost) && BoxesBelow(st.grids[o], st.nextBox)
    ensures var pit := NewContainer(st, p, vector);
            Agrees(Reheaded(st.grids[o], ViewOf(p, pit), RowAt(st, p)),
                   Views(st, Kids(st, o))[IndexIn(Kids(st, o), p) := ViewOf(p, pit)], o.Top?, st.lost)
  {
    ReheadAgrees(st.grids[o], Views(st, Kids(st, o)), o.Top?, st.lost, IndexIn(Kids(st, o), p),
                 HeadingOf(NewContainer(st, p, vector)));
  }

  /** An item without a container is waiting or shows its label; getting its first child, it agrees again exactly if
      it is not marked as expanded. */
  lemma InsertFirst(st: State, x: Id, p: Id, vector: bool, it: Item, gx: Grid)
    requires Inv(st) && x !in st.items && p in st.items && !HasGrid(st, Of(p))
    requires it == NewItem(Of(p), it.editor, it.valueLabel) && gx == NewCells(ViewOf(x, it), 0)
    ensures st.items[p].parent in st.grids && p in Kids(st, st.items[p].parent)
    ensures var pit := NewContainer(st, p, vector);
            var gp := Reheaded(st.grids[pit.parent], ViewOf(p, pit), RowAt(st, p));
            AllAgree(HangFirst(st, x, p, pit, it, gp, gx)) <==> !st.items[p].expanded
  {
    OwnerHasGrid(st, p);
    if st.items[p].expanded {
      InsertFirstOpen(st, x, p, vector, it, gx);
    } else {
      InsertFirstShut(st, x, p, vector, it, gx);
    }
  }

  lemma InsertFirstOpen(st: State, x: Id, p: Id, vector: bool, it: Item, gx: Grid)
    requires Inv(st) && x !in st.items && p in st.items && !HasGrid(st, Of(p)) && st.items[p].expanded
    requires st.items[p].parent in st.grids && p in Kids(st, st.items[p].parent)
    ensures var pit := NewContainer(st, p, vector);
            var gp := Reheaded(st.grids[pit.parent], ViewOf(p, pit), RowAt(st, p));
            !AllAgree(HangFirst(st, x, p, pit, it, gp, gx))
  {
    var pit := NewContainer(st, p, vector);
    NoContainerCell(st, p);
    OwnerApart(st, p);
    LeftOpen(st, x, p, pit, it, Reheaded(st.grids[pit.parent], ViewOf(p, pit), RowAt(st, p)), gx);
  }

  lemma OwnerApart(st: State, p: Id)
    requires Shape(st) && p in st.items && !HasGrid(st, Of(p))
    ensures st.items[p].parent != Of(p)
  {
    OwnerHasGrid(st, p);
  }

  lemma InsertFirstShut(st: State, x: Id, p: Id, vector: bool, it: Item, gx: Grid)
    requires Inv(st) && x !in st.items && p in st.items && !HasGrid(st, Of(p)) && !st.items[p].expanded
    requires it == NewItem(Of(p), it.editor, it.valueLabel) && gx == NewCells(ViewOf(x, it), 0)
    requires st.items[p].parent in st.grids && p in Kids(st, st.items[p].parent)
    ensures var pit := NewContainer(st, p, vector);
            var gp := Reheaded(st.grids[pit.parent], ViewOf(p, pit), RowAt(st, p));
            AllAgree(HangFirst(st, x, p, pit, it, gp, gx))
  {
    var pit := NewContainer(st, p, vector);
    FirstHead(st, p, vector);
    HangFirstAgrees(st, x, p, pit, it, Reheaded(st.grids[pit.parent], ViewOf(p, pit), RowAt(st, p)), gx);
  }

  lemma NoContainerCell(st: State, p: Id)
    requires Inv(st) && p in st.items && !st.items[p].container
    ensures st.items[p].parent in st.grids && Container(p) !in st.grids[st.items[p].parent]
  {
    OwnerFacts(st, p);
    var s := Kids(st, st.items[p].parent);
    assert Placed(st.grids[st.items[p].parent], Views(st, s)[IndexIn(s, p)], RowOf(Views(st, s), IndexIn(s, p)));
  }

  /** A container made for an item that is still marked as expanded has no cell, and no row was opened for it. */
  lemma LeftOpen(st: State, x: Id, p: Id, pit: Item, it: Item, gp: Grid, gx: Grid)
    requires Tree(st) && x !in st.items && p in st.items && pit.parent != Of(p)
    requires pit.parent == st.items[p].parent && pit.container && pit.expanded && Container(p) !in gp
    ensures !AllAgree(HangFirst(st, x, p, pit, it, gp, gx))
  {
    var o := pit.parent;
    var k := IndexIn(Kids(st, o), p);
    var st' := HangFirst(st, x, p, pit, it, gp, gx);
    HangFirstViews(st, x, p, pit, it, gp, gx, o);
    var vs' := Views(st', Kids(st', o));
    assert o in st'.grids && st'.grids[o] == gp;
    assert !Placed(gp, vs'[k], RowOf(vs', k));
    assert !OwnerAgrees(st', o);
  }

  /** propertyInserted keeps every grid in agreement with the tree, except when it makes a container for an item
      that is still marked as expanded from the time it had one. */
  lemma InsertInv(st: State, x: Id, o: Owner, after: seq<Id>, vector: bool, editor: bool, valueLabel: bool)
    requires Inv(st) && CanInsert(st, x, o, after)
    ensures o.Of? ==> st.items[o.id].parent in st.grids && o.id in Kids(st, st.items[o.id].parent)
    ensures var st' := Insert(st, x, o, after, vector, editor, valueLabel);
            Shape(st') && (AllAgree(st') <==> HasGrid(st, o) || !st.items[o.id].expanded)
  {
    if o.Of? { OwnerHasGrid(st, o.id); }
    if HasGrid(st, o) {
      InsertHereInv(st, x, o, after, vector, editor, valueLabel);
    } else {
      var it := NewItem(o, editor, valueLabel);
      FirstShape(st, x, o.id, vector, it, NewCells(ViewOf(x, it), 0));
      InsertFirst(st, x, o.id, vector, it, NewCells(ViewOf(x, it), 0));
    }
  }

  // ----- propertyRemoved

  /** The removed item has no children: they are removed first. */
  ghost predicate CanRemove(st: State, x: Id) {
    x in st.items && Kids(st, Of(x)) == []
  }

  lemma CutNoDup(s: seq<Id>, k: nat)
    requires NoDup(s) && k < |s|
    ensures NoDup(Cut(s, k)) && forall c :: c in Cut(s, k) <==> c in s && c != s[k]
  {
    forall c | c in s && c != s[k]
      ensures c in Cut(s, k)
    {
      var i :| 0 <= i < |s| && s[i] == c;
      assert Cut(s, k)[if i < k then i else i - 1] == c;
    }
  }

  lemma DropTree(st: State, x: Id, k: nat, g: Grid)
    requires Tree(st) && CanRemove(st, x)
    requires var o := st.items[x].parent;
             k < |Kids(st, o)| && Kids(st, o)[k] == x && (o.Top? || Cut(Kids(st, o), k) != [])
    ensures Tree(Drop(st, x, st.items[x].parent, k, g))
  {
    CutNoDup(Kids(st, st.items[x].parent), k);
  }

  lemma DropQueue(st: State, x: Id, o: Owner, k: nat, g: Grid)
    requires Queue(st) && k < |Kids(st, o)| && x in st.items
    ensures Queue(Drop(st, x, o, k, g))
  {
    WithoutNoDup(st.queue, x);
  }

  lemma DropGrids(st: State, x: Id, o: Owner, k: nat, g: Grid)
    requires Grids(st) && k < |Kids(st, o)| && HasGrid(st, o) && o != Of(x) && !HasGrid(st, Of(x))
    requires BoxesBelow(g, st.nextBox)
    ensures Grids(Drop(st, x, o, k, g))
  {}

  lemma DropShape(st: State, x: Id, k: nat, g: Grid)
    requires Shape(st) && CanRemove(st, x) && BoxesBelow(g, st.nextBox)
    requires var o := st.items[x].parent;
             k < |Kids(st, o)| && Kids(st, o)[k] == x && (o.Top? || Cut(Kids(st, o), k) != [])
    ensures Shape(Drop(st, x, st.items[x].parent, k, g))
  {
    DropTree(st, x, k, g);
    DropQueue(st, x, st.items[x].parent, k, g);
    OwnerHasGrid(st, x);
    DropGrids(st, x, st.items[x].parent, k, g);
  }

  lemma ViewsCut(st: State, st': State, s: seq<Id>, k: nat)
    requires k < |s| && forall c :: c in Cut(s, k) ==> ItemAt(st', c) == ItemAt(st, c)
    ensures Views(st', Cut(s, k)) == Removed(Views(st, s), k)
  {
    assert forall i :: 0 <= i < |Cut(s, k)| ==> Cut(s, k)[i] == s[if i < k then i else i + 1];
  }

  lemma DropViews(st: State, x: Id, k: nat, g: Grid, q: Owner)
    requires Tree(st) && CanRemove(st, x) && q in st.kids && q != Of(x)
    requires var o := st.items[x].parent; k < |Kids(st, o)| && Kids(st, o)[k] == x
    ensures var o := st.items[x].parent;
            var st' := Drop(st, x, o, k, g);
            Views(st', Kids(st', q)) ==
              if q == o then Removed(Views(st, Kids(st, o)), k) else Views(st, Kids(st, q))
  {
    var o := st.items[x].parent;
    var st' := Drop(st, x, o, k, g);
    if q == o {
      CutNoDup(Kids(st, o), k);
      ViewsCut(st, st', Kids(st, o), k);
    } else {
      assert x !in Kids(st, q);
      SameViews(st, st', q);
    }
  }

  lemma DropOwner(st: State, x: Id, k: nat, g: Grid, q: Owner)
    requires Inv(st) && CanRemove(st, x) && q in st.grids
    requires var o := st.items[x].parent;
             && k < |Kids(st, o)| && Kids(st, o)[k] == x
             && Agrees(g, Removed(Views(st, Kids(st, o)), k), o.Top?, st.lost)
    ensures OwnerAgrees(Drop(st, x, st.items[x].parent, k, g), q)
  {
    assert q != Of(x);
    DropViews(st, x, k, g, q);
    assert OwnerAgrees(st, q);
  }

  lemma DroppedBoxes(g: Grid, x: Id, row: int, n: nat)
    requires BoxesBelow(g, n)
    ensures BoxesBelow(ShiftUp(g - OwnCells(x), row), n)
  {}

  lemma DropInv(st: State, x: Id, k: nat, g: Grid)
    requires Inv(st) && CanRemove(st, x) && k == IndexIn(Kids(st, st.items[x].parent), x)
    requires var o := st.items[x].parent;
             && (o.Top? || Cut(Kids(st, o), k) != []) && o in st.grids
             && g == ShiftUp(st.grids[o] - OwnCells(x), RowAt(st, x))
    ensures Inv(Drop(st, x, st.items[x].parent, k, g))
  {
    var o := st.items[x].parent;
    OwnerFacts(st, x);
    RemoveAgrees(st.grids[o], Views(st, Kids(st, o)), o.Top?, st.lost, k);
    DroppedBoxes(st.grids[o], x, RowAt(st, x), st.nextBox);
    DropShape(st, x, k, g);
    forall q | q in Drop(st, x, o, k, g).grids
      ensures OwnerAgrees(Drop(st, x, o, k, g), q)
    {
      DropOwner(st, x, k, g, q);
    }
  }

  lemma DropLastPlaces(st: State, x: Id, p: Id)
    requires Tree(st) && CanRemove(st, x) && Kids(st, Of(p)) == [x]
    ensures p in st.items && x != p && st.items[p].parent != Of(p) && st.items[p].parent != Of(x)
    ensures st.items[x].parent == Of(p)
  {
    assert st.kids[Of(p)] == [x] && x in st.kids[Of(p)];
    assert st.items[x].parent == Of(p);
    assert x != p;
    assert p in st.kids[st.items[p].parent];
  }

  lemma DropLastTree(st: State, x: Id, p: Id, gp: Grid)
    requires Tree(st) && CanRemove(st, x) && Kids(st, Of(p)) == [x]
    ensures p in st.items && x != p && st.items[p].parent != Of(p) && st.items[p].parent != Of(x)
    ensures st.items[x].parent == Of(p)
    ensures Tree(DropLast(st, x, p, gp))
  {
    DropLastPlaces(st, x, p);
  }

  lemma DropLastQueue(st: State, x: Id, p: Id, gp: Grid)
    requires Queue(st) && x in st.items && p in st.items && x != p && st.items[p].container
    ensures Queue(DropLast(st, x, p, gp))
  {
    WithoutNoDup(if p in st.queue then st.queue else st.queue + [p], x);
  }

  lemma DropLastGrids(st: State, x: Id, p: Id, gp: Grid)
    requires Grids(st) && p in st.items && x != p && !HasGrid(st, Of(x))
    requires HasGrid(st, st.items[p].parent) && st.items[p].parent != Of(p) && BoxesBelow(gp, st.nextBox)
    ensures Grids(DropLast(st, x, p, gp))
  {}

  lemma DropLastViews(st: State, x: Id, p: Id, gp: Grid, q: Owner)
    requires Tree(st) && CanRemove(st, x) && Kids(st, Of(p)) == [x] && q in st.kids && q != Of(x) && q != Of(p)
    ensures p in st.items
    ensures var st' := DropLast(st, x, p, gp);
            var o := st.items[p].parent;
            && Kids(st', q) == Kids(st, q)
            && (q == o ==>
                  Views(st', Kids(st', q)) ==
                  Views(st, Kids(st, q))[IndexIn(Kids(st, q), p) := ViewOf(p, st.items[p].(container := false))])
    ensures var st' := DropLast(st, x, p, gp);
            q != st.items[p].parent ==> Views(st', Kids(st', q)) == Views(st, Kids(st, q))
  {
    DropLastPlaces(st, x, p);
    var st' := DropLast(st, x, p, gp);
    assert x !in Kids(st, q);
    assert Kids(st', q) == Kids(st, q);
    if q == st.items[p].parent {
      OneView(st, st', q, IndexIn(Kids(st, q), p));
    } else {
      assert p !in Kids(st, q);
      SameViews(st, st', q);
    }
  }

  lemma MoreLost(g: Grid, vs: seq<View>, spacer: bool, lost: set<nat>, lost': set<nat>)
    requires Agrees(g, vs, spacer, lost) && lost <= lost'
    ensures Agrees(g, vs, spacer, lost')
  {
    forall c | c in g
      ensures Belongs(c, Items(vs), Boxes(vs) + lost', spacer)
    {
      assert Belongs(c, Items(vs), Boxes(vs) + lost, spacer);
    }
  }

  lemma DropLastOther(st: State, x: Id, p: Id, gp: Grid, q: Owner)
    requires Tree(st) && CanRemove(st, x) && Kids(st, Of(p)) == [x] && p in st.items
    requires q in st.grids && q in st.kids && q != Of(x) && q != Of(p) && q != st.items[p].parent
    requires OwnerAgrees(st, q)
    ensures q in DropLast(st, x, p, gp).grids && OwnerAgrees(DropLast(st, x, p, gp), q)
  {
    DropLastViews(st, x, p, gp, q);
    MoreLost(st.grids[q], Views(st, Kids(st, q)), q.Top?, st.lost, DropLast(st, x, p, gp).lost);
  }

  lemma DropLastOwner(st: State, x: Id, p: Id, gp: Grid)
    requires Shape(st) && CanRemove(st, x) && Kids(st, Of(p)) == [x] && p in st.items
    requires var o := st.items[p].parent;
             && p in Kids(st, o)
             && Agrees(gp, Views(st, Kids(st, o))[IndexIn(Kids(st, o), p) :=
                                                  ViewOf(p, st.items[p].(container := false))],
                       o.Top?, DropLast(st, x, p, gp).lost)
    ensures st.items[p].parent in DropLast(st, x, p, gp).grids
    ensures OwnerAgrees(DropLast(st, x, p, gp), st.items[p].parent)
  {
    DropLastTree(st, x, p, gp);
    DropLastViews(st, x, p, gp, st.items[p].parent);
  }

  lemma FoldedBoxes(g: Grid, v: View, row: int, n: nat)
    requires BoxesBelow(g, n)
    ensures BoxesBelow(Folded(g, v, row), n)
  {}

  lemma FoldOwner(st: State, p: Id)
    requires Inv(st) && p in st.items && st.items[p].container
    ensures st.items[p].parent in st.grids && p in Kids(st, st.items[p].parent)
    ensures var pit := st.items[p];
            var o := pit.parent;
            Agrees(Folded(st.grids[o], ViewOf(p, pit), RowAt(st, p)),
                   Views(st, Kids(st, o))[IndexIn(Kids(st, o), p) := ViewOf(p, pit.(container := false))], o.Top?,
                   if pit.caption.InBox? then st.lost + {pit.caption.box} else st.lost)
  {
    OwnerFacts(st, p);
    assert !st.items[p].caption.InGrid?;
    FoldHere(st, p, st.items[p].parent);
  }

  lemma FoldHere(st: State, p: Id, o: Owner)
    requires p in st.items && st.items[p].container && !st.items[p].caption.InGrid? && st.items[p].parent == o
    requires o in st.grids && p in Kids(st, o) && OnlyAt(Views(st, Kids(st, o)), IndexIn(Kids(st, o), p))
    requires Agrees(st.grids[o], Views(st, Kids(st, o)), o.Top?, st.lost)
    ensures var pit := st.items[p];
            Agrees(Folded(st.grids[o], ViewOf(p, pit), RowAt(st, p)),
                   Views(st, Kids(st, o))[IndexIn(Kids(st, o), p) := ViewOf(p, pit.(container := false))], o.Top?,
                   if pit.caption.InBox? then st.lost + {pit.caption.box} else st.lost)
  {
    FoldAgrees(st.grids[o], Views(st, Kids(st, o)), o.Top?, st.lost, IndexIn(Kids(st, o), p));
  }

  /** The last child of p goes: p's container goes with it and p waits for its label. */
  lemma DropLastInv(st: State, x: Id, p: Id, gp: Grid)
    requires Inv(st) && CanRemove(st, x) && Kids(st, Of(p)) == [x] && p in st.items
    requires st.items[p].parent in st.grids && p in Kids(st, st.items[p].parent)
    requires gp == Folded(st.grids[st.items[p].parent], ViewOf(p, st.items[p]), RowAt(st, p))
    ensures Inv(DropLast(st, x, p, gp))
  {
    DropLastTree(st, x, p, gp);
    DropLastQueue(st, x, p, gp);
    FoldedBoxes(st.grids[st.items[p].parent], ViewOf(p, st.items[p]), RowAt(st, p), st.nextBox);
    DropLastGrids(st, x, p, gp);
    FoldOwner(st, p);
    DropLastOwner(st, x, p, gp);
    forall q | q in DropLast(st, x, p, gp).grids && q != st.items[p].parent
      ensures OwnerAgrees(DropLast(st, x, p, gp), q)
    {
      assert q != Of(x) && q != Of(p) && OwnerAgrees(st, q);
      DropLastOther(st, x, p, gp, q);
    }
  }

  lemma CanRemoveOwners(st: State, x: Id)
    requires Shape(st) && x in st.items
    ensures var o := st.items[x].parent;
            && o in st.grids && x in Kids(st, o)
            && (o.Of? ==> o.id in st.items && st.items[o.id].parent in st.grids &&
                          o.id in Kids(st, st.items[o.id].parent))
  {
    OwnerHasGrid(st, x);
    if st.items[x].parent.Of? { OwnerHasGrid(st, st.items[x].parent.id); }
  }

  /** propertyRemoved keeps every grid in agreement with the tree. */
  lemma RemoveInv(st: State, x: Id)
    requires Inv(st) && CanRemove(st, x)
    ensures var o := st.items[x].parent;
            && o in st.grids && x in Kids(st, o)
            && (o.Of? ==> o.id in st.items && st.items[o.id].parent in st.grids &&
                          o.id in Kids(st, st.items[o.id].parent))
    ensures Inv(Remove(st, x))
  {
    CanRemoveOwners(st, x);
    var o := st.items[x].parent;
    var k := IndexIn(Kids(st, o), x);
    if o.Top? || Cut(Kids(st, o), k) != [] {
      DropInv(st, x, k, ShiftUp(st.grids[o] - OwnCells(x), RowAt(st, x)));
    } else {
      assert Kids(st, o) == [x];
      var pit := st.items[o.id];
      DropLastInv(st, x, o.id, Folded(st.grids[pit.parent], ViewOf(o.id, pit), RowAt(st, o.id)));
    }
  }

  /** slotUpdate keeps the grids in agreement, and afterwards every item shows a label, a button or a box. */
  lemma {:induction false} UpdateInv(st: State)
    requires Inv(st)
    ensures Inv(Update(st)) && Update(st).queue == []
    ensures forall x :: x in Update(st).items ==> HeadingOf(Update(st).items[x]) != NoHead
    decreases |st.queue|
  {
    if st.queue == [] {
    } else {
      RelabelInv(st, st.queue[0]);
      UpdateInv(Relabel(st, st.queue[0]));
    }
  }

  // ----- runs

  datatype Op =
    | DoInsert(x: Id, owner: Owner, after: seq<Id>, vector: bool, editor: bool, valueLabel: bool)
    | DoRemove(x: Id)
    | DoExpand(x: Id, expanded: bool)
    | DoDropEditor(x: Id)
    | DoUpdate

  /** What the calls of the browser bring with them. */
  ghost predicate Possible(st: State, op: Op) {
    match op
    case DoInsert(x, o, after, _, _, _) => CanInsert(st, x, o, after)
    case DoRemove(x) => CanRemove(st, x)
    case DoExpand(x, _) => x in st.items
    case DoDropEditor(x) => x in st.items
    case DoUpdate => true
  }

  /** The one contract: no container is made for an item that is still marked as expanded. */
  ghost predicate Legal(st: State, op: Op) {
    Possible(st, op) && (op.DoInsert? ==> HasGrid(st, op.owner) || !st.items[op.owner.id].expanded)
  }

  ghost function Step(st: State, op: Op): State {
    if !Shape(st) || !Possible(st, op) then st else
      match op
      case DoInsert(x, o, after, v, e, l) =>
        if o.Of? then OwnerHasGrid(st, o.id); Insert(st, x, o, after, v, e, l) else Insert(st, x, o, after, v, e, l)
      case DoRemove(x) => CanRemoveOwners(st, x); Remove(st, x)
      case DoExpand(x, e) => OwnerHasGrid(st, x); Expand(st, x, e)
      case DoDropEditor(x) => OwnerHasGrid(st, x); DropEditor(st, x)
      case DoUpdate => Update(st)
  }

  lemma StepInv(st: State, op: Op)
    requires Inv(st) && Legal(st, op)
    ensures Inv(Step(st, op))
  {
    match op
    case DoInsert(x, o, after, v, e, l) => InsertInv(st, x, o, after, v, e, l);
    case DoRemove(x) => RemoveInv(st, x);
    case DoExpand(x, e) => ExpandInv(st, x, e);
    case DoDropEditor(x) => DropEditorInv(st, x);
    case DoUpdate => UpdateInv(st);
  }

  /** ops is a run from st, every operation legal where it happens. */
  ghost predicate LegalRun(st: State, ops: seq<Op>) {
    Allowed((s, op) => Legal(s, op), (s, op) => Step(s, op), st, ops)
  }

  ghost function After(st: State, ops: seq<Op>): State {
    Run((s, op) => Step(s, op), st, ops)
  }

  lemma StepsKeepInv()
    ensures Keeps(st => Inv(st), (s, op) => Legal(s, op), (s, op) => Step(s, op))
  {
    forall st: State, op: Op | Inv(st) && Legal(st, op)
      ensures Inv(Step(st, op))
    {
      StepInv(st, op);
    }
  }

  lemma RunInv(ops: seq<Op>)
    requires LegalRun(EMPTY, ops)
    ensures Inv(After(EMPTY, ops))
  {
    InitInv();
    StepsKeepInv();
    RunKeeps(st => Inv(st), (s, op) => Legal(s, op), (s, op) => Step(s, op), EMPTY, ops);
  }

  // ----- where it fails

  lemma StepRemoveLast(st: State, p: Id, x: Id) returns (gp: Grid)
    requires Shape(st) && CanRemove(st, x) && Kids(st, Of(p)) == [x]
    ensures p in st.items && x != p && Step(st, DoRemove(x)) == DropLast(st, x, p, gp)
    ensures st.items[p].parent in st.grids && p in Kids(st, st.items[p].parent)
    ensures gp == Folded(st.grids[st.items[p].parent], ViewOf(p, st.items[p]), RowAt(st, p))
  {
    DropLastPlaces(st, x, p);
    CanRemoveOwners(st, x);
    gp := Folded(st.grids[st.items[p].parent], ViewOf(p, st.items[p]), RowAt(st, p));
    assert Cut([x], 0) == [];
  }

  lemma StepExpandNothing(st: State, p: Id, e: bool)
    requires p in st.items && !st.items[p].container
    ensures Step(st, DoExpand(p, e)) == st
  {
    if Shape(st) { OwnerHasGrid(st, p); }
  }

  lemma StepInsertBreaks(st: State, op: Op)
    requires Inv(st) && op.DoInsert? && Possible(st, op) && !Legal(st, op)
    ensures !AllAgree(Step(st, op))
  {
    InsertInv(st, op.x, op.owner, op.after, op.vector, op.editor, op.valueLabel);
  }

  /** ops is a run of calls that the browser can get, legal or not. */
  ghost predicate PossibleRun(st: State, ops: seq<Op>) {
    Allowed((s, op) => Possible(s, op), (s, op) => Step(s, op), st, ops)
  }

  ghost predicate AgreeThroughout(st: State, ops: seq<Op>) {
    Throughout(s => AllAgree(s), (s, op) => Step(s, op), st, ops)
  }

  lemma LegalDecides()
    ensures Decides(s => AllAgree(s), s => Inv(s), (s, op) => Possible(s, op), (s, op) => Legal(s, op),
                    (s, op) => Step(s, op))
  {
    forall st: State, op: Op | Inv(st) && Possible(st, op)
      ensures if Legal(st, op) then Inv(Step(st, op)) else !AllAgree(Step(st, op))
    {
      if Legal(st, op) { StepInv(st, op); } else { StepInsertBreaks(st, op); }
    }
  }

  /** From the empty browser on, all grids agree with the tree at every moment of a run of possible calls if and only
      if no container is made in it for an item that is still marked as expanded. */
  lemma AgreeThroughoutIff(ops: seq<Op>)
    requires PossibleRun(EMPTY, ops)
    ensures AgreeThroughout(EMPTY, ops) <==> LegalRun(EMPTY, ops)
  {
    InitInv();
    LegalDecides();
    ThroughoutIff(s => AllAgree(s), s => Inv(s), (s, op) => Possible(s, op), (s, op) => Legal(s, op),
                  (s, op) => Step(s, op), EMPTY, ops);
  }

  /** Removing the last child of an expanded item leaves it marked as expanded; setExpanded cannot clear the mark any
      more, and the next child that comes breaks the grid. */
  lemma StuckOpen(st: State, p: Id, x: Id, again: Op)
    requires Inv(st) && CanRemove(st, x) && Kids(st, Of(p)) == [x] && p in st.items && st.items[p].expanded
    requires again.DoInsert? && again.x !in st.items && again.owner == Of(p) && again.after == []
    ensures var st' := Step(st, DoRemove(x));
            && Inv(st') && (forall e :: Step(st', DoExpand(p, e)) == st')
            && Possible(st', again) && !AllAgree(Step(st', again))
  {
    StepInv(st, DoRemove(x));
    var gp := StepRemoveLast(st, p, x);
    var st' := Step(st, DoRemove(x));
    assert p in st'.items && !st'.items[p].container && st'.items[p].expanded && again.x !in st'.items;
    forall e
      ensures Step(st', DoExpand(p, e)) == st'
    {
      StepExpandNothing(st', p, e);
    }
    StepInsertBreaks(st', again);
  }

  lemma DropLastUntidy(st: State, p: Id, gp: Grid, x: Id)
    requires Inv(st) && CanRemove(st, x) && Kids(st, Of(p)) == [x] && p in st.items && st.items[p].caption.InBox?
    requires st.items[p].parent in st.grids && p in Kids(st, st.items[p].parent)
    requires gp == Folded(st.grids[st.items[p].parent], ViewOf(p, st.items[p]), RowAt(st, p))
    ensures var st' := DropLast(st, x, p, gp);
            var o := st.items[p].parent;
            o in st'.grids && !Tidy(st'.grids[o], Views(st', Kids(st', o)))
  {
    var o := st.items[p].parent;
    DropLastPlaces(st, x, p);
    OwnerFacts(st, p);
    DropLastViews(st, x, p, gp, o);
    FoldUntidy(st, p, o);
  }

  lemma FoldUntidy(st: State, p: Id, o: Owner)
    requires p in st.items && st.items[p].container && st.items[p].caption.InBox? && p in Kids(st, o) && o in st.grids
    requires AllPlaced(st.grids[o], Views(st, Kids(st, o))) && st.items[p].parent == o
    ensures !Tidy(Folded(st.grids[o], ViewOf(p, st.items[p]), RowAt(st, p)),
                  Views(st, Kids(st, o))[IndexIn(Kids(st, o), p) := ViewOf(p, st.items[p].(container := false))])
  {
    FoldLeavesBox(st.grids[o], Views(st, Kids(st, o)), IndexIn(Kids(st, o), p));
  }

  /** A vector that loses its last child leaves its heading box in the grid. */
  lemma LeftBehind(st: State, p: Id, x: Id)
    requires Inv(st) && CanRemove(st, x) && Kids(st, Of(p)) == [x] && p in st.items && st.items[p].caption.InBox?
    ensures var st' := Step(st, DoRemove(x));
            var o := st.items[p].parent;
            o in st'.grids && !Tidy(st'.grids[o], Views(st', Kids(st', o)))
  {
    var gp := StepRemoveLast(st, p, x);
    DropLastUntidy(st, p, gp, x);
  }

  const ADD_ITEM := DoInsert(0, Top, [], false, false, false)
  const ADD_CHILD := DoInsert(1, Of(0), [], false, false, false)
  const ADD_CHILD_AGAIN := DoInsert(2, Of(0), [], false, false, false)

  lemma StepInsertTop(st: State, op: Op)
    requires Shape(st) && op.DoInsert? && Possible(st, op) && op.owner == Top && op.after == []
    ensures Step(st, op).kids == st.kids[Top := With(Kids(st, Top), 0, op.x)][Of(op.x) := []]
    ensures Step(st, op).items == st.items[op.x := NewItem(Top, op.editor, op.valueLabel)]
  {}

  lemma StepInsertFirst(st: State, op: Op, p: Id)
    requires Shape(st) && op.DoInsert? && Possible(st, op) && op.owner == Of(p) && !HasGrid(st, Of(p))
    ensures Step(st, op).kids == st.kids[Of(p) := [op.x]][Of(op.x) := []]
    ensures Step(st, op).items ==
            st.items[p := NewContainer(st, p, op.vector)][op.x := NewItem(Of(p), op.editor, op.valueLabel)]
  {
    OwnerHasGrid(st, p);
  }

  lemma StepExpandItem(st: State, p: Id, e: bool)
    requires Shape(st) && p in st.items && st.items[p].container
    ensures Step(st, DoExpand(p, e)).kids == st.kids
    ensures Step(st, DoExpand(p, e)).items == st.items[p := st.items[p].(expanded := e)]
  {
    OwnerHasGrid(st, p);
  }

  /** What the states of the example look like: the kids of the main area and of items 0 and 1. */
  ghost predicate NoItems(st: State) {
    st.kids == map[Top := []] && st.items == map[]
  }

  ghost predicate OneItem(st: State) {
    && st.kids == map[Top := [0], Of(0) := []]
    && st.items.Keys == {0} && !st.items[0].container && !st.items[0].expanded
  }

  ghost predicate TwoItems(st: State, expanded: bool) {
    && Kids(st, Of(0)) == [1] && Kids(st, Of(1)) == []
    && st.items.Keys == {0, 1} && st.items[0].container && (expanded ==> st.items[0].expanded)
  }

  lemma ItemLegal(e: State, op: Op)
    requires NoItems(e) && op == ADD_ITEM
    ensures Legal(e, op)
  {}

  lemma ItemNext(e: State, op: Op)
    requires NoItems(e) && Shape(e) && op == ADD_ITEM
    ensures OneItem(Step(e, op))
  {
    ItemLegal(e, op);
    StepInsertTop(e, op);
    assert With([], 0, 0) == [0];
  }

  lemma ChildLegal(st: State, op: Op)
    requires OneItem(st) && op == ADD_CHILD
    ensures Legal(st, op) && !HasGrid(st, Of(0))
  {}

  lemma ChildNext(st: State, op: Op)
    requires OneItem(st) && Shape(st) && op == ADD_CHILD
    ensures TwoItems(Step(st, op), false)
  {
    ChildLegal(st, op);
    StepInsertFirst(st, op, 0);
  }

  lemma ExpandNext(st: State, op: Op)
    requires TwoItems(st, false) && Shape(st) && op == DoExpand(0, true)
    ensures TwoItems(Step(st, op), true)
  {
    StepExpandItem(st, 0, true);
  }

  /** The run of the example, from any state that looks like the empty one. */
  lemma ExampleStates(e: State, a: Op, b: Op, c: Op)
    requires Inv(e) && NoItems(e) && a == ADD_ITEM && b == ADD_CHILD && c == DoExpand(0, true)
    ensures var st2 := Step(Step(e, a), b);
            Legal(e, a) && Legal(Step(e, a), b) && Legal(st2, c) && Inv(Step(st2, c)) && TwoItems(Step(st2, c), true)
  {
    ItemLegal(e, a);
    StepInv(e, a);
    ItemNext(e, a);
    ChildLegal(Step(e, a), b);
    StepInv(Step(e, a), b);
    ChildNext(Step(e, a), b);
    StepInv(Step(Step(e, a), b), c);
    ExpandNext(Step(Step(e, a), b), c);
  }

  lemma ExampleRun(e: State, a: Op, b: Op, c: Op, d: Op, again: Op)
    requires Inv(e) && NoItems(e)
    requires a == ADD_ITEM && b == ADD_CHILD && c == DoExpand(0, true) && d == DoRemove(1) && again == ADD_CHILD_AGAIN
    ensures LegalRun(e, [a, b, c, d])
    ensures Possible(After(e, [a, b, c, d]), again) && !AllAgree(Step(After(e, [a, b, c, d]), again))
  {
    ExampleStates(e, a, b, c);
    ExampleEnd(Step(Step(Step(e, a), b), c), d, again);
    FourSteps((s, op) => Legal(s, op), (s, op) => Step(s, op), e, a, b, c, d);
  }

  lemma ExampleEnd(st: State, d: Op, again: Op)
    requires Inv(st) && TwoItems(st, true) && d == DoRemove(1) && again == ADD_CHILD_AGAIN
    ensures Legal(st, d) && Possible(Step(st, d), again) && !AllAgree(Step(Step(st, d), again))
  {
    StuckOpen(st, 0, 1, again);
  }

  /** A run into trouble: an item, a child, expand, the child goes, another child comes. */
  lemma StuckOpenExample()
    ensures var ops := [ADD_ITEM, ADD_CHILD, DoExpand(0, true), DoRemove(1)];
            && LegalRun(EMPTY, ops) && Possible(After(EMPTY, ops), ADD_CHILD_AGAIN)
            && !AllAgree(Step(After(EMPTY, ops), ADD_CHILD_AGAIN))
  {
    InitInv();
    ExampleRun(EMPTY, ADD_ITEM, ADD_CHILD, DoExpand(0, true), DoRemove(1), ADD_CHILD_AGAIN);
  }

  lemma FourSteps<S, O>(allowed: (S, O) -> bool, step: (S, O) -> S, st: S, a: O, b: O, c: O, d: O)
    ensures var st3 := step(step(step(st, a), b), c);
            && Run(step, st, [a, b, c, d]) == step(st3, d)
            && (Allowed(allowed, step, st, [a, b, c, d]) <==>
                  allowed(st, a) && allowed(step(st, a), b) && allowed(step(step(st, a), b), c) && allowed(st3, d))
  {
    var st1, st2, st3 := step(st, a), step(step(st, a), b), step(step(step(st, a), b), c);
    assert [a] + [b, c, d] == [a, b, c, d] && [b] + [c, d] == [b, c, d] && [c] + [d] == [c, d] && [d] + [] == [d];
    OneStep(allowed, step, st, a, [b, c, d]);
    OneStep(allowed, step, st1, b, [c, d]);
    OneStep(allowed, step, st2, c, [d]);
    OneStep(allowed, step, st3, d, []);
  }
}
