/** Operations of the property browser that undo each other, and where an insertion puts the new item. */
module PropertyRoundTrips {
  import opened GridAgreement
  import opened PropertyTree

  // ----- expand and collapse

  lemma OpenClose(g: Grid, x: Id, row: int)
    requires Container(x) !in g
    ensures ClosedUp(Opened(g, x, row), x, row) == g
  {
    assert Opened(g, x, row) - {Container(x)} == ShiftDown(g, row + 1);
    ShiftRoundTrip(g, row + 1);
  }

  /** An edit of x that leaves it below its owner does not move its row. */
  lemma RowStays(st: State, x: Id, it: Item, g: Grid)
    requires Shape(st) && x in st.items && st.items[x].parent in st.grids && x in Kids(st, st.items[x].parent)
    requires it.parent == st.items[x].parent
    ensures Kids(Edit(st, x, it, g), it.parent) == Kids(st, it.parent)
    ensures RowAt(Edit(st, x, it, g), x) == RowAt(st, x)
  {
    var s := Kids(st, it.parent);
    EditViews(st, x, it, g, it.parent);
    RowsUpdated(Views(st, s), IndexIn(s, x), ViewOf(x, it), IndexIn(s, x));
  }

  /** Expanding and collapsing an item again changes nothing, however many items are around it. */
  lemma ExpandCollapse(st: State, x: Id)
    requires Inv(st) && x in st.items && st.items[x].container && !st.items[x].expanded
    ensures x in Kids(st, st.items[x].parent) && st.items[x].parent in st.grids
    ensures var st' := Expand(st, x, true);
            && x in st'.items && st'.items[x].parent in st'.grids && x in Kids(st', st'.items[x].parent)
            && Expand(st', x, false) == st
  {
    OwnerFacts(st, x);
    var it, o := st.items[x], st.items[x].parent;
    var s, g, row := Kids(st, o), st.grids[o], RowAt(st, x);
    assert Placed(g, Views(st, s)[IndexIn(s, x)], RowOf(Views(st, s), IndexIn(s, x)));
    RowStays(st, x, it.(expanded := true), Opened(g, x, row));
    OpenClose(g, x, row);
    EditTwice(st, x, it, it.(expanded := true), g, Opened(g, x, row));
  }

  lemma EditTwice(st: State, x: Id, it: Item, other: Item, g: Grid, h: Grid)
    requires x in st.items && st.items[x] == it && it.parent == other.parent
    requires it.parent in st.grids && st.grids[it.parent] == g
    ensures Edit(Edit(st, x, other, h), x, it, g) == st
  {
    assert st.items[x := other][x := it] == st.items;
    assert st.grids[it.parent := h][it.parent := g] == st.grids;
  }

  // ----- insert and remove

  /** Where the new item is: directly behind its predecessor or in front; the others stay in their order, and no
      other list changes. */
  lemma InsertPlaces(st: State, x: Id, o: Owner, after: seq<Id>, vector: bool, editor: bool, valueLabel: bool)
    requires Inv(st) && CanInsert(st, x, o, after)
    ensures o.Of? ==> st.items[o.id].parent in st.grids && o.id in Kids(st, st.items[o.id].parent)
    ensures var st' := Insert(st, x, o, after, vector, editor, valueLabel);
            var s := Kids(st', o);
            && x in s && Cut(s, IndexIn(s, x)) == Kids(st, o)
            && (if after == [] then s[0] == x else IndexIn(s, x) > 0 && s[IndexIn(s, x) - 1] == after[0])
            && forall q :: q != o && q != Of(x) ==> Kids(st', q) == Kids(st, q)
  {
    InsertKids(st, x, o, after, vector, editor, valueLabel);
    PlaceOf(Kids(st, o), after, x);
  }

  lemma PlaceOf(kids: seq<Id>, after: seq<Id>, x: Id)
    requires x !in kids && |after| <= 1 && forall a :: a in after ==> a in kids
    ensures var s := With(kids, Slot(kids, after), x);
            && x in s && Cut(s, IndexIn(s, x)) == kids
            && if after == [] then s[0] == x else IndexIn(s, x) > 0 && s[IndexIn(s, x) - 1] == after[0]
  {
    NewInKids(kids, Slot(kids, after), x);
  }

  lemma InsertKids(st: State, x: Id, o: Owner, after: seq<Id>, vector: bool, editor: bool, valueLabel: bool)
    requires Shape(st) && CanInsert(st, x, o, after)
    ensures x !in Kids(st, o)
    ensures o.Of? ==> st.items[o.id].parent in st.grids && o.id in Kids(st, st.items[o.id].parent)
    ensures var st' := Insert(st, x, o, after, vector, editor, valueLabel);
            && Kids(st', o) == With(Kids(st, o), Slot(Kids(st, o), after), x)
            && forall q :: q != o && q != Of(x) ==> Kids(st', q) == Kids(st, q)
  {
    if o.Of? { OwnerHasGrid(st, o.id); }
    if !HasGrid(st, o) {
      FirstAfter(st, o, after);
      FirstKid(x, after);
    }
  }

  lemma FirstKid(x: Id, after: seq<Id>)
    requires after == []
    ensures With([], Slot([], after), x) == [x]
  {}

  /** An owner without a container has no children. */
  lemma FirstAfter(st: State, o: Owner, after: seq<Id>)
    requires Tree(st) && KnownOwner(st, o) && !HasGrid(st, o) && forall a :: a in after ==> a in Kids(st, o)
    ensures Kids(st, o) == [] && after == []
  {
    assert st.kids[o] == [];
    Members(after, Kids(st, o));
  }

  lemma Members(after: seq<Id>, s: seq<Id>)
    requires forall a :: a in after ==> a in s
    ensures s == [] ==> after == []
  {
    if after != [] { assert after[0] in after; }
  }

  lemma {:induction false} IndexIs(s: seq<Id>, x: Id, k: nat)
    requires k < |s| && s[k] == x && x !in s[..k]
    ensures IndexIn(s, x) == k
  {
    if k == 0 {
    } else {
      assert s[0] == s[..k][0];
      assert s[1..][..k - 1] == s[..k][1..];
      IndexIs(s[1..], x, k - 1);
    }
  }

  lemma NewInKids(s: seq<Id>, k: nat, x: Id)
    requires k <= |s| && x !in s
    ensures x in With(s, k, x) && IndexIn(With(s, k, x), x) == k && Cut(With(s, k, x), k) == s
  {
    assert With(s, k, x)[k] == x;
    assert With(s, k, x)[..k] == s[..k];
    IndexIs(With(s, k, x), x, k);
  }

  lemma InsertRemoveGrid(g: Grid, v: View, row: int)
    requires forall c :: c in g ==> c !in OwnCells(v.item)
    ensures ShiftUp(ShiftDown(g, row) + NewCells(v, row) - OwnCells(v.item), row) == g
  {
    assert forall c :: c in NewCells(v, row) ==> c in OwnCells(v.item);
    assert ShiftDown(g, row) + NewCells(v, row) - OwnCells(v.item) == ShiftDown(g, row);
    ShiftRoundTrip(g, row);
  }

  lemma NoCells(g: Grid, vs: seq<View>, spacer: bool, lost: set<nat>, x: Id)
    requires Agrees(g, vs, spacer, lost) && x !in Items(vs)
    ensures forall c :: c in g ==> c !in OwnCells(x)
  {
    forall c | c in g
      ensures c !in OwnCells(x)
    {
      assert Belongs(c, Items(vs), Boxes(vs) + lost, spacer);
    }
  }

  /** The item that was hung in is taken out again. */
  lemma HangDrop(st: State, x: Id, o: Owner, k: nat, it: Item, g: Grid, h: Grid)
    requires o in st.kids && o in st.grids && st.grids[o] == g && o != Of(x)
    requires x !in st.items && Of(x) !in st.kids && x !in st.queue && x !in Kids(st, o) && k <= |Kids(st, o)|
    ensures Kids(Hang(st, x, o, k, it, h), o) == With(Kids(st, o), k, x)
    ensures k < |Kids(Hang(st, x, o, k, it, h), o)|
    ensures Drop(Hang(st, x, o, k, it, h), x, o, k, g) == st
  {
    NewInKids(Kids(st, o), k, x);
    WithoutOther(st.queue, x);
    assert st.kids[o := With(Kids(st, o), k, x)][Of(x) := []][o := Kids(st, o)] - {Of(x)} == st.kids;
    assert st.items[x := it] - {x} == st.items;
    assert st.grids[o := h][o := g] == st.grids;
  }

  lemma {:induction false} WithoutOther(s: seq<Id>, x: Id)
    requires x !in s
    ensures Without(s, x) == s
  {
    if s == [] {
    } else {
      WithoutOther(s[1..], x);
    }
  }

  /** Removing the item that was just inserted among siblings, or into the main area, gives back the state. */
  lemma InsertRemove(st: State, x: Id, o: Owner, after: seq<Id>, vector: bool, editor: bool, valueLabel: bool)
    requires Inv(st) && CanInsert(st, x, o, after) && HasGrid(st, o)
    ensures o.Of? ==> st.items[o.id].parent in st.grids && o.id in Kids(st, st.items[o.id].parent)
    ensures var st' := Insert(st, x, o, after, vector, editor, valueLabel);
            Shape(st') && x in st'.items && Step(st', DoRemove(x)) == st
  {
    InsertInv(st, x, o, after, vector, editor, valueLabel);
    var it := NewItem(o, editor, valueLabel);
    var s := Kids(st, o);
    var k := Slot(s, after);
    var row := RowOf(Views(st, s), k);
    var h := ShiftDown(st.grids[o], row) + NewCells(ViewOf(x, it), row);
    assert OwnerAgrees(st, o);
    GridBack(st, x, o, k, it);
    FreeId(st, x, o);
    HangDrop(st, x, o, k, it, st.grids[o], h);
    NewInKids(s, k, x);
    RemoveHere(Hang(st, x, o, k, it, h), x, o, k);
  }

  lemma FreeId(st: State, x: Id, o: Owner)
    requires Shape(st) && x !in st.items && KnownOwner(st, o) && HasGrid(st, o)
    ensures o in st.kids && o in st.grids && o != Of(x)
    ensures Of(x) !in st.kids && x !in st.queue && x !in Kids(st, o) && (o.Of? ==> Kids(st, o) != [])
  {}

  /** The grid and the row after x was hung in. */
  lemma GridBack(st: State, x: Id, o: Owner, k: nat, it: Item)
    requires Tree(st) && x !in st.items && o in st.kids && o in st.grids && k <= |Kids(st, o)| && OwnerAgrees(st, o)
    requires x !in Kids(st, o) && it.parent == o
    ensures var row := RowOf(Views(st, Kids(st, o)), k);
            var h := ShiftDown(st.grids[o], row) + NewCells(ViewOf(x, it), row);
            var st' := Hang(st, x, o, k, it, h);
            && x in st'.items && x in Kids(st', o) && RowAt(st', x) == row
            && ShiftUp(h - OwnCells(x), row) == st.grids[o]
  {
    var s := Kids(st, o);
    var row := RowOf(Views(st, s), k);
    var h := ShiftDown(st.grids[o], row) + NewCells(ViewOf(x, it), row);
    NewInKids(s, k, x);
    NotShown(st, o, x);
    NoCells(st.grids[o], Views(st, s), o.Top?, st.lost, x);
    InsertRemoveGrid(st.grids[o], ViewOf(x, it), row);
    HangViews(st, x, o, k, it, h, o);
    RowsInserted(Views(st, s), k, ViewOf(x, it), k);
  }

  /** propertyRemoved for an item with siblings, or of the main area. */
  lemma RemoveHere(st: State, x: Id, o: Owner, k: nat)
    requires Shape(st) && CanRemove(st, x) && st.items[x].parent == o && x in Kids(st, o)
    requires k == IndexIn(Kids(st, o), x) && (o.Top? || Cut(Kids(st, o), k) != [])
    ensures o in st.grids
    ensures Step(st, DoRemove(x)) == Drop(st, x, o, k, ShiftUp(st.grids[o] - OwnCells(x), RowAt(st, x)))
  {
    CanRemoveOwners(st, x);
  }
}
