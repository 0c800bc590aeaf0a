/** The browser's own methods: they edit the children lists, the items, the grids and the recreate queue step by
    step, and each of them does what its function on states says. */
module PropertyBrowser {
  import opened GridAgreement
  import opened PropertyTree

  class Browser {
    var kids: map<Owner, seq<Id>>
    var items: map<Id, Item>
    var grids: map<Owner, Grid>
    var recreateQueue: seq<Id>
    var nextBox: nat
    ghost var lost: set<nat>

    ghost function St(): State
      reads this
    {
      State(kids, items, grids, recreateQueue, nextBox, lost)
    }

    constructor ()
      ensures St() == EMPTY && Inv(St())
    {
      kids, items, grids, recreateQueue, nextBox, lost :=
        map[Top := []], map[], map[Top := map[Spacer := 0]], [], 0, {};
      new;
      InitInv();
    }

    method GridSpan(x: Id) returns (span: nat)
      requires x in items
      ensures span == Span(ViewOf(x, items[x]))
    {
      span := if items[x].container && items[x].expanded then 2 else 1;
    }

    /** The sum of the spans of the siblings in front, or -1 for an item that its owner does not list. */
    method GridRow(x: Id) returns (row: int)
      requires x in items && forall c :: c in Kids(St(), items[x].parent) ==> c in items
      ensures row == if x in Kids(St(), items[x].parent) then RowAt(St(), x) else -1
    {
      var siblings := if items[x].parent in kids then kids[items[x].parent] else [];
      ghost var vs := Views(St(), siblings);
      row := 0;
      var i := 0;
      while i < |siblings|
        invariant 0 <= i <= |siblings| && row == RowOf(vs, i) && x !in siblings[..i]
      {
        if siblings[i] == x {
          FirstIndex(siblings, x, i);
          return;
        }
        var span := GridSpan(siblings[i]);
        row := row + span;
        i := i + 1;
      }
      row := -1;
    }

    method SetExpanded(x: Id, expanded: bool)
      requires Listed(St(), x)
      modifies this`items, this`grids
      ensures St() == Expand(old(St()), x, expanded)
    {
      if items[x].expanded == expanded {
        return;
      }
      if !items[x].container {
        return;
      }
      var o := items[x].parent;
      var row := GridRow(x);
      var g := ToggleGrid(grids[o], x, row, expanded);
      items := items[x := items[x].(expanded := expanded)];
      grids := grids[o := g];
    }

    /** setExpanded's edit of the grid. */
    method ToggleGrid(l: Grid, x: Id, row: int, expanded: bool) returns (g: Grid)
      ensures g == if expanded then Opened(l, x, row) else ClosedUp(l, x, row)
    {
      if expanded {
        g := ShiftDown(l, row + 1);
        g := g[Container(x) := row + 1];
      } else {
        g := l - {Container(x)};
        g := ShiftUp(g, row + 1);
      }
    }

    method SlotEditorDestroyed(x: Id)
      requires x in items && items[x].parent in grids
      modifies this
      ensures St() == DropEditor(old(St()), x)
    {
      grids := grids[items[x].parent := grids[items[x].parent] - {Editor(x)}];
      items := items[x := items[x].(editor := false)];
    }

    method RelabelItem(x: Id)
      requires Listed(St(), x)
      modifies this
      ensures St() == Relabel(old(St()), x)
    {
      var o := items[x].parent;
      var row := GridRow(x);
      grids := grids[o := grids[o][Label(x) := row]];
      items := items[x := items[x].(caption := InGrid)];
      recreateQueue := Without(recreateQueue, x);
    }

    method SlotUpdate()
      requires Shape(St())
      modifies this
      ensures St() == Update(old(St()))
    {
      while recreateQueue != []
        invariant Shape(St()) && Update(St()) == Update(old(St()))
        decreases |recreateQueue|
      {
        ItemListed(St(), recreateQueue[0]);
        RelabelShape(St(), recreateQueue[0]);
        RelabelItem(recreateQueue[0]);
      }
    }

    /** propertyInserted's block for a parent that has no container yet. */
    method CreateContainer(p: Id, vector: bool)
      requires Listed(St(), p)
      modifies this`items, this`grids, this`recreateQueue, this`nextBox
      ensures items == old(items)[p := NewContainer(old(St()), p, vector)]
      ensures var o := old(items)[p].parent;
              grids == old(grids)[o := Reheaded(old(grids)[o], ViewOf(p, items[p]), old(RowAt(St(), p)))]
      ensures recreateQueue == Without(old(recreateQueue), p)
      ensures nextBox == if vector then old(nextBox) + 1 else old(nextBox)
    {
      var o := items[p].parent;
      var oldRow := GridRow(p);
      recreateQueue := Without(recreateQueue, p);
      var g := grids[o] - {Label(p), Button(p)};
      if vector {
        items := items[p := items[p].(container := true, caption := InBox(nextBox))];
        g := g[Box(nextBox) := oldRow];
        nextBox := nextBox + 1;
      } else {
        items := items[p := items[p].(container := true, caption := NoLabel)];
        g := g[Button(p) := oldRow];
      }
      grids := grids[o := g];
      ReheadedCells(old(grids)[o], ViewOf(p, items[p]), oldRow);
    }

    /** Where the new item goes: its index among its siblings and its row. */
    method Place(o: Owner, after: seq<Id>) returns (k: nat, row: int)
      requires |after| <= 1 && forall a :: a in after ==> a in Kids(St(), o)
      requires forall c :: c in Kids(St(), o) ==> c in items && items[c].parent == o
      ensures k == Slot(Kids(St(), o), after) && row == RowOf(Views(St(), Kids(St(), o)), k)
    {
      if after == [] {
        k, row := 0, 0;
      } else {
        row := GridRow(after[0]);
        var span := GridSpan(after[0]);
        row := row + span;
        k := IndexIn(kids[o], after[0]) + 1;
      }
    }

    lemma NothingBefore(after: seq<Id>, siblings: seq<Id>)
      requires forall a :: a in after ==> a in siblings
      ensures siblings == [] ==> after == []
    {
      if after != [] { assert after[0] in after; }
    }

    method PropertyInserted(x: Id, o: Owner, after: seq<Id>, vector: bool, editor: bool, valueLabel: bool)
      requires |after| <= 1 && forall a :: a in after ==> a in Kids(St(), o)
      requires forall c :: c in Kids(St(), o) ==> c in items && items[c].parent == o
      requires o in kids && (o.Of? ==> Listed(St(), o.id) && (items[o.id].container <==> kids[o] != []))
      requires (o.Top? || items[o.id].container) ==> o in grids
      modifies this
      ensures St() == Insert(old(St()), x, o, after, vector, editor, valueLabel)
    {
      var k, row := Place(o, after);
      var it := NewItem(o, editor, valueLabel);
      if o.Of? && !items[o.id].container {
        NothingBefore(after, kids[o]);
        HangFirstHere(x, o.id, vector, it);
      } else {
        HangHere(x, o, k, it, row);
      }
    }

    /** The new item below an item without a container, which is made for it. */
    method HangFirstHere(x: Id, p: Id, vector: bool, it: Item)
      requires Listed(St(), p) && Of(p) in kids && kids[Of(p)] == []
      modifies this
      ensures var pit := NewContainer(old(St()), p, vector);
              var gp := Reheaded(old(grids)[pit.parent], ViewOf(p, pit), RowAt(old(St()), p));
              St() == HangFirst(old(St()), x, p, pit, it, gp, NewCells(ViewOf(x, it), 0))
    {
      CreateContainer(p, vector);
      grids := grids[Of(p) := NewCells(ViewOf(x, it), 0)];
      assert With([], 0, x) == [x];
      Link(x, Of(p), 0, it);
    }

    /** The new item below an owner that has a grid: a row is opened for it. */
    method HangHere(x: Id, o: Owner, k: nat, it: Item, row: int)
      requires o in kids && k <= |kids[o]| && o in grids
      modifies this`kids, this`items, this`grids
      ensures St() == Hang(old(St()), x, o, k, it, ShiftDown(old(grids)[o], row) + NewCells(ViewOf(x, it), row))
    {
      var g := ShiftDown(grids[o], row);
      grids := grids[o := g + NewCells(ViewOf(x, it), row)];
      Link(x, o, k, it);
    }

    /** The new item enters the list of its owner and the table of items. */
    method Link(x: Id, o: Owner, k: nat, it: Item)
      requires o in kids && k <= |kids[o]|
      modifies this`kids, this`items
      ensures kids == old(kids)[o := With(old(kids)[o], k, x)][Of(x) := []] && items == old(items)[x := it]
    {
      kids := kids[o := With(kids[o], k, x)][Of(x) := []];
      items := items[x := it];
    }

    /** propertyRemoved's edit of the grid around a container that goes. */
    method FoldGrid(g: Grid, p: Id, parentRow: int, parentSpan: nat) returns (l: Grid)
      requires p in items && parentSpan == Span(ViewOf(p, items[p]))
      ensures l == Folded(g, ViewOf(p, items[p]), parentRow)
    {
      l := g - {Button(p)};
      l := l - {Container(p)};
      if parentSpan > 1 {
        l := ShiftUp(l, parentRow + 1);
      }
    }

    /** propertyRemoved's block for the last child of p. */
    method DropContainer(p: Id, x: Id)
      requires Listed(St(), p) && items[p].container && x != p
      modifies this
      ensures St() == DropLast(old(St()), x, p, Folded(old(grids)[old(items)[p].parent], ViewOf(p, old(items)[p]),
                                                       RowAt(old(St()), p)))
    {
      var parentRow := GridRow(p);
      var parentSpan := GridSpan(p);
      var l := FoldGrid(grids[items[p].parent], p, parentRow, parentSpan);
      Unlink(p, x, l);
    }

    /** The container of p is gone, the grid around it is l, and x goes. */
    method Unlink(p: Id, x: Id, l: Grid)
      requires p in items && items[p].container && x != p
      modifies this
      ensures St() == DropLast(old(St()), x, p, l)
    {
      if p !in recreateQueue {
        recreateQueue := recreateQueue + [p];
      }
      lost := if items[p].caption.InBox? then lost + {items[p].caption.box} else lost;
      kids := kids[Of(p) := []] - {Of(x)};
      grids := grids[items[p].parent := l] - {Of(p)};
      items := items[p := items[p].(container := false)] - {x};
      recreateQueue := Without(recreateQueue, x);
    }

    method PropertyRemoved(x: Id)
      requires Listed(St(), x)
      requires var o := items[x].parent; o.Of? ==> x != o.id && Listed(St(), o.id) && items[o.id].container
      modifies this
      ensures St() == Remove(old(St()), x)
    {
      var o := items[x].parent;
      var row := GridRow(x);
      var k := IndexIn(kids[o], x);
      if o.Top? || Cut(kids[o], k) != [] {
        var g := grids[o] - OwnCells(x);
        g := ShiftUp(g, row);
        grids := grids[o := g];
        kids := kids[o := Cut(kids[o], k)] - {Of(x)};
        items := items - {x};
        recreateQueue := Without(recreateQueue, x);
      } else {
        DropContainer(o.id, x);
      }
    }
  }

  lemma {:induction false} FirstIndex(s: seq<Id>, x: Id, i: nat)
    requires i < |s| && s[i] == x && x !in s[..i]
    ensures IndexIn(s, x) == i
  {
    if i == 0 {
    } else {
      assert s[0] == s[..i][0];
      assert s[1..][..i - 1] == s[..i][1..];
      FirstIndex(s[1..], x, i - 1);
    }
  }
}
