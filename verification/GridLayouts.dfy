/** QGridLayout as the browser uses it: a list of placed cells that insertRow and removeRow take out and put back.
    A cell's column follows from its kind, so an entry carries the row only. */
module GridLayouts {
  import opened GridAgreement

  /** The entries of a layout as a grid. */
  ghost function ToGrid(es: seq<(Cell, int)>): Grid {
    if es == [] then map[] else ToGrid(es[..|es| - 1])[es[|es| - 1].0 := es[|es| - 1].1]
  }

  ghost predicate DistinctCells(es: seq<(Cell, int)>) {
    forall i, j :: 0 <= i < j < |es| ==> es[i].0 != es[j].0
  }

  lemma {:induction false} GridHas(es: seq<(Cell, int)>, i: nat)
    requires DistinctCells(es) && i < |es|
    ensures es[i].0 in ToGrid(es) && ToGrid(es)[es[i].0] == es[i].1
  {
    if i < |es| - 1 { GridHas(es[..|es| - 1], i); }
  }

  lemma {:induction false} GridOnly(es: seq<(Cell, int)>, c: Cell) returns (i: nat)
    requires c in ToGrid(es)
    ensures i < |es| && es[i].0 == c
  {
    i := |es| - 1;
    if es[i].0 != c { i := GridOnly(es[..i], c); }
  }

  function WithoutEntry(es: seq<(Cell, int)>, i: nat): seq<(Cell, int)>
    requires i < |es|
  {
    es[..i] + es[i + 1..]
  }

  lemma TakeDistinct(es: seq<(Cell, int)>, i: nat)
    requires DistinctCells(es) && i < |es|
    ensures DistinctCells(WithoutEntry(es, i))
  {}

  lemma TakeKeeps(es: seq<(Cell, int)>, i: nat, j: nat)
    requires DistinctCells(es) && i < |es| && j < |es| && j != i
    ensures es[j].0 in ToGrid(WithoutEntry(es, i)) && es[j].0 in ToGrid(es)
    ensures ToGrid(WithoutEntry(es, i))[es[j].0] == ToGrid(es)[es[j].0]
  {
    TakeDistinct(es, i);
    GridHas(WithoutEntry(es, i), if j < i then j else j - 1);
    GridHas(es, j);
  }

  lemma EntryKept(es: seq<(Cell, int)>, i: nat, j: nat)
    requires DistinctCells(es) && i < |es| && j < |es| - 1
    ensures var k := if j < i then j else j + 1;
            |WithoutEntry(es, i)| == |es| - 1 && WithoutEntry(es, i)[j] == es[k] && es[k].0 != es[i].0
  {}

  lemma TakeFrom(es: seq<(Cell, int)>, i: nat, c: Cell)
    requires DistinctCells(es) && i < |es| && c in ToGrid(WithoutEntry(es, i))
    ensures c != es[i].0 && c in ToGrid(es) && ToGrid(WithoutEntry(es, i))[c] == ToGrid(es)[c]
  {
    var j := GridOnly(WithoutEntry(es, i), c);
    EntryKept(es, i, j);
    TakeKeeps(es, i, if j < i then j else j + 1);
  }

  lemma TakeTo(es: seq<(Cell, int)>, i: nat, c: Cell)
    requires DistinctCells(es) && i < |es| && c in ToGrid(es) && c != es[i].0
    ensures c in ToGrid(WithoutEntry(es, i))
  {
    var j := GridOnly(es, c);
    TakeKeeps(es, i, j);
  }

  /** Taking one entry out of the list takes one cell out of the grid. */
  lemma TakeGrid(es: seq<(Cell, int)>, i: nat)
    requires DistinctCells(es) && i < |es|
    ensures ToGrid(WithoutEntry(es, i)) == ToGrid(es) - {es[i].0}
  {
    forall c | c in ToGrid(WithoutEntry(es, i))
      ensures c != es[i].0 && c in ToGrid(es) && ToGrid(WithoutEntry(es, i))[c] == ToGrid(es)[c]
    {
      TakeFrom(es, i, c);
    }
    forall c | c in ToGrid(es) && c != es[i].0
      ensures c in ToGrid(WithoutEntry(es, i))
    {
      TakeTo(es, i, c);
    }
  }

  // ----- one round of each loop

  lemma TakeDown(g: Grid, taken: Grid, c: Cell, row: int)
    requires g.Keys !! taken.Keys && c in g && g[c] >= row
    ensures (g - {c}).Keys !! taken[c := g[c] + 1].Keys
    ensures ShiftDown(g - {c}, row) + taken[c := g[c] + 1] == ShiftDown(g, row) + taken
  {}

  lemma TakeUp(g: Grid, taken: Grid, c: Cell, row: int)
    requires g.Keys !! taken.Keys && c in g && g[c] > row
    ensures (g - {c}).Keys !! taken[c := g[c] - 1].Keys
    ensures ShiftUp(g - {c}, row) + taken[c := g[c] - 1] == ShiftUp(g, row) + taken
  {}

  lemma PutOne(g: Grid, rest: Grid, c: Cell)
    requires g.Keys !! rest.Keys && c in rest
    ensures g[c := rest[c]].Keys !! (rest - {c}).Keys
    ensures g[c := rest[c]] + (rest - {c}) == g + rest
    ensures (rest - {c}).Keys == rest.Keys - {c}
  {}

  lemma AppendGrid(es: seq<(Cell, int)>, c: Cell, row: int)
    requires DistinctCells(es) && c !in ToGrid(es)
    ensures DistinctCells(es + [(c, row)]) && ToGrid(es + [(c, row)]) == ToGrid(es)[c := row]
  {
    assert (es + [(c, row)])[..|es|] == es;
    forall i | 0 <= i < |es|
      ensures es[i].0 != c
    {
      GridHas(es, i);
    }
  }

  lemma LowGrid(es: seq<(Cell, int)>, c: Cell) returns (i: nat)
    requires DistinctCells(es) && c in ToGrid(es)
    ensures i < |es| && es[i].0 == c && ToGrid(es)[c] == es[i].1
  {
    i := GridOnly(es, c);
    GridHas(es, i);
  }

  /** When the loop of insertRow is done, no entry left in the layout would move. */
  lemma NothingBelow(es: seq<(Cell, int)>, row: int)
    requires DistinctCells(es) && forall i :: 0 <= i < |es| ==> es[i].1 < row
    ensures ShiftDown(ToGrid(es), row) == ToGrid(es)
  {
    forall c | c in ToGrid(es)
      ensures ToGrid(es)[c] < row
    {
      var i := LowGrid(es, c);
    }
  }

  /** The same for removeRow. */
  lemma NothingAbove(es: seq<(Cell, int)>, row: int)
    requires DistinctCells(es) && forall i :: 0 <= i < |es| ==> es[i].1 <= row
    ensures ShiftUp(ToGrid(es), row) == ToGrid(es)
  {
    forall c | c in ToGrid(es)
      ensures ToGrid(es)[c] <= row
    {
      var i := LowGrid(es, c);
    }
  }

  class GridLayout {
    var entries: seq<(Cell, int)>

    ghost predicate Valid()
      reads this
    {
      DistinctCells(entries)
    }

    ghost function Cells(): Grid
      reads this
    {
      ToGrid(entries)
    }

    constructor ()
      ensures Valid() && Cells() == map[]
    {
      entries := [];
    }

    method AddWidget(c: Cell, row: int)
      requires Valid() && c !in Cells()
      modifies this
      ensures Valid() && Cells() == old(Cells())[c := row]
    {
      AppendGrid(entries, c, row);
      entries := entries + [(c, row)];
    }

    method TakeAt(idx: nat)
      requires Valid() && idx < |entries|
      modifies this
      ensures Valid() && entries == WithoutEntry(old(entries), idx)
      ensures old(entries)[idx].0 in old(Cells()) && old(Cells())[old(entries)[idx].0] == old(entries)[idx].1
      ensures Cells() == old(Cells()) - {old(entries)[idx].0}
    {
      GridHas(entries, idx);
      TakeDistinct(entries, idx);
      TakeGrid(entries, idx);
      entries := WithoutEntry(entries, idx);
    }

    /** Also what happens to the grid when the widget in cell c is deleted. */
    method RemoveWidget(c: Cell)
      requires Valid()
      modifies this
      ensures Valid() && Cells() == old(Cells()) - {c}
    {
      var idx := 0;
      while idx < |entries|
        invariant 0 <= idx <= |entries| && entries == old(entries)
        invariant forall i :: 0 <= i < idx ==> entries[i].0 != c
      {
        if entries[idx].0 == c {
          TakeAt(idx);
          return;
        }
        idx := idx + 1;
      }
      if c in Cells() {
        var i := GridOnly(entries, c);
      }
      assert Cells() == old(Cells()) - {c};
    }

    method InsertRow(row: int)
      requires Valid()
      modifies this
      ensures Valid() && Cells() == ShiftDown(old(Cells()), row)
    {
      var itemToPos := TakeFromRow(row);
      PutBack(itemToPos);
    }

    /** The first loop of insertRow: the cells from the row on are taken out, with their new rows. */
    method TakeFromRow(row: int) returns (itemToPos: map<Cell, int>)
      requires Valid()
      modifies this
      ensures Valid() && Cells().Keys !! itemToPos.Keys && Cells() + itemToPos == ShiftDown(old(Cells()), row)
    {
      itemToPos := map[];
      var idx := 0;
      while idx < |entries|
        invariant 0 <= idx <= |entries| && Valid()
        invariant forall i :: 0 <= i < idx ==> entries[i].1 < row
        invariant Cells().Keys !! itemToPos.Keys
        invariant ShiftDown(Cells(), row) + itemToPos == ShiftDown(old(Cells()), row)
        decreases |entries| - idx
      {
        var (c, r) := entries[idx];
        if r >= row {
          ghost var before := Cells();
          TakeAt(idx);
          TakeDown(before, itemToPos, c, row);
          itemToPos := itemToPos[c := r + 1];
        } else {
          idx := idx + 1;
        }
      }
      NothingBelow(entries, row);
    }

    method RemoveRow(row: int)
      requires Valid()
      modifies this
      ensures Valid() && Cells() == ShiftUp(old(Cells()), row)
    {
      var itemToPos := TakeBehindRow(row);
      PutBack(itemToPos);
    }

    /** The first loop of removeRow: the cells behind the row are taken out, with their new rows. */
    method TakeBehindRow(row: int) returns (itemToPos: map<Cell, int>)
      requires Valid()
      modifies this
      ensures Valid() && Cells().Keys !! itemToPos.Keys && Cells() + itemToPos == ShiftUp(old(Cells()), row)
    {
      itemToPos := map[];
      var idx := 0;
      while idx < |entries|
        invariant 0 <= idx <= |entries| && Valid()
        invariant forall i :: 0 <= i < idx ==> entries[i].1 <= row
        invariant Cells().Keys !! itemToPos.Keys
        invariant ShiftUp(Cells(), row) + itemToPos == ShiftUp(old(Cells()), row)
        decreases |entries| - idx
      {
        var (c, r) := entries[idx];
        if r > row {
          ghost var before := Cells();
          TakeAt(idx);
          TakeUp(before, itemToPos, c, row);
          itemToPos := itemToPos[c := r - 1];
        } else {
          idx := idx + 1;
        }
      }
      NothingAbove(entries, row);
    }

    /** The second loop of both: the taken cells are added again, in whatever order the map lists them. */
    method PutBack(itemToPos: map<Cell, int>)
      requires Valid() && Cells().Keys !! itemToPos.Keys
      modifies this
      ensures Valid() && Cells() == old(Cells()) + itemToPos
    {
      var rest := itemToPos;
      while rest != map[]
        invariant Valid() && Cells().Keys !! rest.Keys
        invariant Cells() + rest == old(Cells()) + itemToPos
        decreases |rest.Keys|
      {
        var c :| c in rest;
        PutOne(Cells(), rest, c);
        AddWidget(c, rest[c]);
        rest := rest - {c};
      }
    }
  }
}
