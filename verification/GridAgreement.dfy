/** The grid of one container of the button property browser, as a value: which cell sits on which row.

    A sibling list is seen as a sequence of views, one per item; `RowOf` is the prefix sum of their spans
    (gridRow and gridSpan). `Agrees` says that a grid shows exactly the cells that the sibling list calls for,
    each at the row the sibling list calls for. Every lemma below is one edit of the browser. */
module GridAgreement {

  /** The address of an item. */
  type Id = nat

  /** What stands in column 0 of an item's row. A vector item with children gets a box that holds its label and
      its button; boxes are numbered because the program can lose track of one. */
  datatype Heading = NoHead | LabelHead | ButtonHead | BoxHead(box: nat)

  datatype View = View(item: Id, heading: Heading, editor: bool, valueLabel: bool, open: bool)

  datatype Cell =
    | Label(item: Id)
    | Button(item: Id)
    | Editor(item: Id)
    | ValueLabel(item: Id)
    | Container(item: Id)
    | Box(box: nat)
    | Spacer

  type Grid = map<Cell, int>

  function Span(v: View): nat {
    if v.open then 2 else 1
  }

  /** The row of the item at index k. */
  function RowOf(vs: seq<View>, k: nat): (row: nat)
    requires k <= |vs|
    ensures row >= k
  {
    if k == 0 then 0 else RowOf(vs, k - 1) + Span(vs[k - 1])
  }

  ghost function Items(vs: seq<View>): set<Id> {
    set v | v in vs :: v.item
  }

  ghost function Boxes(vs: seq<View>): set<nat> {
    set v | v in vs && v.heading.BoxHead? :: v.heading.box
  }

  /** No entry but k is about the item at k. */
  ghost predicate OnlyAt(vs: seq<View>, k: nat)
    requires k < |vs|
  {
    forall j {:trigger RowOf(vs, j)} :: 0 <= j < |vs| && j != k ==> vs[j].item != vs[k].item
  }

  ghost predicate At(g: Grid, c: Cell, shown: bool, row: int) {
    (c in g <==> shown) && (shown ==> g[c] == row)
  }

  /** Item v has exactly the cells it calls for, with its first row at r. */
  ghost predicate Placed(g: Grid, v: View, r: int) {
    && At(g, Label(v.item), v.heading.LabelHead?, r)
    && At(g, Button(v.item), v.heading.ButtonHead?, r)
    && At(g, Editor(v.item), v.editor, r)
    && At(g, ValueLabel(v.item), v.valueLabel, r)
    && At(g, Container(v.item), v.open, r + 1)
    && (v.heading.BoxHead? ==> At(g, Box(v.heading.box), true, r))
  }

  ghost predicate Belongs(c: Cell, items: set<Id>, boxes: set<nat>, spacer: bool) {
    match c
    case Spacer => spacer
    case Box(n) => n in boxes
    case _ => c.item in items
  }

  /** The grid shows the siblings vs and, in the main grid, the spacer; boxes in `lost` may also lie around. */
  ghost predicate Agrees(g: Grid, vs: seq<View>, spacer: bool, lost: set<nat>) {
    && AllPlaced(g, vs)
    && At(g, Spacer, spacer, RowOf(vs, |vs|))
    && Closed(g, Items(vs), Boxes(vs) + lost, spacer)
  }

  ghost predicate AllPlaced(g: Grid, vs: seq<View>) {
    forall i {:trigger RowOf(vs, i)} :: 0 <= i < |vs| ==> Placed(g, vs[i], RowOf(vs, i))
  }

  /** The items other than k are in place; those behind k have moved by d rows. */
  ghost predicate OthersPlaced(h: Grid, vs: seq<View>, k: nat, d: int) {
    forall j {:trigger RowOf(vs, j)} :: 0 <= j < |vs| && j != k ==>
      Placed(h, vs[j], if j < k then RowOf(vs, j) else RowOf(vs, j) + d)
  }

  ghost predicate Closed(g: Grid, items: set<Id>, boxes: set<nat>, spacer: bool) {
    forall c :: c in g ==> Belongs(c, items, boxes, spacer)
  }

  /** No box lies around that no item owns. */
  ghost predicate Tidy(g: Grid, vs: seq<View>) {
    forall n :: Box(n) in g ==> n in Boxes(vs)
  }

  lemma Assemble(h: Grid, vs: seq<View>, spacer: bool, lost: set<nat>)
    requires AllPlaced(h, vs)
    requires At(h, Spacer, spacer, RowOf(vs, |vs|))
    requires Closed(h, Items(vs), Boxes(vs) + lost, spacer)
    ensures Agrees(h, vs, spacer, lost)
  {}

  // ----- the two row edits

  function ShiftDown(g: Grid, row: int): Grid {
    map c | c in g :: if g[c] >= row then g[c] + 1 else g[c]
  }

  function ShiftUp(g: Grid, row: int): Grid {
    map c | c in g :: if g[c] > row then g[c] - 1 else g[c]
  }

  /** Removing the row that was just inserted gives back the grid. */
  lemma ShiftRoundTrip(g: Grid, row: int)
    ensures ShiftUp(ShiftDown(g, row), row) == g
  {
    assert forall c :: c in g ==> ShiftUp(ShiftDown(g, row), row)[c] == g[c];
  }

  lemma DownPlaced(g: Grid, v: View, r: int, row: int)
    requires Placed(g, v, r)
    ensures r >= row ==> Placed(ShiftDown(g, row), v, r + 1)
    ensures r + Span(v) <= row ==> Placed(ShiftDown(g, row), v, r)
  {}

  lemma UpPlaced(g: Grid, v: View, r: int, row: int)
    requires Placed(g, v, r)
    ensures r > row ==> Placed(ShiftUp(g, row), v, r - 1)
    ensures r + Span(v) <= row + 1 ==> Placed(ShiftUp(g, row), v, r)
  {}

  // ----- rows are prefix sums

  /** Row ranges of siblings are disjoint and ordered. */
  lemma {:induction false} RowsOrdered(vs: seq<View>, i: nat, j: nat)
    requires i < j <= |vs|
    ensures RowOf(vs, i) + Span(vs[i]) <= RowOf(vs, j)
  {
    if i < j - 1 {
      RowsOrdered(vs, i, j - 1);
    }
  }

  lemma {:induction false} RowsOfPrefix(vs: seq<View>, ws: seq<View>, k: nat, i: nat)
    requires i <= k <= |vs| && k <= |ws| && vs[..k] == ws[..k]
    ensures RowOf(vs, i) == RowOf(ws, i)
  {
    if i == 0 {
    } else {
      assert vs[i - 1] == vs[..k][i - 1] == ws[..k][i - 1] == ws[i - 1];
      RowsOfPrefix(vs, ws, k, i - 1);
    }
  }

  /** The two lists have the same tail from index k in vs and index m in ws. */
  lemma {:induction false} RowsOfSuffix(vs: seq<View>, k: nat, ws: seq<View>, m: nat, d: nat)
    requires k <= |vs| && m <= |ws| && vs[k..] == ws[m..] && k + d <= |vs|
    ensures m + d <= |ws|
    ensures RowOf(vs, k + d) - RowOf(vs, k) == RowOf(ws, m + d) - RowOf(ws, m)
  {
    assert |vs[k..]| == |ws[m..]|;
    if d == 0 {
    } else {
      assert vs[k + d - 1] == vs[k..][d - 1] == ws[m..][d - 1] == ws[m + d - 1];
      RowsOfSuffix(vs, k, ws, m, d - 1);
    }
  }

  ghost function Inserted(vs: seq<View>, k: nat, x: View): seq<View>
    requires k <= |vs|
  {
    vs[..k] + [x] + vs[k..]
  }

  ghost function Removed(vs: seq<View>, k: nat): seq<View>
    requires k < |vs|
  {
    vs[..k] + vs[k + 1..]
  }

  lemma RowsInserted(vs: seq<View>, k: nat, x: View, i: nat)
    requires k <= |vs| && i <= |vs|
    ensures i <= k ==> RowOf(Inserted(vs, k, x), i) == RowOf(vs, i)
    ensures i >= k ==> RowOf(Inserted(vs, k, x), i + 1) == RowOf(vs, i) + Span(x)
  {
    var ws := Inserted(vs, k, x);
    RowsOfPrefix(vs, ws, k, if i <= k then i else k);
    assert ws[k + 1..] == vs[k..];
    if i >= k {
      RowsOfPrefix(vs, ws, k, k);
      RowsOfSuffix(vs, k, ws, k + 1, i - k);
    }
  }

  lemma RowsUpdated(vs: seq<View>, k: nat, x: View, i: nat)
    requires k < |vs| && i <= |vs|
    ensures i <= k ==> RowOf(vs[k := x], i) == RowOf(vs, i)
    ensures i > k ==> RowOf(vs[k := x], i) == RowOf(vs, i) + Span(x) - Span(vs[k])
  {
    var ws := vs[k := x];
    RowsOfPrefix(vs, ws, k, if i <= k then i else k);
    assert ws[k + 1..] == vs[k + 1..];
    if i > k {
      RowsOfPrefix(vs, ws, k, k);
      RowsOfSuffix(vs, k + 1, ws, k + 1, i - (k + 1));
    }
  }

  // ----- the edits keep agreement

  /** The cells of a freshly inserted item. */
  function NewCells(x: View, row: int): Grid {
    (if x.editor then map[Editor(x.item) := row] else map[]) +
    (if x.valueLabel then map[ValueLabel(x.item) := row] else map[]) +
    map[Label(x.item) := row]
  }

  /** Whether v's placement reads cell c. */
  ghost predicate Reads(v: View, c: Cell) {
    match c
    case Spacer => false
    case Box(n) => v.heading == BoxHead(n)
    case _ => c.item == v.item
  }

  /** Cells of other items do not matter to an item. */
  lemma SamePlaced(g: Grid, h: Grid, v: View, r: int)
    requires Placed(g, v, r)
    requires forall c :: c in g && Reads(v, c) ==> c in h && h[c] == g[c]
    requires forall c :: c in h && Reads(v, c) ==> c in g
    ensures Placed(h, v, r)
  {}

  lemma NewPlaced(g: Grid, items: set<Id>, boxes: set<nat>, spacer: bool, x: View, row: int)
    requires Closed(g, items, boxes, spacer)
    requires x.item !in items && x.heading == LabelHead && !x.open
    ensures Placed(g + NewCells(x, row), x, row)
  {
    forall c | c in g
      ensures !Reads(x, c)
    {
      assert Belongs(c, items, boxes, spacer);
    }
    assert forall c :: c in g + NewCells(x, row) && Reads(x, c) ==> c in NewCells(x, row);
  }

  lemma MovedPlaced(g: Grid, v: View, r: int, x: View, row: int)
    requires Placed(g, v, r) && v.item != x.item
    requires r >= row || r + Span(v) <= row
    ensures Placed(ShiftDown(g, row) + NewCells(x, row), v, if r >= row then r + 1 else r)
  {
    DownPlaced(g, v, r, row);
    SamePlaced(ShiftDown(g, row), ShiftDown(g, row) + NewCells(x, row), v, if r >= row then r + 1 else r);
  }

  lemma InsertPlaced(g: Grid, vs: seq<View>, k: nat, x: View, j: nat)
    requires j < |vs| && k <= |vs|
    requires Placed(g, vs[j], RowOf(vs, j)) && x.item !in Items(vs)
    ensures Placed(ShiftDown(g, RowOf(vs, k)) + NewCells(x, RowOf(vs, k)), vs[j],
                   if j < k then RowOf(vs, j) else RowOf(vs, j) + 1)
  {
    assert vs[j] in vs;
    if j < k { RowsOrdered(vs, j, k); } else if j > k { RowsOrdered(vs, k, j); }
    MovedPlaced(g, vs[j], RowOf(vs, j), x, RowOf(vs, k));
  }

  /** x fits at index k once the items from k on have moved down. */
  lemma FitAllPlaced(h: Grid, vs: seq<View>, k: nat, x: View)
    requires k <= |vs| && Placed(h, x, RowOf(vs, k))
    requires forall j {:trigger RowOf(vs, j)} :: 0 <= j < |vs| ==>
               Placed(h, vs[j], if j < k then RowOf(vs, j) else RowOf(vs, j) + Span(x))
    ensures AllPlaced(h, Inserted(vs, k, x))
  {
    var ws := Inserted(vs, k, x);
    forall i {:trigger RowOf(ws, i)} | 0 <= i < |ws|
      ensures Placed(h, ws[i], RowOf(ws, i))
    {
      RowsInserted(vs, k, x, if i <= k then i else i - 1);
    }
  }

  lemma InsertAllPlaced(g: Grid, vs: seq<View>, boxes: set<nat>, spacer: bool, k: nat, x: View)
    requires AllPlaced(g, vs) && Closed(g, Items(vs), boxes, spacer) && k <= |vs|
    requires x.item !in Items(vs) && x.heading == LabelHead && !x.open
    ensures AllPlaced(ShiftDown(g, RowOf(vs, k)) + NewCells(x, RowOf(vs, k)), Inserted(vs, k, x))
  {
    var row := RowOf(vs, k);
    var h := ShiftDown(g, row) + NewCells(x, row);
    NewPlaced(ShiftDown(g, row), Items(vs), boxes, spacer, x, row);
    forall j {:trigger RowOf(vs, j)} | 0 <= j < |vs|
      ensures Placed(h, vs[j], if j < k then RowOf(vs, j) else RowOf(vs, j) + 1)
    {
      InsertPlaced(g, vs, k, x, j);
    }
    FitAllPlaced(h, vs, k, x);
  }

  lemma InsertClosed(g: Grid, vs: seq<View>, spacer: bool, lost: set<nat>, k: nat, x: View, row: int)
    requires Closed(g, Items(vs), Boxes(vs) + lost, spacer) && k <= |vs|
    ensures var ws := Inserted(vs, k, x);
            Closed(ShiftDown(g, row) + NewCells(x, row), Items(ws), Boxes(ws) + lost, spacer)
  {
    InsertItems(vs, k, x);
  }

  lemma InsertSpacer(g: Grid, vs: seq<View>, spacer: bool, k: nat, x: View)
    requires At(g, Spacer, spacer, RowOf(vs, |vs|)) && k <= |vs| && !x.open
    ensures At(ShiftDown(g, RowOf(vs, k)) + NewCells(x, RowOf(vs, k)), Spacer, spacer,
               RowOf(Inserted(vs, k, x), |vs| + 1))
  {
    if k < |vs| { RowsOrdered(vs, k, |vs|); }
    RowsInserted(vs, k, x, |vs|);
  }

  lemma InsertAgrees(g: Grid, vs: seq<View>, spacer: bool, lost: set<nat>, k: nat, x: View)
    requires Agrees(g, vs, spacer, lost) && k <= |vs|
    requires x.item !in Items(vs) && x.heading == LabelHead && !x.open
    ensures Agrees(ShiftDown(g, RowOf(vs, k)) + NewCells(x, RowOf(vs, k)), Inserted(vs, k, x), spacer, lost)
  {
    InsertAllPlaced(g, vs, Boxes(vs) + lost, spacer, k, x);
    InsertClosed(g, vs, spacer, lost, k, x, RowOf(vs, k));
    InsertSpacer(g, vs, spacer, k, x);
    Assemble(ShiftDown(g, RowOf(vs, k)) + NewCells(x, RowOf(vs, k)), Inserted(vs, k, x), spacer, lost);
  }

  lemma InsertItems(vs: seq<View>, k: nat, x: View)
    requires k <= |vs|
    ensures Items(Inserted(vs, k, x)) == Items(vs) + {x.item}
    ensures Boxes(Inserted(vs, k, x)) >= Boxes(vs)
  {
    var ws := Inserted(vs, k, x);
    assert ws[k] == x;
    assert forall v :: v in vs ==> v in ws;
    assert forall v :: v in ws ==> v in vs || v == x;
  }

  lemma RemovePlaced(g: Grid, vs: seq<View>, k: nat, j: nat)
    requires j < |vs| && k < |vs| && j != k && OnlyAt(vs, k) && !vs[k].open
    requires Placed(g, vs[j], RowOf(vs, j))
    ensures Placed(ShiftUp(g - OwnCells(vs[k].item), RowOf(vs, k)), vs[j],
                   if j < k then RowOf(vs, j) else RowOf(vs, j) - 1)
  {
    if j < k { RowsOrdered(vs, j, k); } else { RowsOrdered(vs, k, j); }
    assert RowOf(vs, j) >= 0;
    KeptPlaced(g, vs[j], RowOf(vs, j), vs[k].item);
    UpPlaced(g - OwnCells(vs[k].item), vs[j], RowOf(vs, j), RowOf(vs, k));
  }

  lemma KeptPlaced(g: Grid, v: View, r: int, item: Id)
    requires Placed(g, v, r) && v.item != item
    ensures Placed(g - OwnCells(item), v, r)
  {
    assert forall c :: c in OwnCells(item) ==> !Reads(v, c);
    SamePlaced(g, g - OwnCells(item), v, r);
  }

  lemma RemoveSpacer(g: Grid, vs: seq<View>, spacer: bool, k: nat)
    requires At(g, Spacer, spacer, RowOf(vs, |vs|)) && k < |vs| && !vs[k].open
    ensures At(ShiftUp(g - OwnCells(vs[k].item), RowOf(vs, k)), Spacer, spacer, RowOf(Removed(vs, k), |vs| - 1))
  {
    assert Inserted(Removed(vs, k), k, vs[k]) == vs;
    RowsInserted(Removed(vs, k), k, vs[k], |vs| - 1);
    RowsOrdered(vs, k, |vs|);
  }

  lemma RemoveClosed(g: Grid, vs: seq<View>, spacer: bool, lost: set<nat>, k: nat, row: int)
    requires Closed(g, Items(vs), Boxes(vs) + lost, spacer) && k < |vs| && !vs[k].heading.BoxHead?
    ensures Closed(ShiftUp(g - OwnCells(vs[k].item), row), Items(Removed(vs, k)), Boxes(Removed(vs, k)) + lost, spacer)
  {
    var ws := Removed(vs, k);
    assert forall v :: v in vs ==> v in ws || v == vs[k];
    forall c | c in g && c !in OwnCells(vs[k].item)
      ensures Belongs(c, Items(ws), Boxes(ws) + lost, spacer)
    {
      assert Belongs(c, Items(vs), Boxes(vs) + lost, spacer);
    }
  }

  /** All the cells one item can own. */
  function OwnCells(item: Id): set<Cell> {
    {Label(item), Button(item), Editor(item), ValueLabel(item), Container(item)}
  }

  lemma RemoveOthers(g: Grid, vs: seq<View>, k: nat)
    requires AllPlaced(g, vs) && k < |vs| && OnlyAt(vs, k) && !vs[k].open
    ensures OthersPlaced(ShiftUp(g - OwnCells(vs[k].item), RowOf(vs, k)), vs, k, -1)
  {
    var h := ShiftUp(g - OwnCells(vs[k].item), RowOf(vs, k));
    forall j {:trigger RowOf(vs, j)} | 0 <= j < |vs| && j != k
      ensures Placed(h, vs[j], if j < k then RowOf(vs, j) else RowOf(vs, j) - 1)
    {
      RemovePlaced(g, vs, k, j);
    }
  }

  lemma CloseGap(h: Grid, vs: seq<View>, k: nat)
    requires k < |vs| && !vs[k].open && OthersPlaced(h, vs, k, -1)
    ensures AllPlaced(h, Removed(vs, k))
  {
    var ws := Removed(vs, k);
    assert Inserted(ws, k, vs[k]) == vs;
    forall i {:trigger RowOf(ws, i)} | 0 <= i < |ws|
      ensures Placed(h, ws[i], RowOf(ws, i))
    {
      RowsInserted(ws, k, vs[k], i);
      assert RowOf(vs, if i < k then i else i + 1) >= 0;
    }
  }

  lemma RemoveAllPlaced(g: Grid, vs: seq<View>, k: nat)
    requires AllPlaced(g, vs) && k < |vs| && OnlyAt(vs, k) && !vs[k].open
    ensures AllPlaced(ShiftUp(g - OwnCells(vs[k].item), RowOf(vs, k)), Removed(vs, k))
  {
    RemoveOthers(g, vs, k);
    CloseGap(ShiftUp(g - OwnCells(vs[k].item), RowOf(vs, k)), vs, k);
  }

  /** Deleting a closed item's widgets and then its row. */
  lemma RemoveAgrees(g: Grid, vs: seq<View>, spacer: bool, lost: set<nat>, k: nat)
    requires Agrees(g, vs, spacer, lost) && k < |vs| && OnlyAt(vs, k) && !vs[k].open && !vs[k].heading.BoxHead?
    ensures Agrees(ShiftUp(g - OwnCells(vs[k].item), RowOf(vs, k)), Removed(vs, k), spacer, lost)
  {
    RemoveAllPlaced(g, vs, k);
    RemoveSpacer(g, vs, spacer, k);
    RemoveClosed(g, vs, spacer, lost, k, RowOf(vs, k));
    Assemble(ShiftUp(g - OwnCells(vs[k].item), RowOf(vs, k)), Removed(vs, k), spacer, lost);
  }

  // ----- edits of one item: the list keeps its items, entry k is replaced by x

  lemma UpdateAgrees(g: Grid, vs: seq<View>, spacer: bool, lost: set<nat>, k: nat, x: View,
                        h: Grid, lost': set<nat>)
    requires Agrees(g, vs, spacer, lost) && k < |vs| && x.item == vs[k].item
    requires Placed(h, x, RowOf(vs, k))
    requires OthersPlaced(h, vs, k, Span(x) - Span(vs[k]))
    requires At(h, Spacer, spacer, RowOf(vs, |vs|) + Span(x) - Span(vs[k]))
    requires Closed(h, Items(vs), Boxes(vs[k := x]) + lost', spacer)
    ensures Agrees(h, vs[k := x], spacer, lost')
  {
    var ws := vs[k := x];
    forall i | 0 <= i < |ws|
      ensures Placed(h, ws[i], RowOf(ws, i))
    {
      RowsUpdated(vs, k, x, i);
      assert RowOf(vs, i) >= 0;
    }
    RowsUpdated(vs, k, x, |vs|);
    UpdateItems(vs, k, x);
  }

  lemma UpdateItems(vs: seq<View>, k: nat, x: View)
    requires k < |vs| && x.item == vs[k].item
    ensures Items(vs[k := x]) == Items(vs)
    ensures Boxes(vs[k := x]) >= Boxes(vs) - (if vs[k].heading.BoxHead? then {vs[k].heading.box} else {})
    ensures x.heading.BoxHead? ==> x.heading.box in Boxes(vs[k := x])
  {
    var ws := vs[k := x];
    assert ws[k] == x;
    forall v | v in vs
      ensures v.item in Items(ws) && (v in ws || v == vs[k])
    {
      var i :| 0 <= i < |vs| && vs[i] == v;
      assert ws[i] in ws;
    }
    forall v | v in ws
      ensures v.item in Items(vs)
    {
      var i :| 0 <= i < |ws| && ws[i] == v;
      assert vs[i] in vs;
    }
  }

  lemma UpdateClosed(g: Grid, vs: seq<View>, spacer: bool, lost: set<nat>, k: nat, x: View, h: Grid)
    requires Closed(g, Items(vs), Boxes(vs) + lost, spacer) && k < |vs| && x.item == vs[k].item
    requires forall c :: c in h ==> c in g || (c.Box? && x.heading == BoxHead(c.box)) || c in OwnCells(x.item)
    ensures Closed(h, Items(vs), Boxes(vs[k := x]) + Abandoned(vs[k], lost), spacer)
  {
    UpdateItems(vs, k, x);
    assert vs[k] in vs;
    forall c | c in h
      ensures Belongs(c, Items(vs), Boxes(vs[k := x]) + Abandoned(vs[k], lost), spacer)
    {
      if c in g { assert Belongs(c, Items(vs), Boxes(vs) + lost, spacer); }
    }
  }

  /** The lost boxes once v's heading is given up. */
  ghost function Abandoned(v: View, lost: set<nat>): set<nat> {
    if v.heading.BoxHead? then lost + {v.heading.box} else lost
  }

  function Opened(g: Grid, item: Id, row: int): Grid {
    ShiftDown(g, row + 1)[Container(item) := row + 1]
  }

  function ClosedUp(g: Grid, item: Id, row: int): Grid {
    ShiftUp(g - {Container(item)}, row + 1)
  }

  lemma OpenPlaced(g: Grid, vs: seq<View>, k: nat, j: nat)
    requires j < |vs| && k < |vs| && j != k && OnlyAt(vs, k) && !vs[k].open
    requires Placed(g, vs[j], RowOf(vs, j))
    ensures Placed(Opened(g, vs[k].item, RowOf(vs, k)), vs[j], if j < k then RowOf(vs, j) else RowOf(vs, j) + 1)
  {
    assert RowOf(vs, j) >= 0;
    var row := RowOf(vs, k);
    if j < k { RowsOrdered(vs, j, k); } else { RowsOrdered(vs, k, j); }
    DownPlaced(g, vs[j], RowOf(vs, j), row + 1);
    SamePlaced(ShiftDown(g, row + 1), Opened(g, vs[k].item, row), vs[j],
               if j < k then RowOf(vs, j) else RowOf(vs, j) + 1);
  }

  lemma OpenSelf(g: Grid, v: View, row: int)
    requires Placed(g, v, row) && !v.open
    ensures Placed(Opened(g, v.item, row), v.(open := true), row)
  {
    DownPlaced(g, v, row, row + 1);
  }

  lemma OpenSpacer(g: Grid, vs: seq<View>, spacer: bool, k: nat)
    requires k < |vs| && !vs[k].open && At(g, Spacer, spacer, RowOf(vs, |vs|))
    ensures At(Opened(g, vs[k].item, RowOf(vs, k)), Spacer, spacer, RowOf(vs, |vs|) + 1)
  {
    RowsOrdered(vs, k, |vs|);
  }

  lemma OpenClosed(g: Grid, vs: seq<View>, spacer: bool, lost: set<nat>, k: nat)
    requires Closed(g, Items(vs), Boxes(vs) + lost, spacer) && k < |vs|
    ensures Closed(Opened(g, vs[k].item, RowOf(vs, k)), Items(vs),
                   Boxes(vs[k := vs[k].(open := true)]) + lost, spacer)
  {
    var x := vs[k].(open := true);
    UpdateClosed(g, vs, spacer, lost, k, x, Opened(g, x.item, RowOf(vs, k)));
    KeptBoxes(vs, k, x, lost);
  }

  lemma OpenOthers(g: Grid, vs: seq<View>, k: nat)
    requires AllPlaced(g, vs) && k < |vs| && OnlyAt(vs, k) && !vs[k].open
    ensures OthersPlaced(Opened(g, vs[k].item, RowOf(vs, k)), vs, k, 1)
  {
    var h := Opened(g, vs[k].item, RowOf(vs, k));
    forall j {:trigger RowOf(vs, j)} | 0 <= j < |vs| && j != k
      ensures Placed(h, vs[j], if j < k then RowOf(vs, j) else RowOf(vs, j) + 1)
    {
      OpenPlaced(g, vs, k, j);
    }
  }

  /** setExpanded(true): a row is inserted below the item and the container goes there. */
  lemma OpenAgrees(g: Grid, vs: seq<View>, spacer: bool, lost: set<nat>, k: nat)
    requires Agrees(g, vs, spacer, lost) && k < |vs| && OnlyAt(vs, k) && !vs[k].open
    ensures Agrees(Opened(g, vs[k].item, RowOf(vs, k)), vs[k := vs[k].(open := true)], spacer, lost)
  {
    var x := vs[k].(open := true);
    OpenSelf(g, vs[k], RowOf(vs, k));
    OpenOthers(g, vs, k);
    OpenSpacer(g, vs, spacer, k);
    OpenClosed(g, vs, spacer, lost, k);
    UpdateAgrees(g, vs, spacer, lost, k, x, Opened(g, x.item, RowOf(vs, k)), lost);
  }

  lemma KeptBoxes(vs: seq<View>, k: nat, x: View, lost: set<nat>)
    requires k < |vs| && x.item == vs[k].item && x.heading == vs[k].heading
    ensures Boxes(vs[k := x]) + Abandoned(vs[k], lost) == Boxes(vs[k := x]) + lost
  {
    UpdateItems(vs, k, x);
  }

  lemma ClosePlaced(g: Grid, vs: seq<View>, k: nat, j: nat)
    requires j < |vs| && k < |vs| && j != k && OnlyAt(vs, k) && vs[k].open
    requires Placed(g, vs[j], RowOf(vs, j))
    ensures Placed(ClosedUp(g, vs[k].item, RowOf(vs, k)), vs[j], if j < k then RowOf(vs, j) else RowOf(vs, j) - 1)
  {
    assert RowOf(vs, j) >= 0;
    if j < k { RowsOrdered(vs, j, k); } else { RowsOrdered(vs, k, j); }
    SamePlaced(g, g - {Container(vs[k].item)}, vs[j], RowOf(vs, j));
    UpPlaced(g - {Container(vs[k].item)}, vs[j], RowOf(vs, j), RowOf(vs, k) + 1);
  }

  lemma CloseSelf(g: Grid, v: View, row: int)
    requires Placed(g, v, row)
    ensures Placed(ClosedUp(g, v.item, row), v.(open := false), row)
  {
    UpPlaced(g - {Container(v.item)}, v.(open := false), row, row + 1);
  }

  lemma CloseSpacer(g: Grid, vs: seq<View>, spacer: bool, k: nat)
    requires k < |vs| && vs[k].open && At(g, Spacer, spacer, RowOf(vs, |vs|))
    ensures At(ClosedUp(g, vs[k].item, RowOf(vs, k)), Spacer, spacer, RowOf(vs, |vs|) - 1)
  {
    RowsOrdered(vs, k, |vs|);
  }

  /** setExpanded(false): the container leaves the grid and its row goes. */
  lemma CloseAgrees(g: Grid, vs: seq<View>, spacer: bool, lost: set<nat>, k: nat)
    requires Agrees(g, vs, spacer, lost) && k < |vs| && OnlyAt(vs, k) && vs[k].open
    ensures Agrees(ClosedUp(g, vs[k].item, RowOf(vs, k)), vs[k := vs[k].(open := false)], spacer, lost)
  {
    var x := vs[k].(open := false);
    var h := ClosedUp(g, x.item, RowOf(vs, k));
    CloseSelf(g, vs[k], RowOf(vs, k));
    forall j {:trigger RowOf(vs, j)} | 0 <= j < |vs| && j != k
      ensures Placed(h, vs[j], if j < k then RowOf(vs, j) else RowOf(vs, j) - 1)
    {
      ClosePlaced(g, vs, k, j);
    }
    CloseSpacer(g, vs, spacer, k);
    UpdateClosed(g, vs, spacer, lost, k, x, h);
    KeptBoxes(vs, k, x, lost);
    UpdateAgrees(g, vs, spacer, lost, k, x, h, lost);
  }

  function HeadCells(x: View, row: int): Grid {
    match x.heading
    case NoHead => map[]
    case LabelHead => map[Label(x.item) := row]
    case ButtonHead => map[Button(x.item) := row]
    case BoxHead(n) => map[Box(n) := row]
  }

  function Reheaded(g: Grid, x: View, row: int): Grid {
    g - {Label(x.item), Button(x.item)} + HeadCells(x, row)
  }

  lemma ReheadedCells(g: Grid, x: View, row: int)
    ensures x.heading == ButtonHead ==>
              Reheaded(g, x, row) == (g - {Label(x.item), Button(x.item)})[Button(x.item) := row]
    ensures x.heading.BoxHead? ==>
              Reheaded(g, x, row) == (g - {Label(x.item), Button(x.item)})[Box(x.heading.box) := row]
  {}

  lemma ReheadPlaced(g: Grid, v: View, r: int, x: View, row: int)
    requires Placed(g, v, r) && v.item != x.item
    requires x.heading.BoxHead? ==> Box(x.heading.box) !in g
    ensures Placed(Reheaded(g, x, row), v, r)
  {
    SamePlaced(g, Reheaded(g, x, row), v, r);
  }

  lemma ReheadSelf(g: Grid, v: View, row: int, head: Heading)
    requires Placed(g, v, row)
    ensures Placed(Reheaded(g, v.(heading := head), row), v.(heading := head), row)
  {}

  /** The label, the button or a new box changes places in column 0; an old box stays behind and is lost. */
  lemma ReheadAgrees(g: Grid, vs: seq<View>, spacer: bool, lost: set<nat>, k: nat, head: Heading)
    requires Agrees(g, vs, spacer, lost) && k < |vs| && OnlyAt(vs, k)
    requires head.BoxHead? ==> Box(head.box) !in g
    ensures var x := vs[k].(heading := head);
            Agrees(Reheaded(g, x, RowOf(vs, k)), vs[k := x], spacer, Abandoned(vs[k], lost))
  {
    var row := RowOf(vs, k);
    var x := vs[k].(heading := head);
    var h := Reheaded(g, x, row);
    ReheadSelf(g, vs[k], row, head);
    forall j {:trigger RowOf(vs, j)} | 0 <= j < |vs| && j != k
      ensures Placed(h, vs[j], RowOf(vs, j))
    {
      ReheadPlaced(g, vs[j], RowOf(vs, j), x, row);
    }
    UpdateClosed(g, vs, spacer, lost, k, x, h);
    UpdateAgrees(g, vs, spacer, lost, k, x, h, Abandoned(vs[k], lost));
  }

  lemma RelabelAgrees(g: Grid, vs: seq<View>, spacer: bool, lost: set<nat>, k: nat)
    requires Agrees(g, vs, spacer, lost) && k < |vs| && OnlyAt(vs, k) && vs[k].heading == NoHead
    ensures Agrees(g[Label(vs[k].item) := RowOf(vs, k)], vs[k := vs[k].(heading := LabelHead)], spacer, lost)
  {
    var h := g[Label(vs[k].item) := RowOf(vs, k)];
    assert Placed(g, vs[k], RowOf(vs, k));
    assert Reheaded(g, vs[k].(heading := LabelHead), RowOf(vs, k)) == h;
    ReheadAgrees(g, vs, spacer, lost, k, LabelHead);
  }

  /** The item's button and container leave; if it was open, its second row closes. */
  function Folded(g: Grid, v: View, row: int): Grid {
    if v.open then ClosedUp(g - {Button(v.item)}, v.item, row) else g - {Button(v.item)} - {Container(v.item)}
  }

  lemma OnlyAtUpdated(vs: seq<View>, k: nat, x: View)
    requires k < |vs| && OnlyAt(vs, k) && x.item == vs[k].item
    ensures OnlyAt(vs[k := x], k)
  {
    forall j {:trigger vs[j]} | 0 <= j < |vs| && j != k
      ensures vs[k := x][j].item != x.item
    {
      assert RowOf(vs, j) >= 0;
    }
  }

  lemma UnheadAgrees(g: Grid, vs: seq<View>, spacer: bool, lost: set<nat>, k: nat)
    requires Agrees(g, vs, spacer, lost) && k < |vs| && OnlyAt(vs, k) && !vs[k].heading.LabelHead?
    ensures Agrees(g - {Button(vs[k].item)}, vs[k := vs[k].(heading := NoHead)], spacer, Abandoned(vs[k], lost))
  {
    assert Placed(g, vs[k], RowOf(vs, k));
    assert Reheaded(g, vs[k].(heading := NoHead), RowOf(vs, k)) == g - {Button(vs[k].item)};
    ReheadAgrees(g, vs, spacer, lost, k, NoHead);
  }

  lemma FoldAgrees(g: Grid, vs: seq<View>, spacer: bool, lost: set<nat>, k: nat)
    requires Agrees(g, vs, spacer, lost) && k < |vs| && OnlyAt(vs, k) && !vs[k].heading.LabelHead?
    ensures Agrees(Folded(g, vs[k], RowOf(vs, k)), vs[k := vs[k].(heading := NoHead, open := false)], spacer,
                   Abandoned(vs[k], lost))
  {
    var x := vs[k].(heading := NoHead);
    UnheadAgrees(g, vs, spacer, lost, k);
    OnlyAtUpdated(vs, k, x);
    FoldedRow(g - {Button(x.item)}, vs[k := x], spacer, Abandoned(vs[k], lost), k);
    RowsUpdated(vs, k, x, k);
    assert vs[k := x][k := x.(open := false)] == vs[k := x.(open := false)];
  }

  lemma FoldedRow(g: Grid, vs: seq<View>, spacer: bool, lost: set<nat>, k: nat)
    requires Agrees(g, vs, spacer, lost) && k < |vs| && OnlyAt(vs, k)
    ensures var x := vs[k].(open := false);
            Agrees(if vs[k].open then ClosedUp(g, x.item, RowOf(vs, k)) else g - {Container(x.item)},
                   vs[k := x], spacer, lost)
  {
    if vs[k].open {
      CloseAgrees(g, vs, spacer, lost, k);
    } else {
      assert Placed(g, vs[k], RowOf(vs, k));
      assert g - {Container(vs[k].item)} == g;
      assert vs[k := vs[k].(open := false)] == vs;
    }
  }

  lemma BoxOwnedOnce(g: Grid, vs: seq<View>, k: nat, j: nat)
    requires AllPlaced(g, vs) && k < |vs| && j < |vs| && vs[k].heading.BoxHead? && vs[j].heading == vs[k].heading
    ensures j == k
  {
    if j < k { RowsOrdered(vs, j, k); }
    if k < j { RowsOrdered(vs, k, j); }
    assert Placed(g, vs[k], RowOf(vs, k)) && Placed(g, vs[j], RowOf(vs, j));
  }

  lemma FoldKeepsBox(g: Grid, v: View, row: int)
    requires Placed(g, v, row) && v.heading.BoxHead?
    ensures Box(v.heading.box) in Folded(g, v, row)
  {}

  /** After a fold the item's box belongs to nobody, and it is still in the grid. */
  lemma FoldLeavesBox(g: Grid, vs: seq<View>, k: nat)
    requires AllPlaced(g, vs) && k < |vs| && vs[k].heading.BoxHead?
    ensures !Tidy(Folded(g, vs[k], RowOf(vs, k)), vs[k := vs[k].(heading := NoHead, open := false)])
  {
    var x := vs[k].(heading := NoHead, open := false);
    FoldKeepsBox(g, vs[k], RowOf(vs, k));
    if vs[k].heading.box in Boxes(vs[k := x]) {
      var v :| v in vs[k := x] && v.heading == vs[k].heading;
      var j :| 0 <= j < |vs| && vs[k := x][j] == v;
      BoxOwnedOnce(g, vs, k, j);
    }
  }

  /** The editor widget is destroyed from outside. */
  lemma EditorGoneAgrees(g: Grid, vs: seq<View>, spacer: bool, lost: set<nat>, k: nat)
    requires Agrees(g, vs, spacer, lost) && k < |vs| && OnlyAt(vs, k)
    ensures Agrees(g - {Editor(vs[k].item)}, vs[k := vs[k].(editor := false)], spacer, lost)
  {
    var x := vs[k].(editor := false);
    var h := g - {Editor(x.item)};
    assert Placed(g, vs[k], RowOf(vs, k));
    forall j {:trigger RowOf(vs, j)} | 0 <= j < |vs| && j != k
      ensures Placed(h, vs[j], RowOf(vs, j))
    {
      SamePlaced(g, h, vs[j], RowOf(vs, j));
    }
    UpdateClosed(g, vs, spacer, lost, k, x, h);
    KeptBoxes(vs, k, x, lost);
    UpdateAgrees(g, vs, spacer, lost, k, x, h, lost);
  }

  // ----- the grid recomputed from the tree

  /** All the cells that v calls for when its row is `row`. */
  ghost function CellsOf(v: View, row: int): Grid {
    HeadCells(v, row) +
    (if v.editor then map[Editor(v.item) := row] else map[]) +
    (if v.valueLabel then map[ValueLabel(v.item) := row] else map[]) +
    (if v.open then map[Container(v.item) := row + 1] else map[])
  }

  ghost function Union(grids: seq<Grid>): Grid {
    if grids == [] then map[] else Union(grids[..|grids| - 1]) + grids[|grids| - 1]
  }

  lemma {:induction false} InUnion(grids: seq<Grid>, i: nat, c: Cell)
    requires i < |grids| && c in grids[i]
    ensures c in Union(grids)
  {
    if i == |grids| - 1 {
    } else {
      InUnion(grids[..|grids| - 1], i, c);
    }
  }

  lemma {:induction false} FromUnion(grids: seq<Grid>, c: Cell) returns (i: nat)
    requires c in Union(grids)
    ensures i < |grids| && c in grids[i] && Union(grids)[c] == grids[i][c]
  {
    i := |grids| - 1;
    if c !in grids[i] { i := FromUnion(grids[..i], c); }
  }

  /** The cells of every item, for the row that it gets. */
  ghost function RowByRow(vs: seq<View>): seq<Grid> {
    seq(|vs|, i requires 0 <= i < |vs| => CellsOf(vs[i], RowOf(vs, i)))
  }

  /** The grid built from scratch, row after row. */
  ghost function Recomputed(vs: seq<View>): Grid {
    Union(RowByRow(vs))
  }

  lemma CellsOfOwner(v: View, row: int, c: Cell)
    requires c in CellsOf(v, row)
    ensures !c.Spacer? && if c.Box? then v.heading == BoxHead(c.box) else c.item == v.item
  {}

  lemma PlacedShows(g: Grid, v: View, row: int, c: Cell)
    requires Placed(g, v, row) && c in CellsOf(v, row)
    ensures c in g && g[c] == CellsOf(v, row)[c]
  {}

  /** What a grid that agrees with vs holds, cell by cell: c is there if some item calls for it. */
  lemma AgreesWithRecomputed(g: Grid, vs: seq<View>, c: Cell)
    requires AllPlaced(g, vs) && c in Recomputed(vs)
    ensures c in g && g[c] == Recomputed(vs)[c] && !c.Spacer?
  {
    var i := FromUnion(RowByRow(vs), c);
    PlacedShows(g, vs[i], RowOf(vs, i), c);
    CellsOfOwner(vs[i], RowOf(vs, i), c);
  }

  lemma CalledFor(vs: seq<View>, i: nat, c: Cell)
    requires i < |vs| && c in CellsOf(vs[i], RowOf(vs, i))
    ensures c in Recomputed(vs)
  {
    InUnion(RowByRow(vs), i, c);
  }

  lemma CellHasOwner(g: Grid, vs: seq<View>, spacer: bool, lost: set<nat>, c: Cell)
    requires Agrees(g, vs, spacer, lost) && Tidy(g, vs) && c in g && !c.Spacer?
    ensures c in Recomputed(vs)
  {
    assert Belongs(c, Items(vs), Boxes(vs) + lost, spacer);
    var v :| v in vs && (if c.Box? then v.heading == BoxHead(c.box) else v.item == c.item);
    var i :| 0 <= i < |vs| && vs[i] == v;
    assert Placed(g, vs[i], RowOf(vs, i));
    CalledFor(vs, i, c);
  }

  /** The incrementally edited grid is the grid recomputed from the tree, plus the spacer at the total of the
      spans, exactly when no box has been left behind. */
  lemma AgreesIsRecomputed(g: Grid, vs: seq<View>, spacer: bool, lost: set<nat>)
    requires Agrees(g, vs, spacer, lost)
    ensures Tidy(g, vs) <==> g == Recomputed(vs) + (if spacer then map[Spacer := RowOf(vs, |vs|)] else map[])
  {
    var r := Recomputed(vs) + (if spacer then map[Spacer := RowOf(vs, |vs|)] else map[]);
    forall c | c in r
      ensures c in g && g[c] == r[c]
    {
      if c in Recomputed(vs) { AgreesWithRecomputed(g, vs, c); }
    }
    if Tidy(g, vs) {
      forall c | c in g
        ensures c in r
      {
        if !c.Spacer? { CellHasOwner(g, vs, spacer, lost, c); }
      }
      assert g == r;
    }
    if g == r {
      forall n | Box(n) in g
        ensures n in Boxes(vs)
      {
        RecomputedBoxes(vs, n);
      }
    }
  }

  lemma RecomputedBoxes(vs: seq<View>, n: nat)
    ensures Box(n) in Recomputed(vs) ==> n in Boxes(vs)
  {
    if Box(n) in Recomputed(vs) {
      var i := FromUnion(RowByRow(vs), Box(n));
      CellsOfOwner(vs[i], RowOf(vs, i), Box(n));
      assert vs[i] in vs;
    }
  }
}
