/** DataFlowNetwork::addModule with a direction: the search for a free slot for a new module. Positions are exact
    numbers; the distance test is on squares. */
module SlotSearch {

  datatype Point = Point(x: real, y: real)

  datatype Key = Down | Up | Left | Right | OtherKey

  const THRESHOLD := 30.0

  function Offset(direction: Key): Point {
    match direction
    case Down => Point(0.0, 80.0)
    case Up => Point(0.0, -80.0)
    case Left => Point(-160.0, 0.0)
    case Right => Point(160.0, 0.0)
    case OtherKey => Point(0.0, 0.0)
  }

  function Plus(p: Point, q: Point): Point {
    Point(p.x + q.x, p.y + q.y)
  }

  /** The distance of the two points is below the threshold. */
  predicate Near(p: Point, q: Point) {
    (p.x - q.x) * (p.x - q.x) + (p.y - q.y) * (p.y - q.y) < THRESHOLD * THRESHOLD
  }

  /** The k-th slot from start on. */
  function Slot(start: Point, offset: Point, k: nat): Point {
    Point(start.x + k as real * offset.x, start.y + k as real * offset.y)
  }

  /** The slots go down or up by 80, to the left or to the right by 160. */
  lemma SlotsAre(start: Point, k: nat)
    ensures Slot(start, Offset(Down), k) == Point(start.x, start.y + 80.0 * k as real)
    ensures Slot(start, Offset(Up), k) == Point(start.x, start.y - 80.0 * k as real)
    ensures Slot(start, Offset(Left), k) == Point(start.x - 160.0 * k as real, start.y)
    ensures Slot(start, Offset(Right), k) == Point(start.x + 160.0 * k as real, start.y)
    ensures Slot(start, Offset(OtherKey), k) == start
  {}

  predicate Free(modules: seq<Point>, p: Point) {
    forall i :: 0 <= i < |modules| ==> !Near(modules[i], p)
  }

  /** Every module is at least 30 away from a free place. */
  lemma FreeIsFar(modules: seq<Point>, p: Point, m: Point)
    requires Free(modules, p) && m in modules
    ensures (m.x - p.x) * (m.x - p.x) + (m.y - p.y) * (m.y - p.y) >= 900.0
  {
    var i :| 0 <= i < |modules| && modules[i] == m;
    assert !Near(modules[i], p);
  }

  lemma NearAlongX(m: Point, p: Point)
    requires Near(m, p)
    ensures -THRESHOLD < m.x - p.x < THRESHOLD && -THRESHOLD < m.y - p.y < THRESHOLD
  {
    var dx, dy := m.x - p.x, m.y - p.y;
    assert dx * dx >= 0.0 && dy * dy >= 0.0;
    Square(dx);
    Square(dy);
  }

  lemma Square(d: real)
    ensures d >= THRESHOLD || d <= -THRESHOLD ==> d * d >= THRESHOLD * THRESHOLD
  {}

  /** A module is near at most one of the slots in an arrow direction: they are at least 80 apart. */
  lemma BlocksOneSlot(m: Point, start: Point, direction: Key, j: nat, k: nat)
    requires direction != OtherKey
    requires Near(m, Slot(start, Offset(direction), j)) && Near(m, Slot(start, Offset(direction), k))
    ensures j == k
  {
    var d := j as real - k as real;
    assert j != k ==> d <= -1.0 || d >= 1.0;
    NearAlongX(m, Slot(start, Offset(direction), j));
    NearAlongX(m, Slot(start, Offset(direction), k));
  }

  ghost predicate Distinct(s: seq<nat>) {
    forall i, j :: 0 <= i < j < |s| ==> s[i] != s[j]
  }

  /** Pigeonhole: distinct numbers below n are at most n. */
  lemma {:induction false} FewBlockers(s: seq<nat>, n: nat)
    requires Distinct(s) && forall i :: 0 <= i < |s| ==> s[i] < n
    ensures |s| <= n
  {
    if s == [] {
    } else {
      assert s[0] < n;
      if i :| 0 <= i < |s| && s[i] == n - 1 {
        FewBlockers(s[..i] + s[i + 1..], n - 1);
      } else {
        FewBlockers(s, n - 1);
      }
    }
  }

  /** The first free slot in an arrow direction; at most as many moves as there are modules. The search also ends
      for any other key as long as nothing is near the last drop position. */
  method FindSlot(modules: seq<Point>, lastDropPos: Point, direction: Key) returns (newPos: Point)
    requires direction == OtherKey ==> Free(modules, lastDropPos)
    ensures Free(modules, newPos)
    ensures exists k: nat :: 1 <= k <= |modules| + 1 && newPos == Slot(lastDropPos, Offset(direction), k) &&
              forall j :: 1 <= j < k ==> !Free(modules, Slot(lastDropPos, Offset(direction), j))
  {
    var offset := Offset(direction);
    newPos := Plus(lastDropPos, offset);
    ghost var moves := 0;
    ghost var blockers: seq<nat> := [];
    var i := 0;
    while i < |modules|
      invariant 0 <= i <= |modules|
      invariant newPos == Slot(lastDropPos, offset, moves + 1)
      invariant direction == OtherKey ==> moves == 0
      invariant forall j :: 0 <= j < i ==> !Near(modules[j], newPos)
      invariant |blockers| == moves && Distinct(blockers)
      invariant forall j :: 0 <= j < moves ==> blockers[j] < |modules|
      invariant forall j :: 0 <= j < moves ==> Near(modules[blockers[j]], Slot(lastDropPos, offset, j + 1))
      invariant moves <= |modules|
      decreases |modules| - moves, |modules| - i
    {
      if Near(modules[i], newPos) {
        forall j | 0 <= j < moves
          ensures blockers[j] != i
        {
          if blockers[j] == i { BlocksOneSlot(modules[i], lastDropPos, direction, j + 1, moves + 1); }
        }
        blockers := blockers + [i];
        FewBlockers(blockers, |modules|);
        moves := moves + 1;
        newPos := Plus(newPos, offset);
        i := -1;
      }
      i := i + 1;
    }
    forall j | 1 <= j < moves + 1
      ensures !Free(modules, Slot(lastDropPos, offset, j))
    {
      assert Near(modules[blockers[j - 1]], Slot(lastDropPos, offset, (j - 1) + 1));
    }
  }

  /** A slot can be found exactly if the key is an arrow or the place of the last drop is free: another key does
      not move, and then a blocked place stays blocked for ever. */
  lemma SlotExistsIff(modules: seq<Point>, lastDropPos: Point, direction: Key)
    ensures (exists k: nat :: k >= 1 && Free(modules, Slot(lastDropPos, Offset(direction), k))) <==>
            direction != OtherKey || Free(modules, lastDropPos)
  {
    if direction == OtherKey {
      assert forall k: nat :: Slot(lastDropPos, Offset(direction), k) == lastDropPos;
      assert Slot(lastDropPos, Offset(direction), 1) == lastDropPos;
    } else {
      SomeSlotFree(modules, lastDropPos, direction);
    }
  }

  lemma SomeSlotFree(modules: seq<Point>, lastDropPos: Point, direction: Key)
    requires direction != OtherKey
    ensures exists k: nat :: k >= 1 && Free(modules, Slot(lastDropPos, Offset(direction), k))
  {
    var n := |modules| + 1;
    var blockers := Blockers(modules, lastDropPos, direction, n);
    if |blockers| == n { FewBlockers(blockers, |modules|); }
  }

  /** One blocker for each of the first n slots, as long as none of them is free. */
  lemma {:induction false} Blockers(modules: seq<Point>, start: Point, direction: Key, n: nat) returns (s: seq<nat>)
    requires direction != OtherKey
    ensures |s| <= n && Distinct(s)
    ensures forall j :: 0 <= j < |s| ==> s[j] < |modules| && Near(modules[s[j]], Slot(start, Offset(direction), j + 1))
    ensures |s| < n ==> Free(modules, Slot(start, Offset(direction), |s| + 1))
  {
    if n == 0 { return []; }
    s := Blockers(modules, start, direction, n - 1);
    if |s| == n - 1 && !Free(modules, Slot(start, Offset(direction), n)) {
      var i: nat :| i < |modules| && Near(modules[i], Slot(start, Offset(direction), n));
      forall j | 0 <= j < |s|
        ensures s[j] != i
      {
        if s[j] == i { BlocksOneSlot(modules[i], start, direction, j + 1, n); }
      }
      s := s + [i];
    }
  }
}
