/** Vectors of integers as properties: each has four sub-properties, and a change on either side reaches the other. */
module LongVectorProperty {
  import opened Runs
  import L = LongProperty

  type Id = nat

  const MAX_DIMENSION := 4

  /** The first dim of the four numbers count. */
  datatype Vector = Vector(dim: nat, v: seq<int>) {
    ghost predicate Valid() {
      && dim <= MAX_DIMENSION == |v|
      && forall i :: 0 <= i < |v| ==> L.InRange(L.INITIAL, v[i])
    }

    predicate SameAs(other: Vector)
      requires |v| == MAX_DIMENSION == |other.v| && dim <= MAX_DIMENSION
    {
      dim == other.dim && forall i :: 0 <= i < dim ==> v[i] == other.v[i]
    }
  }

  const INITIAL := Vector(0, [0, 0, 0, 0])

  datatype Event = Published(p: Id, val: Vector) | DimensionChanged(p: Id, dim: nat)

  /** A property with its stored dimension, the numbers of the sub-properties, the two maps between them (for each
      component), and the signals so far. */
  datatype Data = Data(val: Vector, dimension: nat)
  datatype State = State(
    values: map<Id, Data>, subs: map<Id, int>, toSub: map<(nat, Id), Id>, fromSub: map<(nat, Id), Id>, log: seq<Event>)

  const EMPTY := State(map[], map[], map[], map[], [])

  // ----- the operations

  /** The first component that x stands for, or MAX_DIMENSION. */
  ghost function Component(fromSub: map<(nat, Id), Id>, x: Id, i: nat): (k: nat)
    requires i <= MAX_DIMENSION
    ensures i <= k <= MAX_DIMENSION
    ensures k < MAX_DIMENSION ==> (k, x) in fromSub
    ensures forall j: nat :: i <= j < k ==> (j, x) !in fromSub
    decreases MAX_DIMENSION - i
  {
    if i == MAX_DIMENSION || (i, x) in fromSub then i else Component(fromSub, x, i + 1)
  }

  ghost function SlotLongChanged(s: State, x: Id, n: int): State {
    var i := Component(s.fromSub, x, 0);
    if i == MAX_DIMENSION || s.fromSub[(i, x)] !in s.values || |s.values[s.fromSub[(i, x)]].val.v| <= i then s else
      var p := s.fromSub[(i, x)];
      var d := s.values[p];
      var u := d.val.(v := d.val.v[i := n]);
      s.(values := s.values[p := d.(val := u)], log := s.log + [Published(p, u)])
  }

  ghost function SetSub(s: State, x: Id, n: int): State {
    if x !in s.subs || s.subs[x] == n || L.Bound(L.INITIAL, n) == s.subs[x] then s else
      SlotLongChanged(s.(subs := s.subs[x := L.Bound(L.INITIAL, n)]), x, L.Bound(L.INITIAL, n))
  }

  /** Components k, k + 1, ... of val go to the sub-properties of p. */
  ghost function SetSubs(s: State, p: Id, val: Vector, k: nat): State
    requires val.Valid()
    decreases val.dim - k
  {
    if k >= val.dim then s
    else SetSubs(if (k, p) in s.toSub then SetSub(s, s.toSub[(k, p)], val.v[k]) else s, p, val, k + 1)
  }

  /** The dimension is stored in a copy, so only the signal is left of it. */
  ghost function SetDimension(s: State, p: Id, dim: nat): State {
    var d := if dim > MAX_DIMENSION then MAX_DIMENSION else dim;
    if p !in s.values || s.values[p].dimension == d then s else s.(log := s.log + [DimensionChanged(p, d)])
  }

  ghost predicate Changes(s: State, p: Id, val: Vector)
    requires val.Valid()
  {
    p in s.values && s.values[p].val.Valid() && !s.values[p].val.SameAs(val)
  }

  /** The beginning of a set: the vector is stored in full, and no component has been handed on yet. */
  ghost function Stored(s: State, p: Id, val: Vector): State
    requires val.Valid() && p in s.values
  {
    var t := if s.values[p].dimension != val.dim then SetDimension(s, p, val.dim) else s;
    t.(values := t.values[p := t.values[p].(val := val)])
  }

  ghost function SetValue(s: State, p: Id, val: Vector): State
    requires val.Valid()
  {
    if !Changes(s, p, val) then s else
      var u := SetSubs(Stored(s, p, val), p, val, 0);
      u.(log := u.log + [Published(p, val)])
  }

  ghost function AddSub(s: State, p: Id, i: nat, x: Id): State {
    s.(subs := s.subs[x := 0], toSub := s.toSub[(i, p) := x], fromSub := s.fromSub[(i, x) := p])
  }

  ghost function AddSubs(s: State, p: Id, xs: seq<Id>, k: nat): State
    decreases |xs| - k
  {
    if k >= |xs| then s else AddSubs(AddSub(s, p, k, xs[k]), p, xs, k + 1)
  }

  ghost function Initialize(s: State, p: Id, xs: seq<Id>): State {
    AddSubs(s.(values := s.values[p := Data(INITIAL, 0)]), p, xs, 0)
  }

  ghost function Removed(m: map<(nat, Id), Id>, keys: iset<(nat, Id)>): map<(nat, Id), Id> {
    map k | k in m && k !in keys :: m[k]
  }

  /** The sub-properties go too; the value stays behind. */
  ghost function Uninitialize(s: State, p: Id): State {
    State(s.values, map x | x in s.subs && !(exists i: nat :: (i, p) in s.toSub && s.toSub[(i, p)] == x) :: s.subs[x],
          Removed(s.toSub, iset i: nat | true :: (i, p)),
          map k | k in s.fromSub && s.fromSub[k] != p :: s.fromSub[k],
          s.log)
  }

  // ----- the invariant

  ghost predicate Inverse(s: State) {
    && (forall i, p :: (i, p) in s.toSub ==>
          i < MAX_DIMENSION && p in s.values && s.toSub[(i, p)] in s.subs && (i, s.toSub[(i, p)]) in s.fromSub)
    && (forall i, p :: (i, p) in s.toSub ==> s.fromSub[(i, s.toSub[(i, p)])] == p)
    && (forall i, x :: (i, x) in s.fromSub ==> (i, s.fromSub[(i, x)]) in s.toSub)
    && (forall i, x :: (i, x) in s.fromSub ==> s.toSub[(i, s.fromSub[(i, x)])] == x)
    && (forall i, j, x :: (i, x) in s.fromSub && (j, x) in s.fromSub ==> i == j)
  }

  ghost predicate Sane(s: State) {
    && (forall p :: p in s.values ==> s.values[p].val.Valid())
    && (forall x :: x in s.subs ==> L.InRange(L.INITIAL, s.subs[x]))
  }

  /** Component i of p is what its sub-property shows. */
  ghost predicate Agrees(s: State, i: nat, p: Id) {
    (i, p) in s.toSub && s.toSub[(i, p)] in s.subs && p in s.values && i < |s.values[p].val.v| ==>
      s.subs[s.toSub[(i, p)]] == s.values[p].val.v[i]
  }

  ghost predicate Inv(s: State) {
    Inverse(s) && Sane(s) && forall i: nat, p :: p in s.values && i < s.values[p].val.dim ==> Agrees(s, i, p)
  }

  // ----- a number changes

  /** A sub-property takes a number over, and its vector the same number at its place. */
  lemma SetSubResult(s: State, i: nat, p: Id, n: int)
    requires Inverse(s) && Sane(s) && (i, p) in s.toSub && L.InRange(L.INITIAL, n)
    ensures var x, d := s.toSub[(i, p)], s.values[p];
            var u := d.val.(v := d.val.v[i := n]);
            SetSub(s, x, n) == if s.subs[x] == n then s else
              s.(subs := s.subs[x := n], values := s.values[p := d.(val := u)], log := s.log + [Published(p, u)])
  {
    var x := s.toSub[(i, p)];
    assert L.Bound(L.INITIAL, n) == n;
    assert (i, x) in s.fromSub;
    assert Component(s.fromSub, x, 0) == i;
  }

  /** A number that does not fit is clipped to the nearest one that does. */
  lemma SetSubClips(s: State, x: Id, n: int)
    requires Sane(s) && x in s.subs
    ensures x in SetSub(s, x, n).subs && L.Nearest(L.INITIAL, n, SetSub(s, x, n).subs[x])
  {
    L.BoundNearest(L.INITIAL, n);
  }

  /** Two different places never share a sub-property. */
  lemma Apart(s: State, i: nat, p: Id, j: nat, q: Id)
    requires Inverse(s) && (i, p) in s.toSub && (j, q) in s.toSub && s.toSub[(i, p)] == s.toSub[(j, q)]
    ensures i == j && p == q
  {}

  lemma SetSubInv(s: State, x: Id, n: int)
    requires Inv(s) && L.InRange(L.INITIAL, n)
    ensures Inv(SetSub(s, x, n))
  {
    var i := Component(s.fromSub, x, 0);
    if i == MAX_DIMENSION { SetOther(s, x, n); } else { SetComponent(s, i, s.fromSub[(i, x)], n); }
  }

  lemma SetOther(s: State, x: Id, n: int)
    requires Inv(s) && L.InRange(L.INITIAL, n) && Component(s.fromSub, x, 0) == MAX_DIMENSION
    ensures Inv(SetSub(s, x, n))
  {
    var t := SetSub(s, x, n);
    forall j: nat, q | q in t.values && j < t.values[q].val.dim
      ensures Agrees(t, j, q)
    {
      assert Agrees(s, j, q);
      assert (j, q) in s.toSub ==> (j, s.toSub[(j, q)]) in s.fromSub;
    }
  }

  lemma SetComponent(s: State, i: nat, p: Id, n: int)
    requires Inv(s) && L.InRange(L.INITIAL, n) && (i, p) in s.toSub
    ensures Inv(SetSub(s, s.toSub[(i, p)], n))
  {
    var x := s.toSub[(i, p)];
    SetSubResult(s, i, p, n);
    var t := SetSub(s, x, n);
    forall j: nat, q | q in t.values && j < t.values[q].val.dim
      ensures Agrees(t, j, q)
    {
      assert Agrees(s, j, q);
      if (j, q) in s.toSub && s.toSub[(j, q)] == x { Apart(s, i, p, j, q); }
    }
  }

  // ----- a vector changes

  /** What holds while the components of val are handed to the sub-properties, one by one. */
  ghost predicate Halfway(s: State, t: State, p: Id, val: Vector, k: nat)
    requires p in s.values && val.Valid()
  {
    && Inverse(t) && Sane(t)
    && t.toSub == s.toSub && t.fromSub == s.fromSub
    && t.values == s.values[p := s.values[p].(val := val)]
    && s.log <= t.log
    && (forall e :: e in t.log[|s.log|..] && e.Published? ==> e == Published(p, val))
    && (forall j: nat, q :: q in t.values && j < t.values[q].val.dim && (q == p ==> j < k) ==> Agrees(t, j, q))
  }

  lemma {:induction false} SetSubsHalfway(s: State, t: State, p: Id, val: Vector, k: nat)
    requires p in s.values && val.Valid() && k <= val.dim && Halfway(s, t, p, val, k)
    ensures Halfway(s, SetSubs(t, p, val, k), p, val, val.dim)
    decreases val.dim - k
  {
    if k < val.dim {
      var u := if (k, p) in t.toSub then SetSub(t, t.toSub[(k, p)], val.v[k]) else t;
      HalfwayStep(s, t, p, val, k);
      SetSubsHalfway(s, u, p, val, k + 1);
    }
  }

  lemma HalfwayStep(s: State, t: State, p: Id, val: Vector, k: nat)
    requires p in s.values && val.Valid() && k < val.dim && Halfway(s, t, p, val, k)
    ensures var u := if (k, p) in t.toSub then SetSub(t, t.toSub[(k, p)], val.v[k]) else t;
            Halfway(s, u, p, val, k + 1)
  {
    if (k, p) in t.toSub {
      SetSubResult(t, k, p, val.v[k]);
      assert val.v[k := val.v[k]] == val.v;
      var u := SetSub(t, t.toSub[(k, p)], val.v[k]);
      assert t.values[p := t.values[p].(val := t.values[p].val.(v := val.v))] == t.values;
      HalfwayAgrees(t, u, p, val, k);
      assert u.log[|s.log|..] == t.log[|s.log|..] + u.log[|t.log|..];
    }
  }

  /** One more sub-property of p shows its component. */
  lemma HalfwayAgrees(t: State, u: State, p: Id, val: Vector, k: nat)
    requires Inverse(t) && (k, p) in t.toSub && p in t.values && t.values[p].val == val && k < |val.v|
    requires u.toSub == t.toSub && u.values == t.values && u.subs == t.subs[t.toSub[(k, p)] := val.v[k]]
    requires forall j: nat, q :: q in t.values && j < t.values[q].val.dim && (q == p ==> j < k) ==> Agrees(t, j, q)
    ensures forall j: nat, q :: q in u.values && j < u.values[q].val.dim && (q == p ==> j < k + 1) ==> Agrees(u, j, q)
  {
    forall j: nat, q | q in u.values && j < u.values[q].val.dim && (q == p ==> j < k + 1)
      ensures Agrees(u, j, q)
    {
      assert (q == p ==> j < k) ==> Agrees(t, j, q);
      if (j, q) in t.toSub && t.toSub[(j, q)] == t.toSub[(k, p)] { Apart(t, k, p, j, q); }
    }
  }

  lemma StoredHalfway(s: State, p: Id, val: Vector)
    requires Inv(s) && val.Valid() && p in s.values
    ensures Halfway(s, Stored(s, p, val), p, val, 0)
  {
    var t := Stored(s, p, val);
    forall j: nat, q | q in t.values && j < t.values[q].val.dim && q != p
      ensures Agrees(t, j, q)
    {
      assert Agrees(s, j, q);
    }
  }

  /** A publication at the end changes the log alone. */
  lemma HalfwayEnd(s: State, u: State, p: Id, val: Vector)
    requires p in s.values && val.Valid() && Halfway(s, u, p, val, val.dim)
    ensures var w := u.(log := u.log + [Published(p, val)]);
            && Inv(w)
            && s.log <= w.log
            && forall e :: e in w.log[|s.log|..] && e.Published? ==> e == Published(p, val)
  {
    var w := u.(log := u.log + [Published(p, val)]);
    assert w.log[|s.log|..] == u.log[|s.log|..] + [Published(p, val)];
    forall j: nat, q | q in w.values && j < w.values[q].val.dim
      ensures Agrees(w, j, q)
    {
      assert Agrees(u, j, q);
    }
  }

  /** Only publications come from the sub-properties. */
  ghost predicate OnlyPublishes(s: State, t: State) {
    s.log <= t.log && forall i :: |s.log| <= i < |t.log| ==> t.log[i].Published?
  }

  lemma {:induction false} SetSubsPublish(s: State, p: Id, val: Vector, k: nat)
    requires val.Valid()
    ensures OnlyPublishes(s, SetSubs(s, p, val, k))
    decreases val.dim - k
  {
    if k >= val.dim {
    } else {
      SetSubsPublish(if (k, p) in s.toSub then SetSub(s, s.toSub[(k, p)], val.v[k]) else s, p, val, k + 1);
    }
  }

  /** A set announces the dimension of the vector just when it changes the vector and the stored dimension differs. */
  lemma SetValueAnnounces(s: State, p: Id, val: Vector)
    requires val.Valid()
    ensures var t := SetValue(s, p, val);
            && s.log <= t.log
            && (DimensionChanged(p, val.dim) in t.log[|s.log|..] <==>
                  Changes(s, p, val) && s.values[p].dimension != val.dim)
  {
    if Changes(s, p, val) {
      SetSubsPublish(Stored(s, p, val), p, val, 0);
      var u := SetValue(s, p, val);
      if s.values[p].dimension != val.dim { assert u.log[|s.log|..][0] == DimensionChanged(p, val.dim); }
    }
  }

  /** Setting a vector: it is stored as given, every value published on the way is the whole new vector, and at the
      end the components agree with the sub-properties. The dimension is announced just when the stored one differs. */
  lemma SetValueResult(s: State, p: Id, val: Vector)
    requires Inv(s) && val.Valid()
    ensures var t := SetValue(s, p, val);
            && Inv(t)
            && s.log <= t.log
            && (forall e :: e in t.log[|s.log|..] && e.Published? ==> e == Published(p, val))
            && t.values == (if Changes(s, p, val) then s.values[p := s.values[p].(val := val)] else s.values)
            && (Changes(s, p, val) ==> t.log != s.log && t.log[|t.log| - 1] == Published(p, val))
            && (DimensionChanged(p, val.dim) in t.log[|s.log|..] <==>
                  Changes(s, p, val) && s.values[p].dimension != val.dim)
  {
    SetValueAnnounces(s, p, val);
    if Changes(s, p, val) {
      StoredHalfway(s, p, val);
      SetSubsHalfway(s, Stored(s, p, val), p, val, 0);
      HalfwayEnd(s, SetSubs(Stored(s, p, val), p, val, 0), p, val);
    }
  }

  /** Sub-properties other than those of the components k to dim - 1 of p keep their numbers. */
  lemma {:induction false} SetSubsKeep(s: State, p: Id, val: Vector, k: nat, x: Id)
    requires val.Valid() && x in s.subs
    ensures x in SetSubs(s, p, val, k).subs
    ensures (forall j: nat :: k <= j < val.dim && (j, p) in s.toSub ==> s.toSub[(j, p)] != x) ==>
              SetSubs(s, p, val, k).subs[x] == s.subs[x]
    decreases val.dim - k
  {
    if k >= val.dim {
    } else {
      var t := if (k, p) in s.toSub then SetSub(s, s.toSub[(k, p)], val.v[k]) else s;
      assert t.toSub == s.toSub;
      SetSubsKeep(t, p, val, k + 1, x);
    }
  }

  lemma SubsNow(s: State, t: State, p: Id, val: Vector, x: Id)
    requires p in s.values && val.Valid() && Halfway(s, t, p, val, val.dim) && Inverse(s) && x in t.subs
    ensures forall i: nat :: i < val.dim && (i, p) in s.toSub && s.toSub[(i, p)] == x ==> t.subs[x] == val.v[i]
  {
    forall i: nat | i < val.dim && (i, p) in s.toSub && s.toSub[(i, p)] == x
      ensures t.subs[x] == val.v[i]
    {
      assert Agrees(t, i, p);
    }
  }

  /** A set of a vector that differs in its dimension or in a number that counts is stored, published at the end, and
      reaches exactly the sub-properties of the numbers that count; any other set does nothing. */
  lemma SetValueStores(s: State, p: Id, val: Vector, x: Id)
    requires Inv(s) && val.Valid() && p in s.values && x in s.subs
    ensures var was, t := s.values[p].val, SetValue(s, p, val);
            if was.dim != val.dim || exists i :: 0 <= i < val.dim && was.v[i] != val.v[i] then
              && t.values == s.values[p := s.values[p].(val := val)]
              && t.log != [] && t.log[|t.log| - 1] == Published(p, val)
              && x in t.subs
              && (forall i: nat :: i < val.dim && (i, p) in s.toSub && s.toSub[(i, p)] == x ==> t.subs[x] == val.v[i])
              && ((forall i: nat :: i < val.dim && (i, p) in s.toSub ==> s.toSub[(i, p)] != x) ==>
                    t.subs[x] == s.subs[x])
            else t == s
  {
    var was := s.values[p].val;
    assert was.Valid();
    if was.dim != val.dim || exists i :: 0 <= i < val.dim && was.v[i] != val.v[i] {
      assert Changes(s, p, val);
      SetValueResult(s, p, val);
      StoredHalfway(s, p, val);
      SetSubsHalfway(s, Stored(s, p, val), p, val, 0);
      SetSubsKeep(Stored(s, p, val), p, val, 0, x);
      SubsNow(s, SetSubs(Stored(s, p, val), p, val, 0), p, val, x);
    }
  }

  /** Of a dimension that is set only the announcement is left, clipped to 4, unless it is the stored one. */
  lemma SetDimensionAnnounces(s: State, p: Id, dim: nat)
    requires p in s.values
    ensures var d := if dim > 4 then 4 else dim;
            SetDimension(s, p, dim) ==
            if d == s.values[p].dimension then s else s.(log := s.log + [DimensionChanged(p, d)])
  {}

  // ----- properties that come and go

  /** m' is m with the values vals for the keys, from index k on. */
  ghost predicate Puts<K(!new), V>(m: map<K, V>, m': map<K, V>, keys: seq<K>, vals: seq<V>, k: nat)
    requires |keys| == |vals|
  {
    && (forall x :: x in m' <==> x in m || exists i :: k <= i < |keys| && keys[i] == x)
    && (forall x :: x in m && (forall i :: k <= i < |keys| ==> keys[i] != x) ==> m'[x] == m[x])
    && (forall i :: k <= i < |keys| ==> m'[keys[i]] == vals[i])
  }

  lemma PutsMore<K(!new), V>(m: map<K, V>, m': map<K, V>, keys: seq<K>, vals: seq<V>, k: nat)
    requires |keys| == |vals| && k < |keys| && forall i, j :: 0 <= i < j < |keys| ==> keys[i] != keys[j]
    requires Puts(m[keys[k] := vals[k]], m', keys, vals, k + 1)
    ensures Puts(m, m', keys, vals, k)
  {}

  ghost function ToKeys(p: Id): seq<(nat, Id)> {
    [(0, p), (1, p), (2, p), (3, p)]
  }

  ghost function FromKeys(xs: seq<Id>): seq<(nat, Id)>
    requires |xs| == 4
  {
    [(0, xs[0]), (1, xs[1]), (2, xs[2]), (3, xs[3])]
  }

  /** From index k on the four sub-properties xs of p are 0 and stand in both maps, and nothing else changes. */
  ghost predicate Entered(s: State, t: State, p: Id, xs: seq<Id>, k: nat)
    requires |xs| == 4
  {
    && t.values == s.values && t.log == s.log
    && Puts(s.toSub, t.toSub, ToKeys(p), xs, k)
    && Puts(s.fromSub, t.fromSub, FromKeys(xs), [p, p, p, p], k)
    && Puts(s.subs, t.subs, xs, [0, 0, 0, 0], k)
  }

  lemma {:induction false} AddSubsEnters(s: State, p: Id, xs: seq<Id>, k: nat)
    requires NewIds(s, p, xs, k) && k <= MAX_DIMENSION
    ensures Entered(s, AddSubs(s, p, xs, k), p, xs, k)
    decreases MAX_DIMENSION - k
  {
    if k == MAX_DIMENSION {
    } else {
      AddSubsEnters(AddSub(s, p, k, xs[k]), p, xs, k + 1);
      EnteredMore(s, AddSubs(s, p, xs, k), p, xs, k);
    }
  }

  lemma EnteredMore(s: State, u: State, p: Id, xs: seq<Id>, k: nat)
    requires k < |xs| == 4 && forall i, j :: 0 <= i < j < |xs| ==> xs[i] != xs[j]
    requires Entered(AddSub(s, p, k, xs[k]), u, p, xs, k + 1)
    ensures Entered(s, u, p, xs, k)
  {
    KeysAt(p, xs, k);
    PutsMore(s.toSub, u.toSub, ToKeys(p), xs, k);
    PutsMore(s.fromSub, u.fromSub, FromKeys(xs), [p, p, p, p], k);
    PutsMore(s.subs, u.subs, xs, [0, 0, 0, 0], k);
  }

  lemma KeysAt(p: Id, xs: seq<Id>, k: nat)
    requires k < |xs| == 4
    ensures |ToKeys(p)| == 4 && ToKeys(p)[k] == (k, p) && |FromKeys(xs)| == 4 && FromKeys(xs)[k] == (k, xs[k])
    ensures [p, p, p, p][k] == p && [0, 0, 0, 0][k] == 0
    ensures forall i, j :: 0 <= i < j < 4 ==> ToKeys(p)[i] != ToKeys(p)[j]
    ensures forall i, j :: 0 <= i < j < 4 ==> FromKeys(xs)[i] != FromKeys(xs)[j]
  {}

  /** A new property is the vector of dimension 0, its four sub-properties are 0 and stand in both maps, and nothing
      else changes. */
  lemma InitializeEnters(s: State, p: Id, xs: seq<Id>)
    requires NewIds(s, p, xs, 0)
    ensures var t := Initialize(s, p, xs);
            && t.values == s.values[p := Data(Vector(0, [0, 0, 0, 0]), 0)]
            && Entered(s.(values := t.values), t, p, xs, 0)
  {
    AddSubsEnters(s.(values := s.values[p := Data(INITIAL, 0)]), p, xs, 0);
  }

  /** In words of the maps: component i of p is xs[i], which is 0, and what was there before stays. */
  lemma InitializeResult(s: State, p: Id, xs: seq<Id>, i: nat)
    requires NewIds(s, p, xs, 0) && i < 4
    ensures var t := Initialize(s, p, xs);
            && (i, p) in t.toSub && t.toSub[(i, p)] == xs[i]
            && (i, xs[i]) in t.fromSub && t.fromSub[(i, xs[i])] == p
            && xs[i] in t.subs && t.subs[xs[i]] == 0
    ensures var t := Initialize(s, p, xs);
            && (forall key :: key in s.toSub ==> key in t.toSub && t.toSub[key] == s.toSub[key])
            && (forall key :: key in s.fromSub ==> key in t.fromSub && t.fromSub[key] == s.fromSub[key])
            && (forall x :: x in s.subs ==> x in t.subs && t.subs[x] == s.subs[x])
  {
    InitializeEnters(s, p, xs);
    KeysAt(p, xs, i);
    var t := Initialize(s, p, xs);
    PutsGives(s.toSub, t.toSub, ToKeys(p), xs, i);
    PutsGives(s.fromSub, t.fromSub, FromKeys(xs), [p, p, p, p], i);
    PutsGives(s.subs, t.subs, xs, [0, 0, 0, 0], i);
    NewKeys(s, p, xs);
  }

  lemma PutsGives<K(!new), V>(m: map<K, V>, m': map<K, V>, keys: seq<K>, vals: seq<V>, i: nat)
    requires i < |keys| == |vals| && Puts(m, m', keys, vals, 0)
    ensures keys[i] in m' && m'[keys[i]] == vals[i]
    ensures (forall j :: 0 <= j < |keys| ==> keys[j] !in m) ==> forall x :: x in m ==> x in m' && m'[x] == m[x]
  {}

  lemma NewKeys(s: State, p: Id, xs: seq<Id>)
    requires NewIds(s, p, xs, 0)
    ensures forall j :: 0 <= j < 4 ==> ToKeys(p)[j] !in s.toSub
    ensures forall j :: 0 <= j < 4 ==> FromKeys(xs)[j] !in s.fromSub
  {}

  /** A property that goes takes its sub-properties with it, from both maps; all the others stay. */
  lemma UninitializeLeaves(s: State, p: Id)
    requires Inverse(s)
    ensures var t := Uninitialize(s, p);
            && t.values == s.values && t.log == s.log
            && (forall i: nat, q :: (i, q) in t.toSub <==> (i, q) in s.toSub && q != p)
            && (forall i: nat, q :: (i, q) in t.toSub ==> t.toSub[(i, q)] == s.toSub[(i, q)])
            && (forall i: nat, x :: (i, x) in t.fromSub <==> (i, x) in s.fromSub && s.fromSub[(i, x)] != p)
            && (forall i: nat, x :: (i, x) in t.fromSub ==> t.fromSub[(i, x)] == s.fromSub[(i, x)])
            && (forall x :: x in t.subs <==> x in s.subs && forall i: nat :: (i, p) in s.toSub ==> s.toSub[(i, p)] != x)
            && (forall x :: x in t.subs ==> t.subs[x] == s.subs[x])
  {}

  // ----- runs

  datatype Op =
    | Add(p: Id, xs: seq<Id>)
    | Remove(p: Id)
    | ChangeVector(p: Id, val: Vector)
    | ChangeNumber(x: Id, n: int)
    | ChangeDimension(p: Id, dim: nat)

  ghost predicate NewIds(s: State, p: Id, xs: seq<Id>, k: nat) {
    && |xs| == MAX_DIMENSION
    && (forall i, j :: 0 <= i < j < |xs| ==> xs[i] != xs[j])
    && (forall i :: k <= i < |xs| ==> xs[i] !in s.subs)
    && (forall i, j :: k <= j < |xs| ==> (i, xs[j]) !in s.fromSub)
    && (forall i: nat :: k <= i ==> (i, p) !in s.toSub)
  }

  /** Numbers have 64 bits; a new property and its sub-properties have ids that are not in use. */
  ghost predicate Possible(s: State, op: Op) {
    match op
    case Add(p, xs) => NewIds(s, p, xs, 0)
    case ChangeVector(_, val) => val.Valid()
    case ChangeNumber(_, n) => L.InRange(L.INITIAL, n)
    case _ => true
  }

  ghost function Step(s: State, op: Op): State {
    match op
    case Add(p, xs) => Initialize(s, p, xs)
    case Remove(p) => Uninitialize(s, p)
    case ChangeVector(p, val) => if val.Valid() then SetValue(s, p, val) else s
    case ChangeNumber(x, n) => SetSub(s, x, n)
    case ChangeDimension(p, dim) => SetDimension(s, p, dim)
  }

  lemma AddInv(s: State, p: Id, xs: seq<Id>)
    requires Inv(s) && NewIds(s, p, xs, 0)
    ensures Inv(Initialize(s, p, xs)) && Initialize(s, p, xs).values == s.values[p := Data(INITIAL, 0)]
  {
    var t := s.(values := s.values[p := Data(INITIAL, 0)]);
    forall j: nat, q | q in t.values && j < t.values[q].val.dim
      ensures Agrees(t, j, q)
    {
      assert Agrees(s, j, q);
    }
    AddSubsInv(t, p, xs, 0);
  }

  lemma {:induction false} AddSubsInv(s: State, p: Id, xs: seq<Id>, k: nat)
    requires Inv(s) && NewIds(s, p, xs, k) && k <= |xs| && p in s.values && s.values[p].val.dim == 0
    ensures Inv(AddSubs(s, p, xs, k)) && AddSubs(s, p, xs, k).values == s.values
    decreases |xs| - k
  {
    if k < |xs| {
      AddSubInv(s, p, xs, k);
      AddSubsInv(AddSub(s, p, k, xs[k]), p, xs, k + 1);
    }
  }

  lemma AddSubInv(s: State, p: Id, xs: seq<Id>, k: nat)
    requires Inv(s) && NewIds(s, p, xs, k) && k < |xs| && p in s.values && s.values[p].val.dim == 0
    ensures Inv(AddSub(s, p, k, xs[k])) && NewIds(AddSub(s, p, k, xs[k]), p, xs, k + 1)
  {
    var t := AddSub(s, p, k, xs[k]);
    forall j: nat, q | q in t.values && j < t.values[q].val.dim
      ensures Agrees(t, j, q)
    {
      assert Agrees(s, j, q);
    }
  }

  lemma RemoveInv(s: State, p: Id)
    requires Inv(s)
    ensures Inv(Uninitialize(s, p))
  {
    var t := Uninitialize(s, p);
    forall i, q | (i, q) in t.toSub
      ensures q != p && (i, q) in s.toSub && t.toSub[(i, q)] in t.subs && (i, t.toSub[(i, q)]) in t.fromSub
    {
      assert (i, q) in s.toSub;
      forall j: nat | (j, p) in s.toSub
        ensures s.toSub[(j, p)] != s.toSub[(i, q)]
      {
        if s.toSub[(j, p)] == s.toSub[(i, q)] { Apart(s, i, q, j, p); }
      }
    }
    forall j: nat, q | q in t.values && j < t.values[q].val.dim
      ensures Agrees(t, j, q)
    {
      assert Agrees(s, j, q);
    }
  }

  lemma StepInv(s: State, op: Op)
    requires Inv(s) && Possible(s, op)
    ensures Inv(Step(s, op))
  {
    match op
    case Add(p, xs) => AddInv(s, p, xs);
    case Remove(p) => RemoveInv(s, p);
    case ChangeVector(p, val) => SetValueResult(s, p, val);
    case ChangeNumber(x, n) => SetSubInv(s, x, n);
    case ChangeDimension(p, dim) =>
      var t := SetDimension(s, p, dim);
      forall j: nat, q | q in t.values && j < t.values[q].val.dim
        ensures Agrees(t, j, q)
      {
        assert Agrees(s, j, q);
      }
  }

  /** The properties that were added and not removed since. */
  ghost function Living(live: set<Id>, ops: seq<Op>): set<Id>
    decreases |ops|
  {
    if ops == [] then live else Living(LivingAfter(live, ops[0]), ops[1..])
  }

  ghost function LivingAfter(live: set<Id>, op: Op): set<Id> {
    if op.Add? then live + {op.p} else if op.Remove? then live - {op.p} else live
  }

  ghost predicate Stays(ops: seq<Op>, p: Id) {
    forall j :: 0 <= j < |ops| ==> ops[j] != Remove(p)
  }

  /** Operation i adds p, and no later one removes it. */
  ghost predicate AddedAt(ops: seq<Op>, p: Id, i: int) {
    0 <= i < |ops| && ops[i].Add? && ops[i].p == p && Stays(ops[i + 1..], p)
  }

  lemma StaysMore(ops: seq<Op>, p: Id)
    requires ops != []
    ensures Stays(ops, p) <==> ops[0] != Remove(p) && Stays(ops[1..], p)
  {
    assert ops == [ops[0]] + ops[1..];
  }

  lemma AddedLater(ops: seq<Op>, p: Id, i: int)
    requires ops != [] && i >= 0
    ensures AddedAt(ops, p, i + 1) <==> AddedAt(ops[1..], p, i)
  {
    if i + 1 < |ops| { assert ops[i + 2..] == ops[1..][i + 1..]; }
  }

  /** What Living says: the property was added, or there from the beginning, and was not removed since. */
  lemma {:induction false} LivingIff(live: set<Id>, ops: seq<Op>, p: Id)
    ensures p in Living(live, ops) <==> (exists i :: AddedAt(ops, p, i)) || (p in live && Stays(ops, p))
    decreases |ops|
  {
    if ops == [] {
    } else {
      LivingIff(LivingAfter(live, ops[0]), ops[1..], p);
      StaysMore(ops, p);
      assert AddedAt(ops, p, 0) <==> ops[0].Add? && ops[0].p == p && Stays(ops[1..], p);
      if i :| AddedAt(ops, p, i) && i > 0 { AddedLater(ops, p, i - 1); }
      if i :| AddedAt(ops[1..], p, i) { AddedLater(ops, p, i); }
    }
  }

  /** p has its value and its four sub-properties. */
  ghost predicate Full(s: State, p: Id) {
    p in s.values && forall i: nat :: i < MAX_DIMENSION ==> (i, p) in s.toSub
  }

  lemma SameMaps(s: State, op: Op)
    requires Inv(s) && Possible(s, op) && !op.Add? && !op.Remove?
    ensures Step(s, op).toSub == s.toSub && Step(s, op).values.Keys == s.values.Keys
  {
    match op
    case ChangeVector(p, val) =>
      SetValueResult(s, p, val);
      if Changes(s, p, val) {
        StoredHalfway(s, p, val);
        SetSubsHalfway(s, Stored(s, p, val), p, val, 0);
      }
    case ChangeNumber(x, n) =>
    case ChangeDimension(p, dim) =>
  }

  lemma StepFull(s: State, op: Op, p: Id)
    requires Inv(s) && Possible(s, op)
    requires Full(s, p) || (op.Add? && op.p == p)
    requires !(op.Remove? && op.p == p)
    ensures Full(Step(s, op), p)
  {
    match op
    case Add(q, xs) => AddFull(s, q, xs, p);
    case Remove(q) => UninitializeLeaves(s, q);
    case _ => SameMaps(s, op);
  }

  lemma AddFull(s: State, q: Id, xs: seq<Id>, p: Id)
    requires NewIds(s, q, xs, 0) && (Full(s, p) || p == q)
    ensures Full(Initialize(s, q, xs), p)
  {
    forall i: nat | i < MAX_DIMENSION
      ensures (i, p) in Initialize(s, q, xs).toSub
    {
      InitializeResult(s, q, xs, i);
    }
    InitializeEnters(s, q, xs);
  }

  lemma {:induction false} RunFull(s: State, live: set<Id>, ops: seq<Op>)
    requires Inv(s) && Allowed(Possible, Step, s, ops) && forall p :: p in live ==> Full(s, p)
    ensures Inv(Run(Step, s, ops)) && forall p :: p in Living(live, ops) ==> Full(Run(Step, s, ops), p)
    decreases |ops|
  {
    if ops == [] {
    } else {
      StepInv(s, ops[0]);
      forall p | p in LivingAfter(live, ops[0])
        ensures Full(Step(s, ops[0]), p)
      {
        StepFull(s, ops[0], p);
      }
      RunFull(Step(s, ops[0]), LivingAfter(live, ops[0]), ops[1..]);
    }
  }

  /** After any run of vector sets and number edits the maps are inverse, every property that was not removed has its
      four sub-properties, and every number that counts is what its sub-property shows. */
  lemma RunInv(ops: seq<Op>)
    requires Allowed(Possible, Step, EMPTY, ops)
    ensures Inv(Run(Step, EMPTY, ops))
    ensures var s := Run(Step, EMPTY, ops);
            forall p :: p in Living({}, ops) ==>
              && p in s.values && s.values[p].val.Valid()
              && (forall i: nat :: i < MAX_DIMENSION ==> (i, p) in s.toSub && s.toSub[(i, p)] in s.subs)
              && (forall i: nat :: i < s.values[p].val.dim ==> s.subs[s.toSub[(i, p)]] == s.values[p].val.v[i])
  {
    RunFull(EMPTY, {}, ops);
    var s := Run(Step, EMPTY, ops);
    forall p, i: nat | p in Living({}, ops) && i < s.values[p].val.dim
      ensures s.subs[s.toSub[(i, p)]] == s.values[p].val.v[i]
    {
      assert Full(s, p) && Agrees(s, i, p);
    }
  }

  ghost predicate NoDimension(s: State) {
    Inv(s) && forall p :: p in s.values ==> s.values[p].dimension == 0
  }

  lemma StepDimension(s: State, op: Op)
    requires NoDimension(s) && Possible(s, op)
    ensures NoDimension(Step(s, op))
  {
    StepInv(s, op);
    match op
    case Add(p, xs) => AddInv(s, p, xs);
    case Remove(p) =>
    case ChangeVector(p, val) => SetValueResult(s, p, val);
    case ChangeNumber(x, n) =>
    case ChangeDimension(p, dim) =>
  }

  /** As the dimension is never stored, every set that changes the vector announces its dimension, unless that is 0. */
  lemma AnnouncedAgain(s: State, p: Id, val: Vector)
    requires NoDimension(s) && val.Valid()
    ensures s.log <= SetValue(s, p, val).log
    ensures DimensionChanged(p, val.dim) in SetValue(s, p, val).log[|s.log|..] <==> Changes(s, p, val) && val.dim != 0
  {
    SetValueAnnounces(s, p, val);
  }

  /** The stored dimension is 0 after any run, whatever dimensions were set. */
  lemma RunDimension(ops: seq<Op>)
    requires Allowed(Possible, Step, EMPTY, ops)
    ensures NoDimension(Run(Step, EMPTY, ops))
  {
    forall s, op | NoDimension(s) && Possible(s, op)
      ensures NoDimension(Step(s, op))
    {
      StepDimension(s, op);
    }
    RunKeeps(NoDimension, Possible, Step, EMPTY, ops);
  }
}
