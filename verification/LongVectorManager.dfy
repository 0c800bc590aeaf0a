/** QtLongVectorPropertyManager: the vectors, and the manager of their sub-properties that it listens to. */
module LongVectorManager {
  import L = LongProperty
  import opened V = LongVectorProperty

  class VectorManager {
    var values: map<Id, Data>
    var subs: map<Id, int>
    var toSub: map<(nat, Id), Id>
    var fromSub: map<(nat, Id), Id>
    ghost var log: seq<Event>

    ghost function St(): State
      reads this
    {
      State(values, subs, toSub, fromSub, log)
    }

    constructor ()
      ensures St() == EMPTY
    {
      values, subs, toSub, fromSub, log := map[], map[], map[], map[], [];
    }

    /** The sub-properties get the ids xs. */
    method InitializeProperty(p: Id, xs: seq<Id>)
      requires |xs| == MAX_DIMENSION
      modifies this
      ensures St() == Initialize(old(St()), p, xs)
    {
      values := values[p := Data(INITIAL, 0)];
      for i := 0 to MAX_DIMENSION
        invariant AddSubs(St(), p, xs, i) == Initialize(old(St()), p, xs)
      {
        subs := subs[xs[i] := 0];
        toSub := toSub[(i, p) := xs[i]];
        fromSub := fromSub[(i, xs[i]) := p];
      }
    }

    method SetValue(p: Id, val: Vector)
      requires Inv(St()) && val.Valid()
      modifies this
      ensures St() == V.SetValue(old(St()), p, val)
    {
      if p !in values || values[p].val.SameAs(val) {
        return;
      }
      if values[p].dimension != val.dim {
        SetDimension(p, val.dim);
      }
      values := values[p := values[p].(val := val)];
      ghost var end := SetSubs(St(), p, val, 0);
      for i := 0 to val.dim
        invariant SetSubs(St(), p, val, i) == end
      {
        if (i, p) in toSub {
          SubSetValue(toSub[(i, p)], val.v[i]);
        }
      }
      log := log + [Published(p, val)];
    }

    method SetDimension(p: Id, dim: nat)
      modifies this`log
      ensures St() == V.SetDimension(old(St()), p, dim)
    {
      if p !in values {
        return;
      }
      var data := values[p];
      var d := if dim > MAX_DIMENSION then MAX_DIMENSION else dim;
      if data.dimension == d {
        return;
      }
      data := data.(dimension := d);
      log := log + [DimensionChanged(p, data.dimension)];
    }

    /** The sub-property's manager. */
    method SubSetValue(x: Id, n: int)
      modifies this
      ensures St() == SetSub(old(St()), x, n)
    {
      if x !in subs || subs[x] == n {
        return;
      }
      var oldVal := subs[x];
      if L.Bound(L.INITIAL, n) == oldVal {
        return;
      }
      subs := subs[x := L.Bound(L.INITIAL, n)];
      SlotLongChanged(x, subs[x]);
    }

    method SlotLongChanged(x: Id, n: int)
      modifies this
      ensures St() == V.SlotLongChanged(old(St()), x, n)
    {
      var i := 0;
      while i < MAX_DIMENSION && (i, x) !in fromSub
        invariant 0 <= i <= MAX_DIMENSION && St() == old(St())
        invariant Component(fromSub, x, i) == Component(fromSub, x, 0)
        decreases MAX_DIMENSION - i
      {
        i := i + 1;
      }
      if i < MAX_DIMENSION && fromSub[(i, x)] in values && i < |values[fromSub[(i, x)]].val.v| {
        var p := fromSub[(i, x)];
        var u := values[p].val.(v := values[p].val.v[i := n]);
        values := values[p := values[p].(val := u)];
        log := log + [Published(p, u)];
      }
    }
  }
}
