/** remapData: the values of a field are copied along an index mapping, forwards (scatter) or backwards (gather), for
    each of its components. */
module FieldRemap {

  /** An index mapping: a vector, or an ordered map given by its entries in key order. */
  datatype Mapping = Vector(to: seq<nat>) | OrderedMap(entries: seq<(nat, nat)>) {
    function Size(): nat {
      if Vector? then |to| else |entries|
    }

    /** The pairs that an iteration visits, in its order. */
    function Pairs(): (ps: seq<(nat, nat)>)
      ensures |ps| == Size()
    {
      if Vector? then seq(|to|, i requires 0 <= i < |to| => (i, to[i])) else entries
    }

    ghost predicate Valid() {
      OrderedMap? ==> forall i, j :: 0 <= i < j < |entries| ==> entries[i].0 < entries[j].0
    }
  }

  /** One copy of a value. */
  datatype Move = Move(from: nat, to: nat)

  /** The copies that a remapping makes, in order. */
  function Moves(m: Mapping, inverse: bool): (ms: seq<Move>)
    ensures |ms| == m.Size()
  {
    var ps := m.Pairs();
    seq(|ps|, i requires 0 <= i < |ps| => if inverse then Move(ps[i].1, ps[i].0) else Move(ps[i].0, ps[i].1))
  }

  /** What the program asserts of the indices: they lie in the old and in the new field. */
  ghost predicate InRange(ms: seq<Move>, n: nat) {
    forall i :: 0 <= i < |ms| ==> ms[i].from < n && ms[i].to < |ms|
  }

  /** The last copy to slot k, or -1. */
  ghost function LastTo(ms: seq<Move>, k: nat): (i: int)
    ensures -1 <= i < |ms|
    ensures i >= 0 ==> ms[i].to == k
    ensures forall j :: i < j < |ms| ==> ms[j].to != k
  {
    if ms == [] then -1 else if ms[|ms| - 1].to == k then |ms| - 1 else LastTo(ms[..|ms| - 1], k)
  }

  /** The new field: each slot holds what was copied there last. */
  ghost function Remapped<T>(x: seq<T>, ms: seq<Move>, blank: T): (y: seq<T>)
    requires InRange(ms, |x|)
    ensures |y| == |ms|
  {
    seq(|ms|, k requires 0 <= k < |ms| => var i := LastTo(ms, k); if i < 0 then blank else x[ms[i].from])
  }

  /** remapDataTempl; `field` holds one sequence for each component, `blank` is what a new field is filled with. */
  method Remap<T>(field: seq<seq<T>>, n: nat, m: Mapping, inverse: bool, blank: T) returns (out: array2<T>)
    requires m.Valid() && InRange(Moves(m, inverse), n) && forall d :: 0 <= d < |field| ==> |field[d]| == n
    ensures fresh(out) && out.Length0 == |field| && out.Length1 == m.Size()
    ensures forall d, k :: 0 <= d < |field| && 0 <= k < m.Size() ==>
              out[d, k] == Remapped(field[d], Moves(m, inverse), blank)[k]
  {
    var ms := Moves(m, inverse);
    out := new T[|field|, m.Size()]((d, k) => blank);
    for i := 0 to |ms|
      invariant forall d, k :: 0 <= d < |field| && 0 <= k < |ms| ==> out[d, k] == Copied(field[d], ms[..i], k, blank)
    {
      forall d, k: nat | 0 <= d < |field| && k < |ms|
        ensures Copied(field[d], ms[..i + 1], k, blank) ==
                if k == ms[i].to then field[d][ms[i].from] else Copied(field[d], ms[..i], k, blank)
      {
        CopiedMore(field[d], ms, i, k, blank);
      }
      CopyValue(field, out, ms[i]);
    }
    assert ms[..|ms|] == ms;
  }

  /** The inner loop: one value is copied in every component. */
  method CopyValue<T>(field: seq<seq<T>>, out: array2<T>, m: Move)
    requires out.Length0 == |field| && m.to < out.Length1 && forall d :: 0 <= d < |field| ==> m.from < |field[d]|
    modifies out
    ensures forall d, k :: 0 <= d < |field| && 0 <= k < out.Length1 ==>
              out[d, k] == if k == m.to then field[d][m.from] else old(out[d, k])
  {
    for d := 0 to |field|
      invariant forall e, k :: 0 <= e < |field| && 0 <= k < out.Length1 ==>
                  out[e, k] == if e < d && k == m.to then field[e][m.from] else old(out[e, k])
    {
      out[d, m.to] := field[d][m.from];
    }
  }

  lemma CopiedMore<T>(x: seq<T>, ms: seq<Move>, i: nat, k: nat, blank: T)
    requires i < |ms| && forall j :: 0 <= j < |ms| ==> ms[j].from < |x|
    ensures Copied(x, ms[..i + 1], k, blank) ==
            if k == ms[i].to then x[ms[i].from] else Copied(x, ms[..i], k, blank)
  {
    assert ms[..i + 1][..i] == ms[..i];
  }

  ghost function Copied<T>(x: seq<T>, ms: seq<Move>, k: nat, blank: T): T
    requires forall i :: 0 <= i < |ms| ==> ms[i].from < |x|
  {
    var i := LastTo(ms, k);
    if i < 0 then blank else x[ms[i].from]
  }

  // ----- which slots are written

  ghost predicate Distinct(s: seq<nat>) {
    forall i, j :: 0 <= i < j < |s| ==> s[i] != s[j]
  }

  ghost function Below(n: nat): (b: set<nat>)
    ensures |b| == n && forall k: nat :: k in b <==> k < n
  {
    if n == 0 then {} else Below(n - 1) + {n - 1}
  }

  ghost function Elements(s: seq<nat>): set<nat> {
    set x | x in s
  }

  lemma {:induction false} ElementsSize(s: seq<nat>)
    ensures |Elements(s)| <= |s|
    ensures |Elements(s)| == |s| <==> Distinct(s)
  {
    if s == [] {
    } else {
      var init, last := s[..|s| - 1], s[|s| - 1];
      ElementsSize(init);
      assert s == init + [last];
      assert Elements(s) == Elements(init) + {last};
      if last !in init && Distinct(init) {
        assert forall i :: 0 <= i < |init| ==> init[i] in init;
      }
    }
  }

  /** Pigeonholes: n numbers below n hit every number below n just when no two of them are equal. */
  lemma Pigeonholes(s: seq<nat>)
    requires forall i :: 0 <= i < |s| ==> s[i] < |s|
    ensures Elements(s) == Below(|s|) <==> Distinct(s)
  {
    ElementsSize(s);
    assert Elements(s) <= Below(|s|);
    if Distinct(s) {
      SameSize(Elements(s), Below(|s|));
    }
  }

  lemma SameSize<T>(a: set<T>, b: set<T>)
    requires a <= b && |a| == |b|
    ensures a == b
  {
    assert |b - a| == |b| - |a|;
  }

  ghost function Targets(ms: seq<Move>): seq<nat> {
    seq(|ms|, i requires 0 <= i < |ms| => ms[i].to)
  }

  /** Every slot of the new field is written. */
  ghost predicate AllWritten(ms: seq<Move>) {
    forall k: nat :: k < |ms| ==> LastTo(ms, k) >= 0
  }

  /** No slot of the new field keeps its blank value just when no slot is written twice. */
  lemma AllWrittenIff(ms: seq<Move>)
    requires forall i :: 0 <= i < |ms| ==> ms[i].to < |ms|
    ensures AllWritten(ms) <==> Distinct(Targets(ms))
  {
    var ts := Targets(ms);
    Pigeonholes(ts);
    if AllWritten(ms) {
      forall k: nat | k < |ms|
        ensures k in ts
      {
        assert ts[LastTo(ms, k)] == k;
      }
      assert Elements(ts) == Below(|ms|);
    }
    if Distinct(ts) {
      forall k: nat | k < |ms|
        ensures LastTo(ms, k) >= 0
      {
        assert k in Below(|ms|);
        var i :| 0 <= i < |ms| && ts[i] == k;
        assert ms[i].to == k;
      }
    }
  }

  // ----- gather and scatter by a vector

  ghost predicate Indices(v: seq<nat>, n: nat) {
    forall i :: 0 <= i < |v| ==> v[i] < n
  }

  ghost function Gather<T>(v: seq<nat>, x: seq<T>, blank: T): (y: seq<T>)
    requires Indices(v, |x|)
    ensures |y| == |v|
  {
    Remapped(x, Moves(Vector(v), true), blank)
  }

  ghost function Scatter<T>(v: seq<nat>, x: seq<T>, blank: T): (y: seq<T>)
    requires Indices(v, |v|) && |v| <= |x|
    ensures |y| == |v|
  {
    Remapped(x, Moves(Vector(v), false), blank)
  }

  /** Gathering reads slot k from v[k]; nothing is left blank. */
  lemma GatherAt<T>(v: seq<nat>, x: seq<T>, blank: T, k: nat)
    requires Indices(v, |x|) && k < |v|
    ensures Gather(v, x, blank)[k] == x[v[k]]
  {
    var ms := Moves(Vector(v), true);
    assert ms[k] == Move(v[k], k);
  }

  /** Scattering writes x[i] to slot v[i], and the last copy to a slot stays. */
  lemma ScatterAt<T>(v: seq<nat>, x: seq<T>, blank: T, i: nat)
    requires Indices(v, |v|) && |v| <= |x| && i < |v| && v[i] !in v[i + 1..]
    ensures Scatter(v, x, blank)[v[i]] == x[i]
  {
    var ms := Moves(Vector(v), false);
    assert ms[i] == Move(i, v[i]);
    var j := LastTo(ms, v[i]);
    assert ms[j] == Move(j, v[j]);
  }

  lemma GatherAfterScatter<T>(v: seq<nat>, x: seq<T>, blank: T)
    requires Indices(v, |v|) && Distinct(v) && |x| == |v|
    ensures Gather(v, Scatter(v, x, blank), blank) == x
  {
    forall k: nat | k < |v|
      ensures Gather(v, Scatter(v, x, blank), blank)[k] == x[k]
    {
      GatherAt(v, Scatter(v, x, blank), blank, k);
      ScatterAt(v, x, blank, k);
    }
  }

  lemma ScatterAfterGather<T>(v: seq<nat>, x: seq<T>, blank: T)
    requires Indices(v, |v|) && Distinct(v) && |x| == |v|
    ensures Scatter(v, Gather(v, x, blank), blank) == x
  {
    Pigeonholes(v);
    forall k: nat | k < |v|
      ensures Scatter(v, Gather(v, x, blank), blank)[k] == x[k]
    {
      assert k in Below(|v|);
      var i: nat :| i < |v| && v[i] == k;
      ScatterAt(v, Gather(v, x, blank), blank, i);
      GatherAt(v, x, blank, i);
    }
  }

  /** Two gathers in a row are one by the composed mapping. */
  lemma GatherTwice<T>(v: seq<nat>, w: seq<nat>, x: seq<T>, blank: T)
    requires Indices(v, |x|) && Indices(w, |v|)
    ensures var vw := seq(|w|, k requires 0 <= k < |w| => v[w[k]]);
            Gather(w, Gather(v, x, blank), blank) == Gather(vw, x, blank)
  {
    var vw := seq(|w|, k requires 0 <= k < |w| => v[w[k]]);
    forall k: nat | k < |w|
      ensures Gather(w, Gather(v, x, blank), blank)[k] == Gather(vw, x, blank)[k]
    {
      GatherAt(w, Gather(v, x, blank), blank, k);
      GatherAt(v, x, blank, w[k]);
      GatherAt(vw, x, blank, k);
    }
  }

  // ----- no value is lost

  ghost function Where<T>(x: seq<T>, t: T): set<nat> {
    set i: nat | i < |x| && x[i] == t
  }

  lemma {:induction false} CountIs<T>(x: seq<T>, t: T)
    ensures multiset(x)[t] == |Where(x, t)|
  {
    if x == [] {
    } else {
      var init, last := x[..|x| - 1], x[|x| - 1];
      assert x == init + [last];
      CountIs(init, t);
      assert Where(x, t) == Where(init, t) + (if last == t then {|init|} else {});
    }
  }

  ghost function Image(v: seq<nat>, a: set<nat>): set<nat>
    requires forall i :: i in a ==> i < |v|
  {
    set i | i in a :: v[i]
  }

  lemma {:induction false} ImageSize(v: seq<nat>, a: set<nat>)
    requires Distinct(v) && forall i :: i in a ==> i < |v|
    ensures |Image(v, a)| == |a|
  {
    if a == {} {
    } else {
      var i :| i in a;
      ImageSize(v, a - {i});
      assert Image(v, a) == Image(v, a - {i}) + {v[i]};
    }
  }

  /** Gathering by a permutation keeps how often each value occurs. */
  lemma GatherKeepsValues<T>(v: seq<nat>, x: seq<T>, blank: T)
    requires Indices(v, |v|) && Distinct(v) && |x| == |v|
    ensures multiset(Gather(v, x, blank)) == multiset(x)
  {
    var y := Gather(v, x, blank);
    forall t: T
      ensures multiset(y)[t] == multiset(x)[t]
    {
      CountIs(x, t);
      CountIs(y, t);
      ImageSize(v, Where(y, t));
      WhereImage(v, x, blank, t);
    }
  }

  lemma WhereImage<T>(v: seq<nat>, x: seq<T>, blank: T, t: T)
    requires Indices(v, |v|) && Distinct(v) && |x| == |v|
    ensures Image(v, Where(Gather(v, x, blank), t)) == Where(x, t)
  {
    Pigeonholes(v);
    var y := Gather(v, x, blank);
    forall k: nat | k < |v|
      ensures y[k] == x[v[k]]
    {
      GatherAt(v, x, blank, k);
    }
    forall k | k in Where(x, t)
      ensures k in Image(v, Where(y, t))
    {
      assert k in Below(|v|);
      var i: nat :| i < |v| && v[i] == k;
      assert i in Where(y, t);
    }
  }

  lemma ScatterKeepsValues<T>(v: seq<nat>, x: seq<T>, blank: T)
    requires Indices(v, |v|) && Distinct(v) && |x| == |v|
    ensures multiset(Scatter(v, x, blank)) == multiset(x)
  {
    GatherKeepsValues(v, Scatter(v, x, blank), blank);
    GatherAfterScatter(v, x, blank);
  }

  // ----- the ordered map

  lemma {:induction false} KeysGrow(es: seq<(nat, nat)>, i: nat)
    requires OrderedMap(es).Valid() && i < |es|
    ensures es[i].0 >= i
  {
    if i == 0 {
    } else {
      KeysGrow(es, i - 1);
    }
  }

  lemma {:induction false} KeysBounded(es: seq<(nat, nat)>, i: nat)
    requires OrderedMap(es).Valid() && i < |es| && es[|es| - 1].0 < |es|
    ensures es[i].0 <= i
    decreases |es| - i
  {
    if i < |es| - 1 { KeysBounded(es, i + 1); }
  }

  /** A map copies the same values in the same order as a vector just when its keys are the indices of the vector and
      their values are its elements. */
  lemma SameMovesIff(m: Mapping, v: seq<nat>, inverse: bool)
    requires m.Valid() && m.OrderedMap?
    ensures Moves(m, inverse) == Moves(Vector(v), inverse) <==>
            |v| == m.Size() && forall i :: 0 <= i < m.Size() ==>
              m.entries[i].0 < |v| && v[m.entries[i].0] == m.entries[i].1
  {
    var es, vs := m.entries, Vector(v).Pairs();
    if |v| == |es| && forall i :: 0 <= i < |es| ==> es[i].0 < |v| && v[es[i].0] == es[i].1 {
      forall i: nat | i < |es|
        ensures es[i] == vs[i]
      {
        KeysGrow(es, i);
        KeysBounded(es, i);
      }
      assert es == vs;
    } else if Moves(m, inverse) == Moves(Vector(v), inverse) {
      assert |v| == |es|;
      forall i | 0 <= i < |es|
        ensures es[i] == (i, v[i])
      {
        assert Moves(m, inverse)[i] == Moves(Vector(v), inverse)[i];
      }
      assert false;
    }
  }

  /** A gather by a map is within the bounds only if it is the gather by the vector of its values. */
  lemma GatherNeedsAllKeys(m: Mapping, n: nat)
    requires m.Valid() && m.OrderedMap? && InRange(Moves(m, true), n)
    ensures Moves(m, true) == Moves(Vector(seq(m.Size(), i requires 0 <= i < m.Size() => m.entries[i].1)), true)
  {
    var v := seq(m.Size(), i requires 0 <= i < m.Size() => m.entries[i].1);
    forall i: nat | i < m.Size()
      ensures m.entries[i].0 == i
    {
      var last := m.Size() - 1;
      assert Moves(m, true)[last].to == m.entries[last].0;
      KeysGrow(m.entries, i);
      KeysBounded(m.entries, i);
    }
    SameMovesIff(m, v, true);
  }
}
