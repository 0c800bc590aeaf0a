/** A list with a key for every entry, into which entries are inserted at a row that moves while older entries with
    the same key are taken out before and after it. */
module MoveInsert {

  // ----- adding one entry

  /** The first row with the key of u, or |rows|. */
  ghost function Find<U, K>(key: U -> K, rows: seq<U>, u: U): (j: nat)
    ensures j <= |rows|
    ensures forall i :: 0 <= i < j ==> key(rows[i]) != key(u)
    ensures j < |rows| ==> key(rows[j]) == key(u)
  {
    if rows == [] || key(rows[0]) == key(u) then 0 else 1 + Find(key, rows[1..], u)
  }

  lemma FindIs<U, K>(key: U -> K, rows: seq<U>, u: U, j: nat)
    requires j <= |rows| && forall i :: 0 <= i < j ==> key(rows[i]) != key(u)
    requires j < |rows| ==> key(rows[j]) == key(u)
    ensures Find(key, rows, u) == j
  {}

  datatype Place<U> = Place(rows: seq<U>, row: int)

  ghost function Dropped<U>(s: seq<U>, j: nat): seq<U> {
    if j < |s| then s[..j] + s[j + 1..] else s
  }

  ghost function AddOne<U, K>(key: U -> K, p: Place<U>, u: U, move: bool): Place<U> {
    AddFound(p, u, if move then Find(key, p.rows, u) else |p.rows|)
  }

  /** Row j goes, if there is one, and u comes in. */
  ghost function AddFound<U>(p: Place<U>, u: U, j: nat): Place<U> {
    var rows := Dropped(p.rows, j);
    var down := if j < |p.rows| && j <= p.row then p.row - 1 else p.row;
    var row := if down < 0 then 0 else if down > |rows| then |rows| else down;
    Place(Put(rows, row, u), row)
  }

  ghost function Put<U>(s: seq<U>, row: nat, u: U): seq<U>
    requires row <= |s|
  {
    s[..row] + [u] + s[row..]
  }

  /** The list is worked off from its end. */
  ghost function AddAll<U, K>(key: U -> K, p: Place<U>, us: seq<U>, move: bool): Place<U>
    decreases |us|
  {
    if us == [] then p else
      var k := |us| - 1;
      AddAll(key, AddOne(key, p, us[k], move), us[..k], move)
  }

  lemma AddAllLast<U, K>(key: U -> K, p: Place<U>, us: seq<U>, u: U, move: bool)
    ensures AddAll(key, p, us + [u], move) == AddAll(key, AddOne(key, p, u, move), us, move)
  {
    assert (us + [u])[..|us|] == us;
  }

  /** Without moving, the list comes in at the row as it is. */
  lemma {:induction false} AddAllUnmoved<U, K>(key: U -> K, rows: seq<U>, row: nat, us: seq<U>)
    requires row <= |rows|
    ensures AddAll(key, Place(rows, row), us, false) == Place(rows[..row] + us + rows[row..], row)
    decreases |us|
  {
    if us == [] {
      assert rows[..row] + us + rows[row..] == rows;
    } else {
      var init, u := us[..|us| - 1], us[|us| - 1];
      var more := Put(rows, row, u);
      assert AddOne(key, Place(rows, row), u, false) == Place(more, row);
      AddAllUnmoved(key, more, row, init);
      assert more[..row] == rows[..row] && more[row..] == [u] + rows[row..];
      assert us == init + [u];
    }
  }

  /** A row in front of the first one is the first one. */
  lemma AddAllNegative<U, K>(key: U -> K, rows: seq<U>, row: int, us: seq<U>, move: bool)
    requires row < 0
    ensures AddAll(key, Place(rows, row), us, move).rows == AddAll(key, Place(rows, 0), us, move).rows
  {}

  // ----- lists without some keys

  ghost function Keys<U, K>(key: U -> K, s: seq<U>): set<K> {
    set i | 0 <= i < |s| :: key(s[i])
  }

  /** The rows without those whose key is in ks, in their old order. */
  ghost function Others<U, K>(key: U -> K, s: seq<U>, ks: set<K>): seq<U> {
    if s == [] then [] else
      (if key(s[0]) in ks then [] else [s[0]]) + Others(key, s[1..], ks)
  }

  ghost predicate DistinctKeys<U, K>(key: U -> K, s: seq<U>) {
    forall i, j :: 0 <= i < j < |s| ==> key(s[i]) != key(s[j])
  }

  lemma KeysConcat<U, K>(key: U -> K, s: seq<U>, t: seq<U>)
    ensures Keys(key, s + t) == Keys(key, s) + Keys(key, t)
  {
    forall k | k in Keys(key, s) + Keys(key, t)
      ensures k in Keys(key, s + t)
    {
      if k in Keys(key, s) {
        var i :| 0 <= i < |s| && key(s[i]) == k;
        assert (s + t)[i] == s[i];
      } else {
        var i :| 0 <= i < |t| && key(t[i]) == k;
        assert (s + t)[|s| + i] == t[i];
      }
    }
  }

  lemma DistinctConcat<U, K>(key: U -> K, s: seq<U>, t: seq<U>)
    ensures DistinctKeys(key, s + t) <==>
            DistinctKeys(key, s) && DistinctKeys(key, t) && Keys(key, s) !! Keys(key, t)
  {
    if DistinctKeys(key, s + t) {
      forall i, j | 0 <= i < j < |s|
        ensures key(s[i]) != key(s[j])
      {
        assert (s + t)[i] == s[i] && (s + t)[j] == s[j];
      }
      forall i, j | 0 <= i < j < |t|
        ensures key(t[i]) != key(t[j])
      {
        assert (s + t)[|s| + i] == t[i] && (s + t)[|s| + j] == t[j];
      }
      forall i, j | 0 <= i < |s| && 0 <= j < |t|
        ensures key(s[i]) != key(t[j])
      {
        assert (s + t)[i] == s[i] && (s + t)[|s| + j] == t[j];
      }
    } else {
      DistinctBack(key, s, t);
    }
  }

  lemma DistinctBack<U, K>(key: U -> K, s: seq<U>, t: seq<U>)
    ensures DistinctKeys(key, s) && DistinctKeys(key, t) && Keys(key, s) !! Keys(key, t) ==> DistinctKeys(key, s + t)
  {
    if DistinctKeys(key, s) && DistinctKeys(key, t) && Keys(key, s) !! Keys(key, t) {
      forall i, j | 0 <= i < j < |s + t|
        ensures key((s + t)[i]) != key((s + t)[j])
      {
        if i < |s| <= j {
          assert key(s[i]) in Keys(key, s) && key(t[j - |s|]) in Keys(key, t);
        }
      }
    }
  }

  lemma {:induction false} OthersConcat<U, K>(key: U -> K, s: seq<U>, t: seq<U>, ks: set<K>)
    ensures Others(key, s + t, ks) == Others(key, s, ks) + Others(key, t, ks)
  {
    if s == [] {
      assert s + t == t;
    } else {
      assert (s + t)[1..] == s[1..] + t;
      OthersConcat(key, s[1..], t, ks);
    }
  }

  lemma {:induction false} OthersTwice<U, K>(key: U -> K, s: seq<U>, ks: set<K>, ls: set<K>)
    ensures Others(key, Others(key, s, ks), ls) == Others(key, s, ks + ls)
  {
    if s == [] {
    } else {
      OthersTwice(key, s[1..], ks, ls);
      OthersConcat(key, if key(s[0]) in ks then [] else [s[0]], Others(key, s[1..], ks), ls);
    }
  }

  lemma {:induction false} OthersNone<U, K>(key: U -> K, s: seq<U>, ks: set<K>)
    requires forall i :: 0 <= i < |s| ==> key(s[i]) !in ks
    ensures Others(key, s, ks) == s
  {
    if s == [] {
    } else {
      OthersNone(key, s[1..], ks);
    }
  }

  lemma {:induction false} OthersKeys<U, K>(key: U -> K, s: seq<U>, ks: set<K>)
    ensures Keys(key, Others(key, s, ks)) == Keys(key, s) - ks
  {
    if s == [] {
    } else {
      OthersKeys(key, s[1..], ks);
      assert s == [s[0]] + s[1..];
      KeysConcat(key, [s[0]], s[1..]);
      KeysConcat(key, if key(s[0]) in ks then [] else [s[0]], Others(key, s[1..], ks));
      KeyOfOne(key, s[0]);
    }
  }

  lemma KeyOfOne<U, K>(key: U -> K, u: U)
    ensures Keys(key, [u]) == {key(u)} && DistinctKeys(key, [u])
  {
    assert [u][0] == u;
  }

  lemma {:induction false} OthersDistinct<U, K>(key: U -> K, s: seq<U>, ks: set<K>)
    requires DistinctKeys(key, s)
    ensures DistinctKeys(key, Others(key, s, ks))
  {
    if s == [] {
    } else {
      assert s == [s[0]] + s[1..];
      DistinctConcat(key, [s[0]], s[1..]);
      OthersDistinct(key, s[1..], ks);
      OthersKeys(key, s[1..], ks);
      DistinctBack(key, [s[0]], Others(key, s[1..], ks));
    }
  }

  lemma DroppedConcat<U>(s: seq<U>, t: seq<U>, j: nat)
    ensures Dropped(s + t, j) == if j < |s| then Dropped(s, j) + t else s + Dropped(t, j - |s|)
  {}

  /** With distinct keys, dropping the row that was found is leaving out its key. */
  lemma {:induction false} DroppedIsOthers<U, K>(key: U -> K, s: seq<U>, u: U)
    requires DistinctKeys(key, s)
    ensures Dropped(s, Find(key, s, u)) == Others(key, s, {key(u)})
  {
    if s == [] {
    } else if key(s[0]) == key(u) {
      OthersNone(key, s[1..], {key(u)});
    } else {
      DroppedIsOthers(key, s[1..], u);
      assert s == [s[0]] + s[1..];
      DroppedConcat([s[0]], s[1..], Find(key, s, u));
    }
  }

  lemma {:induction false} FindConcat<U, K>(key: U -> K, s: seq<U>, t: seq<U>, u: U)
    ensures Find(key, s + t, u) == if Find(key, s, u) < |s| then Find(key, s, u) else |s| + Find(key, t, u)
  {
    if s == [] {
      assert s + t == t;
    } else {
      assert (s + t)[1..] == s[1..] + t;
      FindConcat(key, s[1..], t, u);
    }
  }

  lemma FindInKeys<U, K>(key: U -> K, s: seq<U>, u: U)
    ensures Find(key, s, u) < |s| <==> key(u) in Keys(key, s)
  {}

  /** Each key once, at the place of its first entry. */
  ghost function FirstOfEach<U, K>(key: U -> K, us: seq<U>): seq<U> {
    if us == [] then [] else [us[0]] + Others(key, FirstOfEach(key, us[1..]), {key(us[0])})
  }

  lemma {:induction false} FirstOfEachDistinct<U, K>(key: U -> K, us: seq<U>)
    ensures DistinctKeys(key, FirstOfEach(key, us)) && Keys(key, FirstOfEach(key, us)) == Keys(key, us)
  {
    if us == [] {
    } else {
      var rest, ks := FirstOfEach(key, us[1..]), {key(us[0])};
      FirstOfEachDistinct(key, us[1..]);
      OthersDistinct(key, rest, ks);
      OthersKeys(key, rest, ks);
      KeyOfOne(key, us[0]);
      DistinctBack(key, [us[0]], Others(key, rest, ks));
      KeysConcat(key, [us[0]], Others(key, rest, ks));
      KeysConcat(key, [us[0]], us[1..]);
      assert us == [us[0]] + us[1..];
    }
  }

  /** A list without repetition is its own. */
  lemma {:induction false} FirstOfEachSame<U, K>(key: U -> K, us: seq<U>)
    requires DistinctKeys(key, us)
    ensures FirstOfEach(key, us) == us
  {
    if us == [] {
    } else {
      assert us == [us[0]] + us[1..];
      DistinctConcat(key, [us[0]], us[1..]);
      KeyOfOne(key, us[0]);
      FirstOfEachSame(key, us[1..]);
      OthersNone(key, us[1..], {key(us[0])});
    }
  }

  lemma AddOneKeeps<U, K>(key: U -> K, p: Place<U>, u: U)
    requires DistinctKeys(key, p.rows)
    ensures var rows := AddOne(key, p, u, true).rows;
            DistinctKeys(key, rows) && Keys(key, rows) == Keys(key, p.rows) + {key(u)}
  {
    DroppedIsOthers(key, p.rows, u);
    OthersDistinct(key, p.rows, {key(u)});
    OthersKeys(key, p.rows, {key(u)});
    PutKeeps(key, Dropped(p.rows, Find(key, p.rows, u)), AddOne(key, p, u, true).row, u);
  }

  lemma PutKeeps<U, K>(key: U -> K, s: seq<U>, row: nat, u: U)
    requires DistinctKeys(key, s) && key(u) !in Keys(key, s) && row <= |s|
    ensures DistinctKeys(key, Put(s, row, u)) && Keys(key, Put(s, row, u)) == Keys(key, s) + {key(u)}
  {
    var a, b := s[..row], s[row..];
    assert s == a + b;
    KeyOfOne(key, u);
    DistinctConcat(key, a, b);
    KeysConcat(key, a, b);
    KeysConcat(key, a, [u]);
    KeysConcat(key, a + [u], b);
    DistinctBack(key, a, [u]);
    DistinctBack(key, a + [u], b);
  }

  lemma PutOthers<U, K>(key: U -> K, s: seq<U>, row: nat, u: U, ks: set<K>)
    requires row <= |s| && key(u) in ks
    ensures Others(key, Put(s, row, u), ks) == Others(key, s, ks)
  {
    assert s == s[..row] + s[row..];
    OthersConcat(key, s[..row], s[row..], ks);
    OthersConcat(key, s[..row], [u], ks);
    OthersConcat(key, s[..row] + [u], s[row..], ks);
  }

  lemma AddOneOthers<U, K>(key: U -> K, p: Place<U>, u: U, ks: set<K>)
    requires DistinctKeys(key, p.rows) && key(u) in ks
    ensures Others(key, AddOne(key, p, u, true).rows, ks) == Others(key, p.rows, ks)
  {
    DroppedIsOthers(key, p.rows, u);
    PutOthers(key, Dropped(p.rows, Find(key, p.rows, u)), AddOne(key, p, u, true).row, u, ks);
    OthersTwice(key, p.rows, {key(u)}, ks);
    assert {key(u)} + ks == ks;
  }

  lemma LastKey<U, K>(key: U -> K, us: seq<U>)
    requires us != []
    ensures Keys(key, us) == Keys(key, us[..|us| - 1]) + {key(us[|us| - 1])}
  {
    assert us == us[..|us| - 1] + [us[|us| - 1]];
    KeyOfOne(key, us[|us| - 1]);
    KeysConcat(key, us[..|us| - 1], [us[|us| - 1]]);
  }

  /** For any list and any row: no key is lost, none comes in that is not listed, none is there twice, and the rows
      that are not listed keep their order. */
  lemma {:induction false} MoveKeeps<U, K>(key: U -> K, p: Place<U>, us: seq<U>, ks: set<K>)
    requires DistinctKeys(key, p.rows) && Keys(key, us) <= ks
    ensures var rows := AddAll(key, p, us, true).rows;
            && DistinctKeys(key, rows) && Keys(key, rows) == Keys(key, p.rows) + Keys(key, us)
            && Others(key, rows, ks) == Others(key, p.rows, ks)
    decreases |us|
  {
    if us == [] {
      assert Keys(key, us) == {};
    } else {
      var init, u := us[..|us| - 1], us[|us| - 1];
      LastKey(key, us);
      AddOneKeeps(key, p, u);
      AddOneOthers(key, p, u, ks);
      MoveKeeps(key, AddOne(key, p, u, true), init, ks);
    }
  }
}
