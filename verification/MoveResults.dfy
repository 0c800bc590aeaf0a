/** Where a list ends up that is moved to a row. Every result here is for any list: what is above and behind the
    insertion row at the end, and when the list comes out in one piece. */
module MoveResults {
  import opened MoveInsert

  // ----- where the list ends up

  lemma {:induction false} AddAllConcat<U, K>(key: U -> K, p: Place<U>, us: seq<U>, vs: seq<U>, move: bool)
    ensures AddAll(key, p, us + vs, move) == AddAll(key, AddAll(key, p, vs, move), us, move)
    decreases |vs|
  {
    if vs == [] {
      assert us + vs == us;
    } else {
      var k := |vs| - 1;
      assert (us + vs)[..|us + vs| - 1] == us + vs[..k];
      AddAllConcat(key, AddOne(key, p, vs[k], move), us, vs[..k], move);
    }
  }

  /** The first entry of the list is the last one that comes in. */
  lemma AddAllFirst<U, K>(key: U -> K, p: Place<U>, us: seq<U>, move: bool)
    requires us != []
    ensures AddAll(key, p, us, move) == AddOne(key, AddAll(key, p, us[1..], move), us[0], move)
  {
    assert us == [us[0]] + us[1..];
    AddAllConcat(key, p, [us[0]], us[1..], move);
    assert [us[0]][..0] == [];
  }

  /** The first entry of the list comes in where an entry with its key stands already: its follower in the list or,
      if it has none, the row at which the insertion begins. */
  ghost predicate Meets<U, K>(key: U -> K, rows: seq<U>, row: nat, us: seq<U>)
    requires us != []
  {
    if |us| > 1 then key(us[1]) == key(us[0]) else row < |rows| && key(rows[row]) == key(us[0])
  }

  /** Where an entry meets its like, the code steps back by one row as if the old copy had been further up: it passes
      the lowest of the rows above. */
  ghost function Unpassed<U>(above: seq<U>, back: bool): seq<U> {
    if back && above != [] then above[..|above| - 1] else above
  }

  ghost function Lowest<U>(above: seq<U>, back: bool): seq<U> {
    if back && above != [] then [above[|above| - 1]] else []
  }

  /** The old rows that are above the insertion row when the list is worked off. */
  ghost function Above<U, K>(key: U -> K, rows: seq<U>, row: nat, us: seq<U>): seq<U>
    requires row <= |rows|
  {
    if us == [] then rows[..row]
    else Others(key, Unpassed(Above(key, rows, row, us[1..]), Meets(key, rows, row, us)), {key(us[0])})
  }

  /** The row that is passed when the first entry of the list comes in, if there is one. */
  ghost function Passed<U, K>(key: U -> K, rows: seq<U>, row: nat, us: seq<U>): seq<U>
    requires row <= |rows| && us != []
  {
    Lowest(Above(key, rows, row, us[1..]), Meets(key, rows, row, us))
  }

  /** What is at the insertion row and behind it when the list is worked off. */
  ghost function Behind<U, K>(key: U -> K, rows: seq<U>, row: nat, us: seq<U>): seq<U>
    requires row <= |rows|
  {
    if us == [] then rows[row..]
    else [us[0]] + Others(key, Passed(key, rows, row, us) + Behind(key, rows, row, us[1..]), {key(us[0])})
  }

  lemma PutBetween<U>(a: seq<U>, b: seq<U>, u: U)
    ensures Put(a + b, |a|, u) == a + ([u] + b)
  {}

  /** One more entry at the row between a and b, where no copy of it stands. */
  lemma AddApart<U, K>(key: U -> K, a: seq<U>, b: seq<U>, u: U)
    requires DistinctKeys(key, a + b) && (b == [] || key(b[0]) != key(u))
    ensures var ks := {key(u)};
            AddOne(key, Place(a + b, |a|), u, true) ==
            Place(Others(key, a, ks) + ([u] + Others(key, b, ks)), |Others(key, a, ks)|)
  {
    var i, j := Find(key, a, u), Find(key, b, u);
    DistinctConcat(key, a, b);
    FindInKeys(key, a, u);
    FindInKeys(key, b, u);
    FindConcat(key, a, b, u);
    DroppedIsOthers(key, a, u);
    DroppedIsOthers(key, b, u);
    AddFoundAt(a, b, u, i, j);
  }

  /** The same, by the places i in a and j in b of the copy. */
  lemma AddFoundAt<U>(a: seq<U>, b: seq<U>, u: U, i: nat, j: nat)
    requires i <= |a| && j <= |b| && (i == |a| || j == |b|) && (j > 0 || b == [])
    ensures var da, db := Dropped(a, i), Dropped(b, j);
            AddFound(Place(a + b, |a|), u, if i < |a| then i else |a| + j) == Place(da + ([u] + db), |da|)
  {
    DroppedConcat(a, b, if i < |a| then i else |a| + j);
    PutBetween(Dropped(a, i), Dropped(b, j), u);
  }

  lemma FoundOnRow<U>(a: seq<U>, b: seq<U>, u: U)
    requires b != []
    ensures var up := Unpassed(a, true);
            AddFound(Place(a + b, |a|), u, |a|) == Place(up + ([u] + (Lowest(a, true) + b[1..])), |up|)
  {
    var up, low := Unpassed(a, true), Lowest(a, true);
    assert Dropped(a + b, |a|) == a + b[1..];
    assert a == up + low;
    assert a + b[1..] == up + (low + b[1..]);
    PutBetween(up, low + b[1..], u);
  }

  /** One more entry at the row between a and b, where a copy of it stands: the lowest row of a is passed. */
  lemma AddMeets<U, K>(key: U -> K, a: seq<U>, b: seq<U>, u: U)
    requires DistinctKeys(key, a + b) && b != [] && key(b[0]) == key(u)
    ensures var up := Unpassed(a, true);
            AddOne(key, Place(a + b, |a|), u, true) == Place(up + ([u] + (Lowest(a, true) + b[1..])), |up|)
  {
    FindsRow(key, a + b, |a|, u);
    FoundOnRow(a, b, u);
  }

  lemma FindsRow<U, K>(key: U -> K, rows: seq<U>, row: nat, u: U)
    requires DistinctKeys(key, rows) && row < |rows| && key(rows[row]) == key(u)
    ensures Find(key, rows, u) == row
  {
    FindIs(key, rows, u, row);
  }

  lemma UnpassedKeys<U, K>(key: U -> K, above: seq<U>, back: bool)
    ensures Keys(key, Unpassed(above, back)) + Keys(key, Lowest(above, back)) == Keys(key, above)
  {
    assert above == Unpassed(above, back) + Lowest(above, back);
    KeysConcat(key, Unpassed(above, back), Lowest(above, back));
  }

  lemma FirstKey<U, K>(key: U -> K, us: seq<U>)
    requires us != []
    ensures Keys(key, us) == {key(us[0])} + Keys(key, us[1..])
  {
    assert us == [us[0]] + us[1..];
    KeyOfOne(key, us[0]);
    KeysConcat(key, [us[0]], us[1..]);
  }

  lemma MeetsOthers<U, K>(key: U -> K, a: seq<U>, b: seq<U>, u: U)
    requires DistinctKeys(key, a + b) && b != [] && key(b[0]) == key(u)
    ensures var ks := {key(u)};
            && Others(key, Unpassed(a, true), ks) == Unpassed(a, true)
            && Others(key, Lowest(a, true) + b, ks) == Lowest(a, true) + b[1..]
  {
    DistinctConcat(key, a, b);
    FirstKey(key, b);
    UnpassedKeys(key, a, true);
    OthersNoKey(key, Unpassed(a, true), {key(u)});
    OthersNoKey(key, Lowest(a, true), {key(u)});
    WithoutFirst(key, b);
    OthersConcat(key, Lowest(a, true), b, {key(u)});
  }

  lemma WithoutFirst<U, K>(key: U -> K, b: seq<U>)
    requires DistinctKeys(key, b) && b != []
    ensures Others(key, b, {key(b[0])}) == b[1..]
  {
    OthersNone(key, b[1..], {key(b[0])});
  }

  lemma OthersNoKey<U, K>(key: U -> K, s: seq<U>, ks: set<K>)
    requires Keys(key, s) !! ks
    ensures Others(key, s, ks) == s
  {
    forall i | 0 <= i < |s|
      ensures key(s[i]) !in ks
    {
      assert key(s[i]) in Keys(key, s);
    }
    OthersNone(key, s, ks);
  }

  /** One more entry at the row between a and b. */
  lemma AddBetween<U, K>(key: U -> K, a: seq<U>, b: seq<U>, u: U, back: bool)
    requires DistinctKeys(key, a + b) && (back <==> b != [] && key(b[0]) == key(u))
    ensures var up := Others(key, Unpassed(a, back), {key(u)});
            AddOne(key, Place(a + b, |a|), u, true) ==
            Place(up + ([u] + Others(key, Lowest(a, back) + b, {key(u)})), |up|)
  {
    if back {
      AddMeets(key, a, b, u);
      MeetsOthers(key, a, b, u);
    } else {
      AddApart(key, a, b, u);
      assert Lowest(a, back) + b == b;
    }
  }

  lemma {:induction false} MoveParts<U, K>(key: U -> K, rows: seq<U>, row: nat, us: seq<U>)
    requires DistinctKeys(key, rows) && row <= |rows|
    ensures var a := Above(key, rows, row, us);
            AddAll(key, Place(rows, row), us, true) == Place(a + Behind(key, rows, row, us), |a|)
    ensures DistinctKeys(key, Above(key, rows, row, us) + Behind(key, rows, row, us))
  {
    MoveKeeps(key, Place(rows, row), us, Keys(key, us));
    if us == [] {
      assert rows == rows[..row] + rows[row..];
    } else {
      MoveParts(key, rows, row, us[1..]);
      AddAllFirst(key, Place(rows, row), us, true);
      AddBetween(key, Above(key, rows, row, us[1..]), Behind(key, rows, row, us[1..]), us[0],
                 Meets(key, rows, row, us));
    }
  }

  // ----- what is above and behind

  /** Only old rows from above that are not in the list stay above. */
  lemma {:induction false} AboveKeys<U, K>(key: U -> K, rows: seq<U>, row: nat, us: seq<U>)
    requires row <= |rows|
    ensures Keys(key, Above(key, rows, row, us)) <= Keys(key, rows[..row]) - Keys(key, us)
  {
    if us == [] {
    } else {
      AboveKeys(key, rows, row, us[1..]);
      UnpassedKeys(key, Above(key, rows, row, us[1..]), Meets(key, rows, row, us));
      OthersKeys(key, Unpassed(Above(key, rows, row, us[1..]), Meets(key, rows, row, us)), {key(us[0])});
      FirstKey(key, us);
    }
  }

  lemma PartKeys<U, K>(key: U -> K, s: seq<U>, row: nat)
    requires row <= |s|
    ensures Keys(key, s) == Keys(key, s[..row]) + Keys(key, s[row..])
  {
    assert s == s[..row] + s[row..];
    KeysConcat(key, s[..row], s[row..]);
  }

  /** A row that is passed is an old one from above that has not come in anew. */
  lemma PassedKeys<U, K>(key: U -> K, rows: seq<U>, row: nat, us: seq<U>)
    requires row <= |rows| && us != []
    ensures Keys(key, Passed(key, rows, row, us)) <= Keys(key, rows[..row]) - Keys(key, us[1..])
    ensures |Passed(key, rows, row, us)| <= 1
  {
    AboveKeys(key, rows, row, us[1..]);
    UnpassedKeys(key, Above(key, rows, row, us[1..]), Meets(key, rows, row, us));
  }

  /** All of the list is behind. */
  lemma BehindKeys<U, K>(key: U -> K, rows: seq<U>, row: nat, us: seq<U>)
    requires DistinctKeys(key, rows) && row <= |rows|
    ensures Keys(key, us) <= Keys(key, Behind(key, rows, row, us)) <= Keys(key, rows) + Keys(key, us)
  {
    MoveParts(key, rows, row, us);
    MoveKeeps(key, Place(rows, row), us, Keys(key, us));
    AboveKeys(key, rows, row, us);
    KeysConcat(key, Above(key, rows, row, us), Behind(key, rows, row, us));
  }

  lemma {:induction false} OthersAll<U, K>(key: U -> K, s: seq<U>, ks: set<K>)
    requires Keys(key, s) <= ks
    ensures Others(key, s, ks) == []
  {
    if s == [] {
    } else {
      FirstKey(key, s);
      OthersAll(key, s[1..], ks);
    }
  }

  lemma OneMoreListed<U, K>(key: U -> K, u: U, w: seq<U>, b: seq<U>, ls: set<K>, ms: set<K>)
    requires key(u) !in ls && Keys(key, w) <= ms && {key(u)} + ls == ms + {key(u)}
    ensures Others(key, [u] + Others(key, w + b, {key(u)}), ls) == [u] + Others(key, Others(key, b, ms), {key(u)})
  {
    KeyOfOne(key, u);
    OthersNoKey(key, [u], ls);
    OthersConcat(key, [u], Others(key, w + b, {key(u)}), ls);
    OthersTwice(key, w + b, {key(u)}, ls);
    OthersTwice(key, w + b, ms, {key(u)});
    OthersConcat(key, w, b, ms);
    OthersAll(key, w, ms);
    assert Others(key, w + b, ms) == Others(key, b, ms);
    assert {key(u)} + ls == ms + {key(u)};
  }

  /** Without the old rows that are not in the list, what is behind is the list with each key once. */
  lemma {:induction false} BehindListed<U, K>(key: U -> K, rows: seq<U>, row: nat, us: seq<U>)
    requires row <= |rows|
    ensures Others(key, Behind(key, rows, row, us), Keys(key, rows) - Keys(key, us)) == FirstOfEach(key, us)
  {
    if us == [] {
      PartKeys(key, rows, row);
      OthersAll(key, rows[row..], Keys(key, rows) - Keys(key, us));
    } else {
      FirstKey(key, us);
      PartKeys(key, rows, row);
      PassedKeys(key, rows, row, us);
      OneMoreListed(key, us[0], Passed(key, rows, row, us), Behind(key, rows, row, us[1..]),
                    Keys(key, rows) - Keys(key, us), Keys(key, rows) - Keys(key, us[1..]));
      BehindListed(key, rows, row, us[1..]);
    }
  }

  // ----- in one piece or torn apart

  /** The list, each key once where it comes first, stands in one piece between the old rows that are not in it. */
  ghost predicate InOnePiece<U, K>(key: U -> K, rows: seq<U>, us: seq<U>, result: seq<U>) {
    var others := Others(key, rows, Keys(key, us));
    exists n :: 0 <= n <= |others| && result == others[..n] + (FirstOfEach(key, us) + others[n..])
  }

  ghost predicate ListedFirst<U, K>(key: U -> K, s: seq<U>, ks: set<K>) {
    forall i, j :: 0 <= i < j < |s| && key(s[j]) in ks ==> key(s[i]) in ks
  }

  lemma {:induction false} ListedFirstSplit<U, K>(key: U -> K, s: seq<U>, ks: set<K>, ls: set<K>)
    requires ListedFirst(key, s, ks) && ks !! ls && Keys(key, s) <= ks + ls
    ensures s == Others(key, s, ls) + Others(key, s, ks)
  {
    if s == [] {
    } else {
      FirstKey(key, s);
      if key(s[0]) in ks {
        ListedFirstSplit(key, s[1..], ks, ls);
      } else {
        OthersNone(key, s, ks);
        forall k | k in Keys(key, s)
          ensures k in ls
        {
          var i :| 0 <= i < |s| && key(s[i]) == k;
        }
        OthersAll(key, s, ls);
      }
    }
  }

  lemma ListedFirstMore<U, K>(key: U -> K, u: U, s: seq<U>, ks: set<K>)
    ensures ListedFirst(key, [u] + s, ks) <==> ListedFirst(key, s, ks) && (key(u) in ks || Keys(key, s) !! ks)
  {
    var t := [u] + s;
    if ListedFirst(key, t, ks) {
      forall i, j | 0 <= i < j < |s| && key(s[j]) in ks
        ensures key(s[i]) in ks
      {
        assert t[i + 1] == s[i] && t[j + 1] == s[j];
      }
      if key(u) !in ks {
        forall j | 0 <= j < |s|
          ensures key(s[j]) !in ks
        {
          assert t[0] == u && t[j + 1] == s[j];
        }
      }
    }
    if ListedFirst(key, s, ks) && (key(u) in ks || Keys(key, s) !! ks) {
      forall i, j | 0 <= i < j < |t| && key(t[j]) in ks
        ensures key(t[i]) in ks
      {
        assert key(s[j - 1]) in Keys(key, s);
      }
    }
  }

  lemma OnePieceThen<U, K>(key: U -> K, rows: seq<U>, us: seq<U>, a: seq<U>, b: seq<U>)
    requires Keys(key, a) !! Keys(key, us) && Keys(key, b) <= Keys(key, rows) + Keys(key, us)
    requires Others(key, a + b, Keys(key, us)) == Others(key, rows, Keys(key, us))
    requires Others(key, b, Keys(key, rows) - Keys(key, us)) == FirstOfEach(key, us)
    requires ListedFirst(key, b, Keys(key, us))
    ensures InOnePiece(key, rows, us, a + b)
    ensures a + b == a + (FirstOfEach(key, us) + Others(key, b, Keys(key, us)))
    ensures a + Others(key, b, Keys(key, us)) == Others(key, rows, Keys(key, us))
  {
    var others := Others(key, rows, Keys(key, us));
    OthersConcat(key, a, b, Keys(key, us));
    OthersNoKey(key, a, Keys(key, us));
    ListedFirstSplit(key, b, Keys(key, us), Keys(key, rows) - Keys(key, us));
    assert others[..|a|] == a && others[|a|..] == Others(key, b, Keys(key, us));
  }

  lemma OnlyThen<U, K>(key: U -> K, rows: seq<U>, us: seq<U>, a: seq<U>, b: seq<U>)
    requires Keys(key, a) !! Keys(key, us) && (us != [] ==> b != [] && b[0] == us[0])
    requires InOnePiece(key, rows, us, a + b)
    ensures ListedFirst(key, b, Keys(key, us))
  {
    var ks, f := Keys(key, us), FirstOfEach(key, us);
    var others := Others(key, rows, ks);
    var n :| 0 <= n <= |others| && a + b == others[..n] + (f + others[n..]);
    OthersKeys(key, rows, ks);
    FirstOfEachDistinct(key, us);
    assert forall i :: 0 <= i < |others| ==> key(others[i]) in Keys(key, others);
    assert forall i :: 0 <= i < |f| ==> key(f[i]) in Keys(key, f);
    if us != [] {
      SamePlace(key, a, b, others, f, n, ks);
      assert b == (a + b)[|a|..] == f + others[n..];
    }
  }

  /** The first listed entry tells where the list begins. */
  lemma SamePlace<U, K>(key: U -> K, a: seq<U>, b: seq<U>, others: seq<U>, f: seq<U>, n: nat, ks: set<K>)
    requires Keys(key, a) !! ks && Keys(key, others) !! ks && b != [] && f != [] && key(b[0]) in ks && key(f[0]) in ks
    requires n <= |others| && a + b == others[..n] + (f + others[n..])
    ensures n == |a|
  {
    var s := a + b;
    assert s[|a|] == b[0] && s[n] == f[0];
    assert forall i :: 0 <= i < |a| ==> s[i] == a[i] && key(a[i]) in Keys(key, a);
    assert forall i :: 0 <= i < n ==> s[i] == others[i] && key(others[i]) in Keys(key, others);
  }

  /** When entry i of the list comes in, an old row is passed that is not in the list. */
  ghost predicate StepsOver<U, K>(key: U -> K, rows: seq<U>, row: nat, us: seq<U>, i: nat)
    requires row <= |rows| && i < |us|
  {
    var passed := Passed(key, rows, row, us[i..]);
    passed != [] && key(passed[0]) !in Keys(key, us)
  }

  /** Everything from entry i on is named in the list up to i, too. */
  ghost predicate AllNamedBy<U, K>(key: U -> K, us: seq<U>, i: nat)
    requires i < |us|
  {
    Keys(key, us[i..]) <= Keys(key, us[..i + 1])
  }

  /** No row that stays is passed while something stands behind that is not named any more. */
  ghost predicate NotTorn<U, K>(key: U -> K, rows: seq<U>, row: nat, us: seq<U>, i: nat)
    requires row <= |rows| && i <= |us|
  {
    forall j :: i <= j < |us| && StepsOver(key, rows, row, us, j) ==> AllNamedBy(key, us, j)
  }

  lemma NotTornMore<U, K>(key: U -> K, rows: seq<U>, row: nat, us: seq<U>, i: nat)
    requires row <= |rows| && i < |us|
    ensures NotTorn(key, rows, row, us, i) <==>
            NotTorn(key, rows, row, us, i + 1) &&
            (StepsOver(key, rows, row, us, i) ==> AllNamedBy(key, us, i))
  {}

  /** What is behind and will stay where it is when the first i entries of the list come in. */
  ghost function Settled<U, K>(key: U -> K, rows: seq<U>, row: nat, us: seq<U>, i: nat): seq<U>
    requires row <= |rows| && i <= |us|
  {
    Others(key, Behind(key, rows, row, us[i..]), Keys(key, us[..i]))
  }

  lemma OneMoreNamed<U, K>(key: U -> K, us: seq<U>, i: nat)
    requires i < |us|
    ensures us[i..] == [us[i]] + us[i + 1..] && us[i..][1..] == us[i + 1..]
    ensures Keys(key, us[..i + 1]) == Keys(key, us[..i]) + {key(us[i])}
    ensures Keys(key, us) == Keys(key, us[..i + 1]) + Keys(key, us[i + 1..])
    ensures Keys(key, us[i..]) == {key(us[i])} + Keys(key, us[i + 1..])
  {
    assert us[..i + 1] == us[..i] + [us[i]];
    KeyOfOne(key, us[i]);
    KeysConcat(key, us[..i], [us[i]]);
    PartKeys(key, us, i + 1);
    FirstKey(key, us[i..]);
  }

  lemma SettledMore<U, K>(key: U -> K, rows: seq<U>, row: nat, us: seq<U>, i: nat)
    requires row <= |rows| && i < |us|
    ensures Settled(key, rows, row, us, i) ==
            (if key(us[i]) in Keys(key, us[..i]) then [] else [us[i]]) +
            ((if StepsOver(key, rows, row, us, i) then Passed(key, rows, row, us[i..]) else []) +
             Settled(key, rows, row, us, i + 1))
  {
    var w, b := Passed(key, rows, row, us[i..]), Behind(key, rows, row, us[i + 1..]);
    var pre, ks := Keys(key, us[..i]), {key(us[i])};
    OneMoreNamed(key, us, i);
    OthersConcat(key, [us[i]], Others(key, w + b, ks), pre);
    OthersTwice(key, w + b, ks, pre);
    assert ks + pre == Keys(key, us[..i + 1]);
    OthersConcat(key, w, b, ks + pre);
    PassedKeys(key, rows, row, us[i..]);
    PassedStays(key, rows, row, us, i);
  }

  lemma PassedStays<U, K>(key: U -> K, rows: seq<U>, row: nat, us: seq<U>, i: nat)
    requires row <= |rows| && i < |us|
    ensures Others(key, Passed(key, rows, row, us[i..]), Keys(key, us[..i + 1])) ==
            if StepsOver(key, rows, row, us, i) then Passed(key, rows, row, us[i..]) else []
  {
    var w := Passed(key, rows, row, us[i..]);
    OneMoreNamed(key, us, i);
    PassedKeys(key, rows, row, us[i..]);
    if w != [] {
      assert w == [w[0]];
      KeyOfOne(key, w[0]);
      if StepsOver(key, rows, row, us, i) {
        OthersNoKey(key, w, Keys(key, us[..i + 1]));
      } else {
        OthersAll(key, w, Keys(key, us[..i + 1]));
      }
    }
  }

  lemma SettledListed<U, K>(key: U -> K, rows: seq<U>, row: nat, us: seq<U>, i: nat)
    requires DistinctKeys(key, rows) && row <= |rows| && i < |us|
    ensures Keys(key, Settled(key, rows, row, us, i + 1)) !! Keys(key, us) <==> AllNamedBy(key, us, i)
  {
    OneMoreNamed(key, us, i);
    BehindKeys(key, rows, row, us[i + 1..]);
    OthersKeys(key, Behind(key, rows, row, us[i + 1..]), Keys(key, us[..i + 1]));
    var k := key(us[i]);
    assert k in Keys(key, us[..i + 1]);
    if AllNamedBy(key, us, i) {
    } else {
      var l :| l in Keys(key, us[i..]) && l !in Keys(key, us[..i + 1]);
      assert l in Keys(key, us[i + 1..]);
    }
  }

  lemma {:induction false} SettledIff<U, K>(key: U -> K, rows: seq<U>, row: nat, us: seq<U>, i: nat)
    requires DistinctKeys(key, rows) && row <= |rows| && i <= |us|
    ensures ListedFirst(key, Settled(key, rows, row, us, i), Keys(key, us)) <==> NotTorn(key, rows, row, us, i)
    decreases |us| - i
  {
    if i == |us| {
      assert us[..i] == us && us[i..] == [];
      OthersKeys(key, rows[row..], Keys(key, us));
      NothingListed(key, Settled(key, rows, row, us, i), Keys(key, us));
    } else {
      SettledIff(key, rows, row, us, i + 1);
      NotTornMore(key, rows, row, us, i);
      SettledMore(key, rows, row, us, i);
      SettledListed(key, rows, row, us, i);
      OneMoreSettled(key, rows, row, us, i);
    }
  }

  lemma NothingListed<U, K>(key: U -> K, s: seq<U>, ks: set<K>)
    requires Keys(key, s) !! ks
    ensures ListedFirst(key, s, ks)
  {
    forall i | 0 <= i < |s|
      ensures key(s[i]) !in ks
    {
      assert key(s[i]) in Keys(key, s);
    }
  }

  lemma OneMoreSettled<U, K>(key: U -> K, rows: seq<U>, row: nat, us: seq<U>, i: nat)
    requires row <= |rows| && i < |us|
    requires Settled(key, rows, row, us, i) ==
             (if key(us[i]) in Keys(key, us[..i]) then [] else [us[i]]) +
             ((if StepsOver(key, rows, row, us, i) then Passed(key, rows, row, us[i..]) else []) +
              Settled(key, rows, row, us, i + 1))
    ensures ListedFirst(key, Settled(key, rows, row, us, i), Keys(key, us)) <==>
            ListedFirst(key, Settled(key, rows, row, us, i + 1), Keys(key, us)) &&
            (StepsOver(key, rows, row, us, i) ==>
               Keys(key, Settled(key, rows, row, us, i + 1)) !! Keys(key, us))
  {
    var v, w := Settled(key, rows, row, us, i + 1), Passed(key, rows, row, us[i..]);
    var wv := (if StepsOver(key, rows, row, us, i) then w else []) + v;
    assert key(us[i]) in Keys(key, us);
    PassedKeys(key, rows, row, us[i..]);
    if StepsOver(key, rows, row, us, i) {
      assert wv == [w[0]] + v;
      ListedFirstMore(key, w[0], v, Keys(key, us));
    } else {
      assert wv == v;
    }
    if key(us[i]) in Keys(key, us[..i]) {
      assert Settled(key, rows, row, us, i) == wv;
    } else {
      ListedFirstMore(key, us[i], wv, Keys(key, us));
    }
  }

  /** Any list moved to any row of rows with distinct keys: the listed entries come out in the order of the list, each
      key once, and the others in their old order. The list comes out in one piece if and only if no row that is not
      in the list is passed while something stands behind that is not named before. */
  lemma MoveResult<U, K>(key: U -> K, rows: seq<U>, row: nat, us: seq<U>)
    requires DistinctKeys(key, rows) && row <= |rows|
    ensures var p, ks := AddAll(key, Place(rows, row), us, true), Keys(key, us);
            && Others(key, p.rows, Keys(key, rows) - ks) == FirstOfEach(key, us)
            && Others(key, p.rows, ks) == Others(key, rows, ks)
            && (InOnePiece(key, rows, us, p.rows) <==> NotTorn(key, rows, row, us, 0))
            && (DistinctKeys(key, us) ==> FirstOfEach(key, us) == us)
  {
    var a, b := Above(key, rows, row, us), Behind(key, rows, row, us);
    var ks, ls := Keys(key, us), Keys(key, rows) - Keys(key, us);
    MoveParts(key, rows, row, us);
    MoveKeeps(key, Place(rows, row), us, ks);
    AboveKeys(key, rows, row, us);
    PartKeys(key, rows, row);
    OthersConcat(key, a, b, ls);
    OthersAll(key, a, ls);
    BehindListed(key, rows, row, us);
    PiecesIff(key, rows, row, us);
    if DistinctKeys(key, us) { FirstOfEachSame(key, us); }
  }

  lemma PiecesIff<U, K>(key: U -> K, rows: seq<U>, row: nat, us: seq<U>)
    requires DistinctKeys(key, rows) && row <= |rows|
    ensures InOnePiece(key, rows, us, AddAll(key, Place(rows, row), us, true).rows) <==>
            NotTorn(key, rows, row, us, 0)
    ensures NotTorn(key, rows, row, us, 0) ==>
              var a, b := Above(key, rows, row, us), Others(key, Behind(key, rows, row, us), Keys(key, us));
              && AddAll(key, Place(rows, row), us, true) == Place(a + (FirstOfEach(key, us) + b), |a|)
              && a + b == Others(key, rows, Keys(key, us))
  {
    var a, b := Above(key, rows, row, us), Behind(key, rows, row, us);
    MoveParts(key, rows, row, us);
    MoveKeeps(key, Place(rows, row), us, Keys(key, us));
    AboveKeys(key, rows, row, us);
    BehindKeys(key, rows, row, us);
    BehindListed(key, rows, row, us);
    SettledIff(key, rows, row, us, 0);
    assert us[0..] == us && us[..0] == [] && Keys(key, us[..0]) == {};
    OthersNone(key, b, {});
    if NotTorn(key, rows, row, us, 0) {
      OnePieceThen(key, rows, us, a, b);
    } else if InOnePiece(key, rows, us, a + b) {
      OnlyThen(key, rows, us, a, b);
    }
  }

  // ----- on which row it lands

  lemma OthersOneMore<U, K>(key: U -> K, s: seq<U>, u: U, ks: set<K>)
    ensures |Others(key, s + [u], ks)| == |Others(key, s, ks)| + (if key(u) in ks then 0 else 1)
  {
    OthersConcat(key, s, [u], ks);
    assert [u][0] == u && [u][1..] == [];
  }

  lemma AboveOthers<U, K>(key: U -> K, rows: seq<U>, row: nat, us: seq<U>, i: nat)
    requires row <= |rows| && i < |us|
    ensures |Others(key, Above(key, rows, row, us[i..]), Keys(key, us))| ==
            |Others(key, Above(key, rows, row, us[i + 1..]), Keys(key, us))| -
            (if StepsOver(key, rows, row, us, i) then 1 else 0)
  {
    var a, back := Above(key, rows, row, us[i + 1..]), Meets(key, rows, row, us[i..]);
    OneMoreNamed(key, us, i);
    OthersTwice(key, Unpassed(a, back), {key(us[i])}, Keys(key, us));
    assert {key(us[i])} + Keys(key, us) == Keys(key, us);
    assert a == Unpassed(a, back) + Lowest(a, back);
    if Lowest(a, back) == [] {
      assert a == Unpassed(a, back);
    } else {
      OthersOneMore(key, Unpassed(a, back), a[|a| - 1], Keys(key, us));
    }
  }

  lemma {:induction false} AboveCount<U, K>(key: U -> K, rows: seq<U>, row: nat, us: seq<U>, i: nat)
    requires row <= |rows| && i <= |us|
    ensures var n := |Others(key, Above(key, rows, row, us[i..]), Keys(key, us))|;
            var m := |Others(key, rows[..row], Keys(key, us))|;
            n <= m && (n == m <==> forall j :: i <= j < |us| ==> !StepsOver(key, rows, row, us, j))
    decreases |us| - i
  {
    if i == |us| {
      assert us[i..] == [];
    } else {
      AboveCount(key, rows, row, us, i + 1);
      AboveOthers(key, rows, row, us, i);
    }
  }

  /** The list lands right behind the rows that stay and stood above the insertion row if and only if none of them is
      passed. */
  lemma LandsOnRowIff<U, K>(key: U -> K, rows: seq<U>, row: nat, us: seq<U>)
    requires DistinctKeys(key, rows) && row <= |rows|
    ensures AddAll(key, Place(rows, row), us, true).row == |Others(key, rows[..row], Keys(key, us))| <==>
            forall i :: 0 <= i < |us| ==> !StepsOver(key, rows, row, us, i)
  {
    MoveParts(key, rows, row, us);
    AboveKeys(key, rows, row, us);
    OthersNoKey(key, Above(key, rows, row, us), Keys(key, us));
    AboveCount(key, rows, row, us, 0);
    assert us[0..] == us;
  }

  // ----- lists that come out in one piece wherever they go

  /** Every place is named no later than the first place that follows itself. */
  ghost predicate NamedFirst<U, K>(key: U -> K, us: seq<U>) {
    forall i :: 0 <= i < |us| - 1 && key(us[i]) == key(us[i + 1]) ==> AllNamedBy(key, us, i)
  }

  lemma LastNamed<U, K>(key: U -> K, us: seq<U>)
    requires us != []
    ensures AllNamedBy(key, us, |us| - 1)
  {
    assert us[..|us| - 1 + 1] == us;
    PartKeys(key, us, |us| - 1);
  }

  lemma TwinIsPassed<U, K>(key: U -> K, rows: seq<U>, row: nat, us: seq<U>, i: nat)
    requires row <= |rows| && i < |us| - 1 && StepsOver(key, rows, row, us, i)
    ensures key(us[i]) == key(us[i + 1])
  {
    assert us[i..][1] == us[i + 1] && us[i..][0] == us[i];
  }

  lemma NamedNotTorn<U, K>(key: U -> K, rows: seq<U>, row: nat, us: seq<U>)
    requires row <= |rows| && NamedFirst(key, us)
    ensures NotTorn(key, rows, row, us, 0)
  {
    forall i | 0 <= i < |us| && StepsOver(key, rows, row, us, i)
      ensures AllNamedBy(key, us, i)
    {
      if i < |us| - 1 { TwinIsPassed(key, rows, row, us, i); } else { LastNamed(key, us); }
    }
  }

  /** Such a list comes out in one piece at every row of every list of rows. */
  lemma NamedFirstThen<U, K>(key: U -> K, rows: seq<U>, row: nat, us: seq<U>)
    requires DistinctKeys(key, rows) && row <= |rows| && NamedFirst(key, us)
    ensures InOnePiece(key, rows, us, AddAll(key, Place(rows, row), us, true).rows)
  {
    NamedNotTorn(key, rows, row, us);
    PiecesIff(key, rows, row, us);
  }

  /** Rows that are not in the list leave the rows above one by one. */
  lemma {:induction false} AboveSize<U, K>(key: U -> K, rows: seq<U>, row: nat, us: seq<U>)
    requires row <= |rows| && Keys(key, rows[..row]) !! Keys(key, us)
    ensures |Above(key, rows, row, us)| >= row - |us|
  {
    if us == [] {
    } else {
      FirstKey(key, us);
      AboveSize(key, rows, row, us[1..]);
      AboveKeys(key, rows, row, us[1..]);
      UnpassedKeys(key, Above(key, rows, row, us[1..]), Meets(key, rows, row, us));
      OthersNoKey(key, Unpassed(Above(key, rows, row, us[1..]), Meets(key, rows, row, us)), {key(us[0])});
    }
  }

  lemma TwinStepsOver<U, K>(key: U -> K, rows: seq<U>, row: nat, us: seq<U>, i: nat)
    requires |us| <= row <= |rows| && Keys(key, rows[..row]) !! Keys(key, us)
    requires i < |us| - 1 && key(us[i]) == key(us[i + 1])
    ensures StepsOver(key, rows, row, us, i)
  {
    OneMoreNamed(key, us, i);
    AboveSize(key, rows, row, us[i + 1..]);
    PassedKeys(key, rows, row, us[i..]);
    var w := Passed(key, rows, row, us[i..]);
    assert us[i..][1] == us[i + 1] && us[i..][0] == us[i];
    assert key(w[0]) in Keys(key, w);
  }

  /** With enough rows above that are not in the list, only such a list comes out in one piece. */
  lemma NamedFirstIff<U, K>(key: U -> K, rows: seq<U>, row: nat, us: seq<U>)
    requires DistinctKeys(key, rows) && |us| <= row <= |rows| && Keys(key, rows[..row]) !! Keys(key, us)
    ensures InOnePiece(key, rows, us, AddAll(key, Place(rows, row), us, true).rows) <==> NamedFirst(key, us)
  {
    if NamedFirst(key, us) {
      NamedFirstThen(key, rows, row, us);
    } else {
      var i :| 0 <= i < |us| - 1 && key(us[i]) == key(us[i + 1]) && !AllNamedBy(key, us, i);
      TwinStepsOver(key, rows, row, us, i);
      PiecesIff(key, rows, row, us);
    }
  }

  // ----- lists without equal neighbours

  /** No two neighbours in the list have the same key. */
  ghost predicate NoTwins<U, K>(key: U -> K, us: seq<U>) {
    forall i :: 0 <= i < |us| - 1 ==> key(us[i]) != key(us[i + 1])
  }

  lemma NamedNoTwins<U, K>(key: U -> K, us: seq<U>)
    requires NoTwins(key, us)
    ensures NamedFirst(key, us)
  {}

  /** Whether the last entry of the list sits on the insertion row already. */
  ghost predicate StepsBack<U, K>(key: U -> K, rows: seq<U>, row: nat, us: seq<U>) {
    0 < row < |rows| && us != [] && key(rows[row]) == key(us[|us| - 1])
  }

  /** The row the list is inserted at, counted in the old rows. */
  ghost function Split<U, K>(key: U -> K, rows: seq<U>, row: nat, us: seq<U>): nat {
    if StepsBack(key, rows, row, us) then row - 1 else row
  }

  lemma AboveOne<U, K>(key: U -> K, rows: seq<U>, row: nat, us: seq<U>)
    requires row <= |rows| && |us| == 1
    ensures Above(key, rows, row, us) == Others(key, rows[..Split(key, rows, row, us)], Keys(key, us))
  {
    KeyOfOne(key, us[0]);
    assert us == [us[0]] && us[1..] == [];
    assert Unpassed(rows[..row], Meets(key, rows, row, us)) == rows[..Split(key, rows, row, us)];
  }

  lemma RestNoTwins<U, K>(key: U -> K, us: seq<U>)
    requires NoTwins(key, us) && |us| > 1
    ensures NoTwins(key, us[1..]) && key(us[0]) != key(us[1])
  {
    assert key(us[0]) != key(us[0 + 1]);
    forall i | 0 <= i < |us[1..]| - 1
      ensures key(us[1..][i]) != key(us[1..][i + 1])
    {
      assert key(us[i + 1]) != key(us[i + 1 + 1]);
    }
  }

  lemma {:induction false} AboveNoTwins<U, K>(key: U -> K, rows: seq<U>, row: nat, us: seq<U>)
    requires row <= |rows| && NoTwins(key, us)
    ensures Above(key, rows, row, us) == Others(key, rows[..Split(key, rows, row, us)], Keys(key, us))
  {
    if us == [] {
      OthersNone(key, rows[..row], Keys(key, us));
    } else if |us| == 1 {
      AboveOne(key, rows, row, us);
    } else {
      RestNoTwins(key, us);
      AboveNoTwins(key, rows, row, us[1..]);
      FirstKey(key, us);
      OthersTwice(key, rows[..Split(key, rows, row, us)], Keys(key, us[1..]), {key(us[0])});
      assert Keys(key, us[1..]) + {key(us[0])} == Keys(key, us);
    }
  }

  /** Without equal neighbours, the list comes out in one piece between what stays of the rows above and below the
      insertion row, or above and below the row before it if the last entry sits on the insertion row already. */
  lemma MoveNoTwins<U, K>(key: U -> K, rows: seq<U>, row: nat, us: seq<U>)
    requires DistinctKeys(key, rows) && row <= |rows| && NoTwins(key, us)
    ensures var s, ks := Split(key, rows, row, us), Keys(key, us);
            var a, b := Others(key, rows[..s], ks), Others(key, rows[s..], ks);
            && AddAll(key, Place(rows, row), us, true) == Place(a + (FirstOfEach(key, us) + b), |a|)
            && (|a| == |Others(key, rows[..row], ks)| <==>
                  !StepsBack(key, rows, row, us) || key(rows[row - 1]) in ks)
  {
    var s, ks := Split(key, rows, row, us), Keys(key, us);
    NamedNoTwins(key, us);
    NamedNotTorn(key, rows, row, us);
    AboveNoTwins(key, rows, row, us);
    PiecesIff(key, rows, row, us);
    SplitRows(key, rows, s, ks, Others(key, Behind(key, rows, row, us), ks));
    SplitCount(key, rows, row, us, ks);
  }

  lemma SplitCount<U, K>(key: U -> K, rows: seq<U>, row: nat, us: seq<U>, ks: set<K>)
    requires row <= |rows|
    ensures |Others(key, rows[..Split(key, rows, row, us)], ks)| == |Others(key, rows[..row], ks)| <==>
            !StepsBack(key, rows, row, us) || key(rows[row - 1]) in ks
  {
    if StepsBack(key, rows, row, us) {
      assert rows[..row] == rows[..row - 1] + [rows[row - 1]];
      OthersOneMore(key, rows[..row - 1], rows[row - 1], ks);
    }
  }

  lemma SplitRows<U, K>(key: U -> K, rows: seq<U>, s: nat, ks: set<K>, b: seq<U>)
    requires s <= |rows| && Others(key, rows[..s], ks) + b == Others(key, rows, ks)
    ensures b == Others(key, rows[s..], ks)
  {
    assert rows == rows[..s] + rows[s..];
    OthersConcat(key, rows[..s], rows[s..], ks);
    var o := Others(key, rows, ks);
    var n := |Others(key, rows[..s], ks)|;
    assert b == o[n..] == Others(key, rows[s..], ks);
  }

  // ----- into an empty list

  lemma NoRows<U, K>(key: U -> K, us: seq<U>, i: nat)
    requires i < |us|
    ensures !StepsOver(key, [], 0, us, i)
  {
    PassedKeys(key, [], 0, us[i..]);
    NoKeys(key, Passed(key, [], 0, us[i..]));
  }

  lemma NoKeys<U, K>(key: U -> K, s: seq<U>)
    ensures Keys(key, s) == {} <==> s == []
  {
    if s != [] { assert key(s[0]) in Keys(key, s); }
  }

  /** Any list moved into an empty one: each key once, where it comes first in the list. */
  lemma SetResult<U, K>(key: U -> K, us: seq<U>)
    ensures AddAll(key, Place([], 0), us, true) == Place(FirstOfEach(key, us), 0)
  {
    forall i | 0 <= i < |us|
      ensures !StepsOver(key, [], 0, us, i)
    {
      NoRows(key, us, i);
    }
    PiecesIff(key, [], 0, us);
  }
}
