/** The search field of the parameter popup: names are ranked by how well they match, and each keeps its button. */
module RankedFilter {
  import opened Sorting

  /** The form in which two letters are compared without regard to case. */
  type Folding = char -> char

  function Folded(fold: Folding, s: string): string {
    seq(|s|, i requires 0 <= i < |s| => fold(s[i]))
  }

  /** The first place of t in s, or -1. */
  function IndexOf(s: string, t: string): (i: int)
    ensures -1 <= i && i + |t| <= |s| + (if i < 0 then |t| else 0)
    ensures i >= 0 ==> t <= s[i..]
    ensures forall j :: 0 <= j <= |s| && (i < 0 || j < i) ==> !(t <= s[j..])
  {
    if t <= s then 0 else if s == "" then -1 else
      var i := IndexOf(s[1..], t);
      assert forall j :: 0 < j <= |s| ==> s[j..] == s[1..][j - 1..];
      if i < 0 then -1 else i + 1
  }

  /** How many letters of the query the name has. */
  ghost function LettersIn(name: string, query: string): nat {
    if query == "" then 0 else
      var n := |query| - 1;
      LettersIn(name, query[..n]) + (if query[n] in name then 1 else 0)
  }

  ghost function Score(fold: Folding, name: string, query: string): int {
    var s, q := Folded(fold, name), Folded(fold, query);
    if IndexOf(s, q) >= 0 then 100 - IndexOf(s, q) else LettersIn(s, q)
  }

  /** The score as the code counts it. The bonus for letters in order never applies: no place is below 0. */
  method CountScore(fold: Folding, name: string, query: string) returns (score: int)
    ensures score == Score(fold, name, query)
  {
    var s, q := Folded(fold, name), Folded(fold, query);
    if IndexOf(s, q) >= 0 {
      var pos := IndexOf(s, q);
      return 100 - pos;
    }
    score := 0;
    var pos := 0;
    for i := 0 to |q|
      invariant pos == 0 && score == LettersIn(s, q[..i])
    {
      assert q[..i + 1][..i] == q[..i];
      var p := IndexOf(s, [q[i]]);
      LetterIn(s, q[i]);
      if p >= 0 {
        if p < pos {
          pos := p;
          score := score + 1;
        }
        score := score + 1;
      }
    }
    assert q[..|q|] == q;
  }

  lemma LetterIn(s: string, c: char)
    ensures IndexOf(s, [c]) >= 0 <==> c in s
  {
    if c in s {
      var j :| 0 <= j < |s| && s[j] == c;
      assert [c] <= s[j..];
    }
    if IndexOf(s, [c]) >= 0 {
      assert s[IndexOf(s, [c])..][0] == c;
    }
  }

  /** The name has the query at place j, up to upper and lower case. */
  ghost predicate HasAt(fold: Folding, name: string, query: string, j: int) {
    0 <= j <= |name| - |query| && forall k :: 0 <= k < |query| ==> fold(name[j + k]) == fold(query[k])
  }

  lemma HasAtIff(fold: Folding, name: string, query: string, j: nat)
    requires j <= |name|
    ensures HasAt(fold, name, query, j) <==> Folded(fold, query) <= Folded(fold, name)[j..]
  {
    var s, q := Folded(fold, name), Folded(fold, query);
    if q <= s[j..] {
      forall k | 0 <= k < |query|
        ensures fold(name[j + k]) == fold(query[k])
      {
        assert s[j..][k] == q[k];
      }
    }
    if HasAt(fold, name, query, j) { assert s[j..][..|q|] == q; }
  }

  /** A name that has the query gets 100 minus the place where it has it first, whatever the case of the letters. */
  lemma ScoreOfMatch(fold: Folding, name: string, query: string, j: int)
    requires HasAt(fold, name, query, j) && forall i :: 0 <= i < j ==> !HasAt(fold, name, query, i)
    ensures Score(fold, name, query) == 100 - j
  {
    var s, q := Folded(fold, name), Folded(fold, query);
    HasAtIff(fold, name, query, j);
    forall i | 0 <= i < j
      ensures !(q <= s[i..])
    {
      HasAtIff(fold, name, query, i);
    }
  }

  /** So a name with an earlier match is worth more. */
  lemma EarlierIsBetter(fold: Folding, name: string, other: string, query: string, i: int, j: int)
    requires HasAt(fold, name, query, i) && forall k :: 0 <= k < i ==> !HasAt(fold, name, query, k)
    requires HasAt(fold, other, query, j) && forall k :: 0 <= k < j ==> !HasAt(fold, other, query, k)
    requires i < j
    ensures Score(fold, name, query) > Score(fold, other, query)
  {
    ScoreOfMatch(fold, name, query, i);
    ScoreOfMatch(fold, other, query, j);
  }

  /** The letters of the query, by their places in it, that the name has somewhere. */
  ghost function PlacesFound(fold: Folding, name: string, query: string): set<nat> {
    set k: nat | k < |query| && exists j :: 0 <= j < |name| && fold(name[j]) == fold(query[k])
  }

  ghost function Found(s: string, q: string): set<nat> {
    set k: nat | k < |q| && q[k] in s
  }

  lemma {:induction false} LettersAre(s: string, q: string)
    ensures LettersIn(s, q) == |Found(s, q)|
  {
    if q == "" {
      assert Found(s, q) == {};
    } else {
      var n := |q| - 1;
      LettersAre(s, q[..n]);
      assert Found(s, q) == Found(s, q[..n]) + (if q[n] in s then {n} else {});
    }
  }

  /** A name that does not have the query gets the number of letters of the query that it has. */
  lemma ScoreOfLetters(fold: Folding, name: string, query: string)
    requires forall j :: !HasAt(fold, name, query, j)
    ensures Score(fold, name, query) == |PlacesFound(fold, name, query)|
  {
    var s, q := Folded(fold, name), Folded(fold, query);
    forall j | 0 <= j <= |s|
      ensures !(q <= s[j..])
    {
      HasAtIff(fold, name, query, j);
    }
    LettersAre(s, q);
    forall k: nat | k < |q|
      ensures q[k] in s <==> k in PlacesFound(fold, name, query)
    {
      if j :| 0 <= j < |name| && fold(name[j]) == fold(query[k]) { assert s[j] == q[k]; }
    }
    assert Found(s, q) == PlacesFound(fold, name, query);
  }

  // ----- the order

  predicate Below(a: string, b: string) {
    b != "" && (a == "" || a[0] < b[0] || (a[0] == b[0] && Below(a[1..], b[1..])))
  }

  type Scored = (int, string)

  predicate Before(a: Scored, b: Scored) {
    if a.0 == b.0 then Below(a.1, b.1) else a.0 > b.0
  }

  lemma {:induction false} BelowAsymmetric(a: string, b: string)
    ensures !(Below(a, b) && Below(b, a))
  {
    if a != "" && b != "" { BelowAsymmetric(a[1..], b[1..]); }
  }

  lemma {:induction false} BelowTotal(a: string, b: string)
    ensures a == b || Below(a, b) || Below(b, a)
  {
    if a != "" && b != "" {
      BelowTotal(a[1..], b[1..]);
      assert a == [a[0]] + a[1..] && b == [b[0]] + b[1..];
    }
  }

  lemma {:induction false} BelowBetween(a: string, b: string, c: string)
    ensures Below(a, c) ==> Below(a, b) || Below(b, c)
  {
    if a != "" && b != "" && c != "" { BelowBetween(a[1..], b[1..], c[1..]); }
  }

  lemma BeforeIsTotalOrder()
    ensures WeakOrder(Before) && Total(Before)
  {
    forall x: Scored, y: Scored
      ensures Before(x, y) ==> !Before(y, x)
      ensures x != y ==> Before(x, y) || Before(y, x)
    {
      BelowAsymmetric(x.1, y.1);
      BelowTotal(x.1, y.1);
    }
    forall x: Scored, y: Scored, z: Scored
      ensures Before(x, z) ==> Before(x, y) || Before(y, z)
    {
      BelowBetween(x.1, y.1, z.1);
    }
  }

  /** a comes before b in the alphabet: at the first place where they differ it has the smaller letter or has ended. */
  ghost predicate Alphabetical(a: string, b: string) {
    exists k :: 0 <= k <= |a| && k < |b| && a[..k] == b[..k] && (k == |a| || a[k] < b[k])
  }

  lemma SameFirst(a: string, b: string, k: nat)
    requires 0 < k <= |a| && k <= |b| && a[..k] == b[..k]
    ensures a[0] == b[0]
  {
    assert a[..k][0] == b[..k][0];
  }

  lemma {:induction false} BelowIff(a: string, b: string)
    ensures Below(a, b) <==> Alphabetical(a, b)
  {
    if a == "" || b == "" || a[0] != b[0] {
      if Below(a, b) { assert a[..0] == b[..0]; }
      if k :| 0 <= k <= |a| && k < |b| && a[..k] == b[..k] && (k == |a| || a[k] < b[k]) {
        if k > 0 { SameFirst(a, b, k); }
      }
    } else {
      BelowIff(a[1..], b[1..]);
      var c, d := a[1..], b[1..];
      if k :| 0 <= k <= |c| && k < |d| && c[..k] == d[..k] && (k == |c| || c[k] < d[k]) {
        assert a[..k + 1] == [a[0]] + c[..k] && b[..k + 1] == [b[0]] + d[..k];
      }
      if k :| 0 <= k <= |a| && k < |b| && a[..k] == b[..k] && (k == |a| || a[k] < b[k]) {
        assert k > 0;
        assert a[1..][..k - 1] == a[..k][1..] && b[1..][..k - 1] == b[..k][1..];
      }
    }
  }

  // ----- the filter

  ghost function ScoresOf(fold: Folding, names: seq<string>, query: string): seq<Scored> {
    Map(name => (Score(fold, name, query), name), names)
  }

  ghost function NamesOf(scores: seq<Scored>): seq<string> {
    Map((s: Scored) => s.1, scores)
  }

  ghost function Ranked(fold: Folding, names: seq<string>, query: string): seq<Scored> {
    Sort(Before, ScoresOf(fold, names, query))
  }

  method FilterParameters(fold: Folding, parameters: seq<string>, query: string) returns (filtered: seq<string>)
    ensures filtered == NamesOf(Ranked(fold, parameters, query))
  {
    var scores: seq<Scored> := [];
    for i := 0 to |parameters|
      invariant scores == ScoresOf(fold, parameters, query)[..i]
    {
      var score := CountScore(fold, parameters[i], query);
      scores := scores + [(score, parameters[i])];
    }
    assert scores == ScoresOf(fold, parameters, query);
    scores := Sort(Before, scores);
    filtered := [];
    for i := 0 to |scores|
      invariant filtered == NamesOf(scores)[..i]
    {
      filtered := filtered + [scores[i].1];
    }
    assert filtered == NamesOf(scores);
  }

  /** The names come out best score first and in alphabetical order within a score; none is lost or made up. */
  lemma FilterRanks(fold: Folding, names: seq<string>, query: string)
    ensures var scores := Ranked(fold, names, query);
            && Sorted(Before, scores)
            && multiset(NamesOf(scores)) == multiset(names)
            && forall i :: 0 <= i < |scores| ==> scores[i].0 == Score(fold, scores[i].1, query)
  {
    BeforeIsTotalOrder();
    SortSorts(Before, ScoresOf(fold, names, query));
    var scores, unsorted := Ranked(fold, names, query), ScoresOf(fold, names, query);
    MapCounted((s: Scored) => s.1, scores, unsorted);
    assert NamesOf(unsorted) == names;
    forall i | 0 <= i < |scores|
      ensures scores[i].0 == Score(fold, scores[i].1, query)
    {
      assert scores[i] in multiset(scores);
      assert scores[i] in unsorted;
    }
  }

  /** In other words: of two names in the result the first has the better score, or the same one and comes first in the
      alphabet. */
  lemma BestFirst(fold: Folding, names: seq<string>, query: string, i: nat, j: nat)
    requires i < j < |NamesOf(Ranked(fold, names, query))|
    ensures var r := NamesOf(Ranked(fold, names, query));
            var a, b := Score(fold, r[i], query), Score(fold, r[j], query);
            a > b || (a == b && (r[i] == r[j] || Alphabetical(r[i], r[j])))
  {
    FilterRanks(fold, names, query);
    var scores := Ranked(fold, names, query);
    assert !Before(scores[j], scores[i]);
    BelowTotal(scores[i].1, scores[j].1);
    BelowIff(scores[i].1, scores[j].1);
  }

  /** The result depends only on which names there are, not on their order nor on how std::sort works. */
  lemma FilterUnique(fold: Folding, names: seq<string>, others: seq<string>, query: string, sorted: seq<Scored>)
    requires multiset(names) == multiset(others)
    requires Sorted(Before, sorted) && multiset(sorted) == multiset(ScoresOf(fold, others, query))
    ensures sorted == Ranked(fold, names, query)
  {
    BeforeIsTotalOrder();
    MapCounted(name => (Score(fold, name, query), name), names, others);
    SortSorts(Before, ScoresOf(fold, names, query));
    SortedUnique(Before, sorted, Ranked(fold, names, query));
  }

  // ----- the buttons

  /** For each name the flag of its first entry in the base list. */
  method SortLike(sorted: seq<string>, base: seq<string>, flags: seq<bool>) returns (r: seq<bool>)
    requires |flags| == |base| && forall k :: 0 <= k < |sorted| ==> sorted[k] in base
    ensures |r| == |sorted|
    ensures forall k, i :: 0 <= k < |sorted| && 0 <= i < |base| && base[i] == sorted[k] && sorted[k] !in base[..i] ==>
              r[k] == flags[i]
  {
    r := [];
    for k := 0 to |sorted|
      invariant |r| == k
      invariant forall j, i :: 0 <= j < k && 0 <= i < |base| && base[i] == sorted[j] && sorted[j] !in base[..i] ==>
                  r[j] == flags[i]
    {
      var idx := 0;
      assert sorted[k] in base;
      while base[idx] != sorted[k]
        invariant 0 <= idx < |base| && sorted[k] !in base[..idx] && sorted[k] in base[idx..]
        decreases |base| - idx
      {
        idx := idx + 1;
      }
      r := r + [flags[idx]];
    }
  }

  /** Names that differ keep their own flags through the filter. */
  method Populate(fold: Folding, names: seq<string>, flags: seq<bool>, query: string)
    returns (filtered: seq<string>, buttons: seq<bool>)
    requires |flags| == |names| && forall i, j :: 0 <= i < j < |names| ==> names[i] != names[j]
    ensures multiset(filtered) == multiset(names) && |buttons| == |filtered|
    ensures forall k, i :: 0 <= k < |filtered| && 0 <= i < |names| && names[i] == filtered[k] ==> buttons[k] == flags[i]
  {
    filtered := FilterParameters(fold, names, query);
    FilterRanks(fold, names, query);
    forall k | 0 <= k < |filtered|
      ensures filtered[k] in names
    {
      assert filtered[k] in multiset(filtered);
    }
    buttons := SortLike(filtered, names, flags);
  }
}
