/** RemoteUrlModel::addUrls and setUrls: bookmarks are inserted at a row that moves while older copies of them are
    removed before and after it. */
module SidebarUrls {
  import opened MoveInsert
  import opened MoveResults
  import opened Runs

  datatype Scheme = File | Home | OtherScheme

  /** A bookmark; `local` is its local file path. */
  datatype Url = Invalid | Url(scheme: Scheme, local: string)

  const HOME_URL := Url(Home, "")

  /** What the model asks of the file system: the cleaned path, whether a path is a directory, a path in lower case,
      whether the server runs on Windows, and the home directory, which is empty until the server has told it. */
  datatype FileSystem =
    FileSystem(clean: string -> string, isDir: string -> bool, lower: string -> string, windows: bool, home: string)

  /** The form in which paths are compared. */
  function Fold(fs: FileSystem, path: string): string {
    if fs.windows then fs.lower(path) else path
  }

  /** Cleaning does not make a path empty. */
  ghost predicate Sane(fs: FileSystem) {
    forall p :: fs.clean(p) == "" ==> p == ""
  }

  function LocalOf(fs: FileSystem, u: Url): string {
    if u.Url? && u.scheme != Home then u.local else fs.home
  }

  /** Two bookmarks are for the same place if their keys are equal. Without a home directory a home bookmark is
      different from any other. */
  function KeyOf(fs: FileSystem, u: Url): (bool, string) {
    (fs.home == "" && u.Url? && u.scheme == Home, Fold(fs, LocalOf(fs, u)))
  }

  function KeyIn(fs: FileSystem): Url -> (bool, string) {
    u => KeyOf(fs, u)
  }

  /** The cleaned path that a url of the list is compared by. */
  function CleanOf(fs: FileSystem, u: Url): string {
    if u.Url? && u.scheme == File then fs.clean(u.local) else fs.home
  }

  /** The url that is stored for a url of the list. */
  function Stored(fs: FileSystem, u: Url): Url {
    if u.Url? && u.scheme == File then
      var c := fs.clean(u.local);
      if fs.home != "" && Fold(fs, c) == Fold(fs, fs.home) then HOME_URL else if c != "" then Url(File, c) else u
    else u
  }

  /** A url of the list is taken if it is valid, local or home, and a directory unless it is home. */
  predicate Taken(fs: FileSystem, u: Url) {
    u.Url? && u.scheme != OtherScheme && (u.scheme == Home || fs.isDir(fs.clean(u.local)))
  }

  /** The bookmarks to be added, in the order of the list. */
  ghost function Accepted(fs: FileSystem, list: seq<Url>): seq<Url> {
    if list == [] then [] else
      var init, last := list[..|list| - 1], list[|list| - 1];
      if Taken(fs, last) then Accepted(fs, init) + [Stored(fs, last)] else Accepted(fs, init)
  }

  /** The test of the inner loop, as it is written. */
  predicate Same(fs: FileSystem, row: Url, url: Url, cleanUrl: string) {
    !(fs.home == "" && row.Url? && url.Url? && row.scheme != url.scheme && (row.scheme == Home || url.scheme == Home))
    && Fold(fs, cleanUrl) == Fold(fs, LocalOf(fs, row))
  }

  lemma SameIsSameKey(fs: FileSystem, row: Url, u: Url)
    requires Sane(fs) && Taken(fs, u) && row.Url?
    ensures Same(fs, row, Stored(fs, u), CleanOf(fs, u)) <==> KeyOf(fs, row) == KeyOf(fs, Stored(fs, u))
  {}

  /** One round of the loop takes the last url off the list. */
  lemma Round(fs: FileSystem, p: Place<Url>, list: seq<Url>, i: nat, move: bool)
    requires i < |list|
    ensures AddAll(KeyIn(fs), p, Accepted(fs, list[..i + 1]), move) ==
            var q := if Taken(fs, list[i]) then AddOne(KeyIn(fs), p, Stored(fs, list[i]), move) else p;
            AddAll(KeyIn(fs), q, Accepted(fs, list[..i]), move)
  {
    assert list[..i + 1][..i] == list[..i];
    if Taken(fs, list[i]) {
      AddAllLast(KeyIn(fs), p, Accepted(fs, list[..i]), Stored(fs, list[i]), move);
    }
  }

  /** Dropping the second of three bookmarks where it is moves it to the front. */
  lemma StepsBackExample(fs: FileSystem)
    requires fs.home != "" && Fold(fs, "a") != Fold(fs, "b") && Fold(fs, "b") != Fold(fs, "c")
    ensures var a, b, c := Url(File, "a"), Url(File, "b"), Url(File, "c");
            AddAll(KeyIn(fs), Place([a, b, c], 1), [b], true) == Place([b, a, c], 0)
  {
    var a, b, c := Url(File, "a"), Url(File, "b"), Url(File, "c");
    assert [a, b, c][1..] == [b, c];
    assert Find(KeyIn(fs), [a, b, c], b) == 1;
    assert Dropped([a, b, c], 1) == [a, c];
    assert [b][..0] == [];
  }

  lemma TwinsSteps<U, K>(key: U -> K, a: U, b: U, x: U, z: U)
    requires key(x) != key(z) && key(a) !in {key(x), key(z)} && key(b) !in {key(x), key(z)}
    ensures AddOne(key, Place([a, b], 1), z, true) == Place([a, z, b], 1)
    ensures AddOne(key, Place([a, z, b], 1), x, true) == Place([a, x, z, b], 1)
    ensures AddOne(key, Place([a, x, z, b], 1), x, true) == Place([x, a, z, b], 0)
  {
    FindIs(key, [a, b], z, 2);
    FindIs(key, [a, z, b], x, 3);
    FindIs(key, [a, x, z, b], x, 1);
    assert Dropped([a, x, z, b], 1) == [a, z, b];
  }

  lemma TwinsTorn<U, K>(key: U -> K, a: U, b: U, x: U, z: U)
    requires key(x) != key(z) && key(a) !in {key(x), key(z)} && key(b) !in {key(x), key(z)}
    ensures AddAll(key, Place([a, b], 1), [x, x, z], true) == Place([x, a, z, b], 0)
  {
    TwinsSteps(key, a, b, x, z);
    assert [x, x, z] == [x, x] + [z] && [x, x] == [x] + [x] && [x] == [] + [x];
    AddAllLast(key, Place([a, b], 1), [x, x], z, true);
    AddAllLast(key, Place([a, z, b], 1), [x], x, true);
    AddAllLast(key, Place([a, x, z, b], 1), [], x, true);
  }

  /** A list with equal neighbours can be torn apart: x, x, z moved to the second of two rows. */
  lemma TwinsExample(fs: FileSystem)
    requires fs.home != "" && Fold(fs, "x") != Fold(fs, "z")
    requires Fold(fs, "a") !in {Fold(fs, "x"), Fold(fs, "z")} && Fold(fs, "b") !in {Fold(fs, "x"), Fold(fs, "z")}
    ensures var a, b, x, z := Url(File, "a"), Url(File, "b"), Url(File, "x"), Url(File, "z");
            AddAll(KeyIn(fs), Place([a, b], 1), [x, x, z], true) == Place([x, a, z, b], 0)
  {
    TwinsTorn(KeyIn(fs), Url(File, "a"), Url(File, "b"), Url(File, "x"), Url(File, "z"));
  }

  // ----- runs

  /** The bookmarks and what is known of the file system. */
  datatype Bar = Bar(fs: FileSystem, rows: seq<Url>)

  datatype Call =
    | SetCall(list: seq<Url>)
    | MoveCall(list: seq<Url>, at: int)
    | RemoveCall(row: nat)
    | Listed(isDir: string -> bool)
    | SystemInfo(windows: bool, home: string)

  /** Where addUrls starts: at the end for -1 and for rows that do not exist. */
  function StartRow(rows: seq<Url>, at: int): int {
    if at == -1 || at > |rows| then |rows| else at
  }

  ghost function Step(b: Bar, c: Call): Bar {
    match c
    case SetCall(list) => b.(rows := AddAll(KeyIn(b.fs), Place([], 0), Accepted(b.fs, list), true).rows)
    case MoveCall(list, at) =>
      b.(rows := AddAll(KeyIn(b.fs), Place(b.rows, StartRow(b.rows, at)), Accepted(b.fs, list), true).rows)
    case RemoveCall(row) => if row < |b.rows| then b.(rows := b.rows[..row] + b.rows[row + 1..]) else b
    case Listed(isDir) => b.(fs := b.fs.(isDir := isDir))
    case SystemInfo(windows, home) => b.(fs := b.fs.(windows := windows, home := home))
  }

  ghost predicate DistinctPlaces(b: Bar) {
    DistinctKeys(KeyIn(b.fs), b.rows)
  }

  ghost predicate Bookmarks(rows: seq<Url>) {
    forall u :: u in rows ==> u.Url? && u.scheme != OtherScheme
  }

  lemma AcceptedBookmarks(fs: FileSystem, list: seq<Url>)
    ensures Bookmarks(Accepted(fs, list))
  {}

  lemma AddAllBookmarks(fs: FileSystem, p: Place<Url>, us: seq<Url>)
    requires Bookmarks(p.rows) && Bookmarks(us)
    ensures Bookmarks(AddAll(KeyIn(fs), p, us, true).rows)
    decreases |us|
  {
    if us == [] {
    } else {
      AddOneBookmarks(fs, p, us[|us| - 1]);
      AddAllBookmarks(fs, AddOne(KeyIn(fs), p, us[|us| - 1], true), us[..|us| - 1]);
    }
  }

  lemma AddOneBookmarks(fs: FileSystem, p: Place<Url>, u: Url)
    requires Bookmarks(p.rows) && u.Url? && u.scheme != OtherScheme
    ensures Bookmarks(AddOne(KeyIn(fs), p, u, true).rows)
  {
    FoundElements(p, u, Find(KeyIn(fs), p.rows, u));
  }

  lemma FoundElements<U>(p: Place<U>, u: U, j: nat)
    ensures forall x :: x in AddFound(p, u, j).rows ==> x in p.rows || x == u
  {}

  /** Two bookmarks are for the same place by what the server tells: for directories that differ in upper and lower
      case on Windows, or for home and the directory that turns out to be home. */
  ghost predicate Merges(fs: FileSystem, rows: seq<Url>) {
    exists i, j :: 0 <= i < |rows| && 0 <= j < |rows| && i != j && MergedBy(fs, rows[i], rows[j])
  }

  ghost predicate MergedBy(fs: FileSystem, u: Url, v: Url) {
    u.Url? && v.Url? && v.scheme == File &&
    if u.scheme == Home then fs.home != "" && Fold(fs, v.local) == Fold(fs, fs.home)
    else fs.windows && fs.lower(u.local) == fs.lower(v.local)
  }

  /** What the server tells makes two bookmarks the same. */
  ghost predicate MakesTwins(b: Bar, c: Call) {
    c.SystemInfo? && Merges(b.fs.(windows := c.windows, home := c.home), b.rows)
  }

  lemma SystemInfoIff(b: Bar, c: Call)
    requires DistinctPlaces(b) && Bookmarks(b.rows) && c.SystemInfo?
    ensures DistinctPlaces(Step(b, c)) <==> !MakesTwins(b, c)
  {
    var fs, rows := Step(b, c).fs, b.rows;
    forall i, j | 0 <= i < j < |rows|
      ensures KeyIn(fs)(rows[i]) == KeyIn(fs)(rows[j]) <==>
              MergedBy(fs, rows[i], rows[j]) || MergedBy(fs, rows[j], rows[i])
    {
      assert KeyIn(b.fs)(rows[i]) != KeyIn(b.fs)(rows[j]);
      assert rows[i] in rows && rows[j] in rows;
      SameKeyIff(b.fs, fs, rows[i], rows[j]);
    }
  }

  lemma SameKeyIff(fs: FileSystem, fs': FileSystem, u: Url, v: Url)
    requires u.Url? && v.Url? && u.scheme != OtherScheme && v.scheme != OtherScheme && KeyOf(fs, u) != KeyOf(fs, v)
    ensures KeyOf(fs', u) == KeyOf(fs', v) <==> MergedBy(fs', u, v) || MergedBy(fs', v, u)
  {}

  /** No call makes two bookmarks for the same place, whatever its list holds; only the news of the server can. */
  lemma StepDistinctIff(b: Bar, c: Call)
    requires DistinctPlaces(b) && Bookmarks(b.rows)
    ensures DistinctPlaces(Step(b, c)) <==> !MakesTwins(b, c)
    ensures Bookmarks(Step(b, c).rows)
  {
    match c
    case SetCall(list) => MoveDistinct(b.fs, [], 0, list);
    case MoveCall(list, at) => MoveDistinct(b.fs, b.rows, StartRow(b.rows, at), list);
    case RemoveCall(row) =>
    case Listed(isDir) =>
      assert forall u :: KeyIn(Step(b, c).fs)(u) == KeyIn(b.fs)(u);
    case SystemInfo(_, _) => SystemInfoIff(b, c);
  }

  lemma MoveDistinct(fs: FileSystem, rows: seq<Url>, row: int, list: seq<Url>)
    requires DistinctKeys(KeyIn(fs), rows) && Bookmarks(rows)
    ensures var rows' := AddAll(KeyIn(fs), Place(rows, row), Accepted(fs, list), true).rows;
            DistinctKeys(KeyIn(fs), rows') && Bookmarks(rows')
  {
    MoveKeeps(KeyIn(fs), Place(rows, row), Accepted(fs, list), Keys(KeyIn(fs), Accepted(fs, list)));
    AcceptedBookmarks(fs, list);
    AddAllBookmarks(fs, Place(rows, row), Accepted(fs, list));
  }

  // ----- what a call adds

  /** Home, or a url of a directory. */
  ghost predicate NamesPlace(fs: FileSystem, u: Url) {
    u.Url? && (u.scheme == Home || (u.scheme == File && fs.isDir(fs.clean(u.local))))
  }

  /** The key of the place that u names: home, or its cleaned path in the form in which paths are compared. */
  ghost function PlaceOf(fs: FileSystem, u: Url): (bool, string)
    requires NamesPlace(fs, u)
  {
    if u.scheme == Home then (fs.home == "", Fold(fs, fs.home)) else (false, Fold(fs, fs.clean(u.local)))
  }

  ghost predicate Names(fs: FileSystem, list: seq<Url>, key: (bool, string)) {
    exists u :: u in list && NamesPlace(fs, u) && PlaceOf(fs, u) == key
  }

  lemma StoredPlace(fs: FileSystem, u: Url)
    requires Sane(fs)
    ensures Taken(fs, u) <==> NamesPlace(fs, u)
    ensures Taken(fs, u) ==> KeyOf(fs, Stored(fs, u)) == PlaceOf(fs, u)
  {}

  /** A directory is stored by its cleaned path, unless that is home. */
  lemma StoredIs(fs: FileSystem, u: Url)
    requires Sane(fs) && NamesPlace(fs, u) && u.scheme == File && u.local != ""
    ensures Stored(fs, u) ==
            if fs.home != "" && Fold(fs, fs.clean(u.local)) == Fold(fs, fs.home) then HOME_URL
            else Url(File, fs.clean(u.local))
  {}

  lemma {:induction false} AcceptedPlaces(fs: FileSystem, list: seq<Url>)
    requires Sane(fs)
    ensures forall key :: key in Keys(KeyIn(fs), Accepted(fs, list)) <==> Names(fs, list, key)
    decreases |list|
  {
    if list == [] {
    } else {
      var init, last := list[..|list| - 1], list[|list| - 1];
      AcceptedPlaces(fs, init);
      StoredPlace(fs, last);
      assert list == init + [last];
      if Taken(fs, last) {
        KeysConcat(KeyIn(fs), Accepted(fs, init), [Stored(fs, last)]);
        KeyOfOne(KeyIn(fs), Stored(fs, last));
      }
      forall key
        ensures Names(fs, list, key) <==> Names(fs, init, key) || (NamesPlace(fs, last) && PlaceOf(fs, last) == key)
      {
        NamesMore(fs, init, last, key);
      }
    }
  }

  lemma NamesMore(fs: FileSystem, init: seq<Url>, last: Url, key: (bool, string))
    ensures Names(fs, init + [last], key) <==>
            Names(fs, init, key) || (NamesPlace(fs, last) && PlaceOf(fs, last) == key)
  {
    if u :| u in init && NamesPlace(fs, u) && PlaceOf(fs, u) == key { assert u in init + [last]; }
    if NamesPlace(fs, last) && PlaceOf(fs, last) == key { assert last in init + [last]; }
  }

  /** After a call of addUrls exactly the places are bookmarked that were so before or are named in the list by home or
      a directory, and after setUrls exactly those that are named. */
  lemma CallPlaces(b: Bar, list: seq<Url>, at: int, key: (bool, string))
    requires Sane(b.fs) && DistinctPlaces(b)
    ensures key in Keys(KeyIn(b.fs), Step(b, MoveCall(list, at)).rows) <==>
            key in Keys(KeyIn(b.fs), b.rows) || Names(b.fs, list, key)
    ensures key in Keys(KeyIn(b.fs), Step(b, SetCall(list)).rows) <==> Names(b.fs, list, key)
  {
    var us := Accepted(b.fs, list);
    AcceptedPlaces(b.fs, list);
    MoveKeeps(KeyIn(b.fs), Place(b.rows, StartRow(b.rows, at)), us, Keys(KeyIn(b.fs), us));
    MoveKeeps(KeyIn(b.fs), Place([], 0), us, Keys(KeyIn(b.fs), us));
  }

  /** News of the server change what is known of the file system and no bookmark. */
  lemma NewsKeepRows(b: Bar, isDir: string -> bool, windows: bool, home: string)
    ensures var t := Step(b, Listed(isDir));
            t.rows == b.rows && t.fs.isDir == isDir && t.fs.home == b.fs.home && t.fs.windows == b.fs.windows
    ensures var t := Step(b, SystemInfo(windows, home));
            t.rows == b.rows && t.fs.isDir == b.fs.isDir && t.fs.home == home && t.fs.windows == windows
  {}

  /** A removal takes one bookmark out. */
  lemma RemovalPlaces(b: Bar, row: nat, key: (bool, string))
    requires DistinctPlaces(b) && row < |b.rows|
    ensures key in Keys(KeyIn(b.fs), Step(b, RemoveCall(row)).rows) <==>
            key in Keys(KeyIn(b.fs), b.rows) && key != KeyOf(b.fs, b.rows[row])
  {
    var f, u := KeyIn(b.fs), b.rows[row];
    var before, behind := b.rows[..row], b.rows[row + 1..];
    assert b.rows == before + [u] + behind;
    KeyOfOne(f, u);
    DistinctConcat(f, before + [u], behind);
    DistinctConcat(f, before, [u]);
    KeysConcat(f, before + [u], behind);
    KeysConcat(f, before, [u]);
    KeysConcat(f, before, behind);
  }

  /** New places come in at the row they are dropped on, in the order of the list: at the end for -1 and for rows that
      do not exist, in front for other negative rows. */
  lemma NewPlacesAt(b: Bar, list: seq<Url>, at: int)
    requires DistinctPlaces(b) && DistinctKeys(KeyIn(b.fs), Accepted(b.fs, list))
    requires Keys(KeyIn(b.fs), Accepted(b.fs, list)) !! Keys(KeyIn(b.fs), b.rows)
    ensures var n := if at == -1 || at > |b.rows| then |b.rows| else if at < 0 then 0 else at;
            Step(b, MoveCall(list, at)).rows == b.rows[..n] + Accepted(b.fs, list) + b.rows[n..]
  {
    var n := if at == -1 || at > |b.rows| then |b.rows| else if at < 0 then 0 else at;
    var key, us := KeyIn(b.fs), Accepted(b.fs, list);
    if at < -1 { AddAllNegative(key, b.rows, at, us, true); }
    NewAt(key, b.rows, n, us);
  }

  lemma NewAt<U, K>(key: U -> K, rows: seq<U>, n: nat, us: seq<U>)
    requires DistinctKeys(key, rows) && DistinctKeys(key, us) && Keys(key, us) !! Keys(key, rows) && n <= |rows|
    ensures AddAll(key, Place(rows, n), us, true).rows == rows[..n] + us + rows[n..]
  {
    NotBack(key, rows, n, us);
    MovedAt(key, rows, n, us);
    NoneListed(key, rows, n, Keys(key, us));
    FirstOfEachSame(key, us);
    Associate(rows[..n], us, rows[n..]);
  }

  lemma Associate<U>(a: seq<U>, b: seq<U>, c: seq<U>)
    ensures a + (b + c) == a + b + c
  {}

  lemma MovedAt<U, K>(key: U -> K, rows: seq<U>, n: nat, us: seq<U>)
    requires DistinctKeys(key, rows) && n <= |rows| && NoTwins(key, us) && Split(key, rows, n, us) == n
    ensures AddAll(key, Place(rows, n), us, true).rows ==
            Others(key, rows[..n], Keys(key, us)) +
            (FirstOfEach(key, us) + Others(key, rows[n..], Keys(key, us)))
  {
    MoveNoTwins(key, rows, n, us);
  }

  lemma NoneListed<U, K>(key: U -> K, rows: seq<U>, n: nat, ks: set<K>)
    requires Keys(key, rows) !! ks && n <= |rows|
    ensures Others(key, rows[..n], ks) == rows[..n] && Others(key, rows[n..], ks) == rows[n..]
  {
    PartKeys(key, rows, n);
    OthersNoKey(key, rows[..n], ks);
    OthersNoKey(key, rows[n..], ks);
  }

  lemma NotBack<U, K>(key: U -> K, rows: seq<U>, n: nat, us: seq<U>)
    requires DistinctKeys(key, us) && Keys(key, us) !! Keys(key, rows)
    ensures Split(key, rows, n, us) == n && NoTwins(key, us)
  {
    if n < |rows| && us != [] { KeysApart(key, us, |us| - 1, rows, n); }
  }

  lemma KeysApart<U, K>(key: U -> K, s: seq<U>, i: nat, t: seq<U>, j: nat)
    requires Keys(key, s) !! Keys(key, t) && i < |s| && j < |t|
    ensures key(s[i]) != key(t[j])
  {
    assert key(s[i]) in Keys(key, s) && key(t[j]) in Keys(key, t);
  }

  lemma {:induction false} QuietRun(b: Bar, calls: seq<Call>)
    requires forall c :: c in calls ==> !c.SystemInfo?
    ensures Allowed((b, c) => !MakesTwins(b, c), (b, c) => Step(b, c), b, calls)
    decreases |calls|
  {
    if calls == [] {
    } else {
      assert calls[0] in calls && forall c :: c in calls[1..] ==> c in calls;
      QuietRun(Step(b, calls[0]), calls[1..]);
    }
  }

  /** In every run of setUrls, addUrls, removals and news of the server, whatever the lists hold, no place is bookmarked
      twice at any moment if and only if the server never tells that two of the bookmarks there are for the same place.
      So no place is bookmarked twice as long as home is known from the beginning. */
  lemma RunDistinct(fs: FileSystem, calls: seq<Call>)
    ensures Throughout(b => DistinctPlaces(b), (b, c) => Step(b, c), Bar(fs, []), calls) <==>
            Allowed((b, c) => !MakesTwins(b, c), (b, c) => Step(b, c), Bar(fs, []), calls)
    ensures (forall c :: c in calls ==> !c.SystemInfo?) ==>
              DistinctPlaces(Run((b, c) => Step(b, c), Bar(fs, []), calls))
  {
    var step := (b: Bar, c: Call) => Step(b, c);
    var good := (b: Bar, c: Call) => !MakesTwins(b, c);
    var any := (b: Bar, c: Call) => true;
    TwinsDecide(any);
    AllAllowed(any, step, Bar(fs, []), calls);
    ThroughoutIff((b: Bar) => DistinctPlaces(b), (b: Bar) => DistinctPlaces(b) && Bookmarks(b.rows), any, good, step,
                  Bar(fs, []), calls);
    if forall c :: c in calls ==> !c.SystemInfo? { QuietRun(Bar(fs, []), calls); }
  }

  lemma TwinsDecide(any: (Bar, Call) -> bool)
    ensures Decides(b => DistinctPlaces(b), b => DistinctPlaces(b) && Bookmarks(b.rows), any,
                    (b, c) => !MakesTwins(b, c), (b, c) => Step(b, c))
  {
    forall b: Bar, c: Call | DistinctPlaces(b) && Bookmarks(b.rows)
      ensures DistinctPlaces(Step(b, c)) <==> !MakesTwins(b, c)
      ensures Bookmarks(Step(b, c).rows)
    {
      StepDistinctIff(b, c);
    }
  }

  /** Home and a directory are bookmarked before the server tells that this directory is home. */
  lemma TwinBookmarksExample(fs: FileSystem)
    requires fs.home == "" && fs.isDir("/h") && fs.clean("/h") == "/h"
    ensures var calls := [SetCall([HOME_URL, Url(File, "/h")]), SystemInfo(fs.windows, "/h")];
            !DistinctPlaces(Run((b, c) => Step(b, c), Bar(fs, []), calls))
  {
    var set1, info := SetCall([HOME_URL, Url(File, "/h")]), SystemInfo(fs.windows, "/h");
    SetTwo(fs);
    TwoSteps((b, c) => Step(b, c), Bar(fs, []), set1, info);
    BothHome(fs.(home := "/h"));
  }

  lemma TwoAccepted(fs: FileSystem, u: Url, v: Url)
    requires Taken(fs, u) && Taken(fs, v) && Stored(fs, u) == u && Stored(fs, v) == v
    ensures Accepted(fs, [u, v]) == [u, v]
  {
    assert [u, v][..1] == [u] && [u][..0] == [];
    assert Accepted(fs, [u]) == [u];
  }

  lemma TwoSet<U, K>(key: U -> K, u: U, v: U)
    requires key(u) != key(v)
    ensures AddAll(key, Place([], 0), [u, v], true).rows == [u, v]
  {
    SetResult(key, [u, v]);
    FirstOfEachSame(key, [u, v]);
  }

  lemma SetTwo(fs: FileSystem)
    requires fs.home == "" && fs.isDir("/h") && fs.clean("/h") == "/h"
    ensures Step(Bar(fs, []), SetCall([HOME_URL, Url(File, "/h")])) == Bar(fs, [HOME_URL, Url(File, "/h")])
  {
    TwoAccepted(fs, HOME_URL, Url(File, "/h"));
    TwoSet(KeyIn(fs), HOME_URL, Url(File, "/h"));
  }

  lemma BothHome(fs: FileSystem)
    requires fs.home == "/h"
    ensures !DistinctPlaces(Bar(fs, [HOME_URL, Url(File, "/h")]))
  {
    var rows := [HOME_URL, Url(File, "/h")];
    assert KeyIn(fs)(rows[0]) == KeyIn(fs)(rows[1]);
  }

  // ----- the model

  class RemoteUrlModel {
    var fs: FileSystem
    var rows: seq<Url>

    /** The rows are bookmarks with a scheme. */
    ghost predicate Valid()
      reads this
    {
      Sane(fs) && forall i :: 0 <= i < |rows| ==> rows[i].Url?
    }

    constructor (fs: FileSystem)
      requires Sane(fs)
      ensures Valid() && this.fs == fs && rows == []
    {
      this.fs := fs;
      rows := [];
    }

    method SetUrls(list: seq<Url>)
      requires Valid()
      modifies this`rows
      ensures Valid() && rows == FirstOfEach(KeyIn(fs), Accepted(fs, list))
    {
      rows := [];
      SetResult(KeyIn(fs), Accepted(fs, list));
      AddUrls(list, 0, true);
    }

    method AddUrls(list: seq<Url>, at: int, move: bool)
      requires Valid()
      modifies this`rows
      ensures Valid()
      ensures var row := StartRow(old(rows), at);
              rows == AddAll(KeyIn(fs), Place(old(rows), row), Accepted(fs, list), move).rows
      ensures move ==> Bar(fs, rows) == Step(Bar(fs, old(rows)), MoveCall(list, at))
    {
      var row := at;
      if row == -1 {
        row := |rows|;
      }
      row := if row < |rows| then row else |rows|;
      ghost var end := AddAll(KeyIn(fs), Place(rows, row), Accepted(fs, list), move);
      assert list[..|list|] == list;
      for i := |list| downto 0
        invariant Valid() && row <= |rows|
        invariant AddAll(KeyIn(fs), Place(rows, row), Accepted(fs, list[..i]), move) == end
      {
        Round(fs, Place(rows, row), list, i, move);
        row := AddOneUrl(list[i], row, move);
      }
    }

    /** One round of the loop; urls that are not taken are skipped. */
    method AddOneUrl(url: Url, at: int, move: bool) returns (row: int)
      requires Valid() && at <= |rows|
      modifies this`rows
      ensures Valid() && row <= |rows|
      ensures Place(rows, row) == if Taken(fs, url) then AddOne(KeyIn(fs), Place(old(rows), at), Stored(fs, url), move)
                                  else Place(old(rows), at)
    {
      row := at;
      if Taken(fs, url) {
        var j := |rows|;
        if move {
          j := FirstSame(Stored(fs, url), CleanOf(fs, url), url);
        }
        row := AddUrl(Stored(fs, url), at, j);
      }
    }

    /** The end of one round: the row that was found goes, and the bookmark comes in. */
    method AddUrl(url: Url, at: int, found: nat) returns (row: int)
      requires Valid() && at <= |rows| && url.Url?
      modifies this`rows
      ensures Valid() && row <= |rows|
      ensures Place(rows, row) == AddFound(Place(old(rows), at), url, found)
    {
      row := at;
      if found < |rows| {
        rows := rows[..found] + rows[found + 1..];
        if found <= row {
          row := row - 1;
        }
      }
      row := if row > 0 then row else 0;
      rows := rows[..row] + [url] + rows[row..];
    }

    /** The inner loop: the first row for the same place, or the number of rows. */
    method FirstSame(url: Url, cleanUrl: string, ghost listed: Url) returns (j: nat)
      requires Valid() && Taken(fs, listed) && url == Stored(fs, listed) && cleanUrl == CleanOf(fs, listed)
      ensures j == Find(KeyIn(fs), rows, url)
    {
      j := 0;
      while j < |rows|
        invariant j <= |rows|
        invariant forall i :: 0 <= i < j ==> KeyOf(fs, rows[i]) != KeyOf(fs, url)
      {
        SameIsSameKey(fs, rows[j], listed);
        if Same(fs, rows[j], url, cleanUrl) {
          break;
        }
        j := j + 1;
      }
      FindIs(KeyIn(fs), rows, url, j);
    }

    /** The server has told its home directory; updateHomePath sets every home bookmark to itself. */
    method Initialized(windows: bool, home: string)
      requires Valid()
      modifies this
      ensures Valid() && Bar(fs, rows) == Step(Bar(old(fs), old(rows)), SystemInfo(windows, home))
    {
      fs := fs.(windows := windows, home := home);
      for j := 0 to |rows|
        invariant rows == old(rows) && fs == old(fs).(windows := windows, home := home)
      {
        var url := rows[j];
        if url.scheme == Home {
          rows := rows[j := url];
        }
      }
    }
  }
}
