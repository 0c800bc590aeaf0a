/** The remote file gatherer: requests and replies are tracked by two tables of outstanding queries.
    First the handlers as functions on the gatherer's tables, then the system of gatherer and network, where the
    queries in flight are answered in any order, then the handlers with their loops. */
module LookupProtocol {
  import opened Runs

  type Path = string
  type Name = string

  datatype Query = ReadDirectory(path: Path) | LookUpFiles(path: Path, names: seq<Name>)

  datatype Signal = NewListOfFiles(path: Path, files: seq<Name>) | Updates(path: Path, files: seq<Name>)
                  | DirectoryLoaded(path: Path)

  /** The outstanding-query tables m_dirs and m_files, the queries sent so far and the signals emitted so far. */
  datatype Gatherer = Gatherer(dirs: set<Path>, files: map<Path, set<Name>>, sent: seq<Query>, signals: seq<Signal>)

  const BATCH := 100

  // ----- the handlers

  /** A file name as it is asked for: without leading slashes, but never empty. */
  function Normal(f: Name): (n: Name)
    ensures n != []
  {
    if |f| > 1 && f[0] == '/' then Normal(f[1..]) else if f == "" then "/" else f
  }

  /** Only slashes are taken off the front of a name, as many as there are in front of its last letter; an empty name
      becomes a slash. */
  lemma {:induction false} NormalIs(f: Name)
    ensures var n := Normal(f);
            && (f == "" ==> n == "/")
            && (f != "" ==> n != "" && |n| <= |f| && n == f[|f| - |n|..] && (|n| > 1 ==> n[0] != '/'))
            && (forall i :: 0 <= i < |f| - |n| ==> f[i] == '/')
  {
    if |f| > 1 && f[0] == '/' { NormalIs(f[1..]); }
  }

  /** The names of fs that are not known yet, each once, in order of first appearance. */
  function Fresh(fs: seq<Name>, known: set<Name>): seq<Name> {
    if fs == [] then [] else
      var k := |fs| - 1;
      var r := Fresh(fs[..k], known);
      var n := Normal(fs[k]);
      if n in known || n in r then r else r + [n]
  }

  lemma {:induction false} FreshIs(fs: seq<Name>, known: set<Name>)
    ensures var r := Fresh(fs, known);
            && (forall n :: n in r ==> n !in known)
            && (forall i, j :: 0 <= i < j < |r| ==> r[i] != r[j])
            && (forall f :: f in fs ==> Normal(f) in known || Normal(f) in r)
            && |r| <= |fs|
  {
    if fs == [] {
    } else {
      var k := |fs| - 1;
      FreshIs(fs[..k], known);
      assert forall f :: f in fs ==> f in fs[..k] || f == fs[k];
    }
  }

  lemma FreshMore(fs: seq<Name>, i: nat, known: set<Name>)
    requires i < |fs|
    ensures var r, n := Fresh(fs[..i], known), Normal(fs[i]);
            Fresh(fs[..i + 1], known) == if n in known || n in r then r else r + [n]
  {
    assert fs[..i + 1][..i] == fs[..i];
  }

  function Outstanding(g: Gatherer, p: Path): set<Name> {
    if p in g.files then g.files[p] else {}
  }

  function NameSet(s: seq<Name>): set<Name> {
    set n | n in s
  }

  ghost predicate SameElsewhere(m: map<Path, set<Name>>, m': map<Path, set<Name>>, p: Path) {
    forall q :: q != p ==> (q in m <==> q in m') && (q in m ==> m'[q] == m[q])
  }

  lemma NamesMore(known: set<Name>, s: seq<Name>, n: Name)
    ensures n in known + NameSet(s) <==> n in known || n in s
    ensures known + NameSet(s) + {n} == known + NameSet(if n in known || n in s then s else s + [n])
  {}

  function FetchDirectory(g: Gatherer, p: Path): Gatherer {
    if p in g.dirs then g else g.(dirs := g.dirs + {p}, sent := g.sent + [ReadDirectory(p)])
  }

  function FetchFiles(g: Gatherer, p: Path, files: seq<Name>): Gatherer {
    var asked := Fresh(files, Outstanding(g, p));
    g.(files := g.files[p := Outstanding(g, p) + NameSet(asked)],
       sent := if asked == [] then g.sent else g.sent + [LookUpFiles(p, asked)])
  }

  /** fetchExtendedInformation */
  function Fetch(g: Gatherer, clean: Path -> Path, path: Path, files: seq<Name>): Gatherer {
    if files == [] then FetchDirectory(g, clean(path)) else FetchFiles(g, clean(path), files)
  }

  /** A list handed on in batches of BATCH, the last one shorter; an empty list in no batch. */
  function InBatches<G>(step: (G, seq<Name>) -> G, g: G, files: seq<Name>): G
    decreases |files|
  {
    if files == [] then g else
      var n := if |files| < BATCH then |files| else BATCH;
      InBatches(step, step(g, files[..n]), files[n..])
  }

  /** Asking for one batch. */
  function Asking(clean: Path -> Path, path: Path): (Gatherer, seq<Name>) -> Gatherer {
    (g: Gatherer, batch: seq<Name>) => Fetch(g, clean, path, batch)
  }

  function FetchBatches(g: Gatherer, clean: Path -> Path, path: Path, files: seq<Name>): Gatherer {
    InBatches(Asking(clean, path), g, files)
  }

  /** The reply to a ReadDirectory query. */
  function DirectoryRead(g: Gatherer, clean: Path -> Path, path: Path, files: seq<Name>): Gatherer {
    var g1 := FetchBatches(g, clean, path, files);
    var g2 := if files == [] then g1 else g1.(signals := g1.signals + [NewListOfFiles(path, files)]);
    if path !in g2.dirs then g2 else
      g2.(dirs := g2.dirs - {path}, signals := if files == [] then g2.signals + [DirectoryLoaded(path)] else g2.signals)
  }

  /** The reply to a LookUpFiles query, with status Ok. */
  function FilesLookedUp(g: Gatherer, path: Path, names: seq<Name>): Gatherer {
    var rest := Outstanding(g, path) - NameSet(names);
    var signals := g.signals + [Updates(path, names)];
    if rest == {} then g.(files := g.files - {path}, signals := signals + [DirectoryLoaded(path)])
    else g.(files := g.files[path := rest], signals := signals)
  }

  // ----- what is asked for and what is answered

  /** A request for a directory, without names: it is outstanding, and one query is sent unless it was so before. */
  lemma DirectoryAsked(g: Gatherer, clean: Path -> Path, path: Path)
    ensures var p := clean(path);
            Fetch(g, clean, path, []) ==
            g.(dirs := g.dirs + {p}, sent := if p in g.dirs then g.sent else g.sent + [ReadDirectory(p)])
  {
    if clean(path) in g.dirs { assert g.dirs + {clean(path)} == g.dirs; }
  }

  /** Some of the new queries is for n. */
  ghost predicate NewlyAsked(g: Gatherer, g': Gatherer, n: Name) {
    exists i :: |g.sent| <= i < |g'.sent| && g'.sent[i].LookUpFiles? && n in g'.sent[i].names
  }

  ghost predicate Listed(files: seq<Name>, n: Name) {
    exists f :: f in files && Normal(f) == n
  }

  /** From g to g' the files of p are asked for: all of them are outstanding, and those that were not so before are
      the names of the new lookups, each in one of them. */
  ghost predicate AsksFor(g: Gatherer, g': Gatherer, p: Path, files: seq<Name>) {
    && g'.dirs == g.dirs && g'.signals == g.signals && SameElsewhere(g.files, g'.files, p) && g.sent <= g'.sent
    && (forall n :: n in Outstanding(g', p) <==> n in Outstanding(g, p) || Listed(files, n))
    && (forall i :: |g.sent| <= i < |g'.sent| ==> g'.sent[i].LookUpFiles? && g'.sent[i].path == p)
    && (forall n :: NewlyAsked(g, g', n) <==> n in Outstanding(g', p) && n !in Outstanding(g, p))
    && (forall i, j, n :: |g.sent| <= i < j < |g'.sent| && n in g'.sent[i].names ==> n !in g'.sent[j].names)
  }

  lemma FreshAre(fs: seq<Name>, known: set<Name>, n: Name)
    ensures n in Fresh(fs, known) <==> n !in known && Listed(fs, n)
  {
    FreshIs(fs, known);
    if n in Fresh(fs, known) { FreshOnly(fs, known, n); }
  }

  lemma {:induction false} FreshOnly(fs: seq<Name>, known: set<Name>, n: Name)
    requires n in Fresh(fs, known)
    ensures Listed(fs, n)
  {
    if fs == [] {
    } else {
      var k := |fs| - 1;
      if n == Normal(fs[k]) { assert fs[k] in fs; } else {
        FreshOnly(fs[..k], known, n);
        var f :| f in fs[..k] && Normal(f) == n;
        assert f in fs;
      }
    }
  }

  /** A request for files: the names that are not outstanding yet go into one lookup, each once, and if there are none
      nothing is sent. */
  lemma FilesAsked(g: Gatherer, clean: Path -> Path, path: Path, files: seq<Name>)
    requires files != []
    ensures var g' := Fetch(g, clean, path, files);
            && AsksFor(g, g', clean(path), files) && clean(path) in g'.files
            && |g'.sent| <= |g.sent| + 1
            && (|g'.sent| > |g.sent| ==>
                  var names := g'.sent[|g.sent|].names;
                  names != [] && forall i, j :: 0 <= i < j < |names| ==> names[i] != names[j])
  {
    var p := clean(path);
    var g', asked := Fetch(g, clean, path, files), Fresh(files, Outstanding(g, p));
    FreshIs(files, Outstanding(g, p));
    forall n
      ensures n in asked <==> n !in Outstanding(g, p) && Listed(files, n)
    {
      FreshAre(files, Outstanding(g, p), n);
    }
    forall n
      ensures NewlyAsked(g, g', n) <==> n in asked
    {
      if n in asked { assert g'.sent[|g.sent|] == LookUpFiles(p, asked); }
    }
  }

  lemma AsksMore(g: Gatherer, g1: Gatherer, g2: Gatherer, p: Path, files: seq<Name>, more: seq<Name>)
    requires AsksFor(g, g1, p, files) && AsksFor(g1, g2, p, more)
    ensures AsksFor(g, g2, p, files + more)
  {
    forall n
      ensures Listed(files + more, n) <==> Listed(files, n) || Listed(more, n)
      ensures NewlyAsked(g, g2, n) <==> NewlyAsked(g, g1, n) || NewlyAsked(g1, g2, n)
    {
      ListedMore(files, more, n);
      NewlyAskedMore(g, g1, g2, n);
    }
    forall i, j, n | |g.sent| <= i < j < |g2.sent| && n in g2.sent[i].names
      ensures n !in g2.sent[j].names
    {
      if i < |g1.sent| <= j {
        assert g1.sent[i] == g2.sent[i] && NewlyAsked(g, g1, n);
        assert n in g2.sent[j].names ==> NewlyAsked(g1, g2, n);
      }
    }
  }

  lemma ListedMore(files: seq<Name>, more: seq<Name>, n: Name)
    ensures Listed(files + more, n) <==> Listed(files, n) || Listed(more, n)
  {
    if f :| f in files && Normal(f) == n { assert f in files + more; }
    if f :| f in more && Normal(f) == n { assert f in files + more; }
  }

  lemma NewlyAskedMore(g: Gatherer, g1: Gatherer, g2: Gatherer, n: Name)
    requires g.sent <= g1.sent <= g2.sent
    ensures NewlyAsked(g, g2, n) <==> NewlyAsked(g, g1, n) || NewlyAsked(g1, g2, n)
  {
    if i :| |g.sent| <= i < |g2.sent| && g2.sent[i].LookUpFiles? && n in g2.sent[i].names {
      assert i < |g1.sent| ==> g1.sent[i] == g2.sent[i];
    }
    if i :| |g.sent| <= i < |g1.sent| && g1.sent[i].LookUpFiles? && n in g1.sent[i].names {
      assert g1.sent[i] == g2.sent[i];
    }
  }

  /** A listing: every listed name is asked for unless it was so before, in no more lookups than there are hundreds. */
  lemma {:induction false} ListingAsked(g: Gatherer, clean: Path -> Path, path: Path, files: seq<Name>)
    ensures var g' := FetchBatches(g, clean, path, files);
            AsksFor(g, g', clean(path), files) && |g'.sent| - |g.sent| <= (|files| + 99) / 100
    decreases |files|
  {
    if files == [] {
      assert forall n :: !Listed(files, n);
    } else {
      var n := if |files| < BATCH then |files| else BATCH;
      var g1 := Fetch(g, clean, path, files[..n]);
      FilesAsked(g, clean, path, files[..n]);
      ListingAsked(g1, clean, path, files[n..]);
      AsksMore(g, g1, FetchBatches(g1, clean, path, files[n..]), clean(path), files[..n], files[n..]);
      assert files == files[..n] + files[n..];
    }
  }

  /** The reply to a ReadDirectory query: the listed names are asked for, and the listing is passed on; an empty one is
      reported as loaded if it was waited for. */
  lemma ReadReply(g: Gatherer, clean: Path -> Path, path: Path, files: seq<Name>)
    ensures var g' := DirectoryRead(g, clean, path, files);
            && AsksFor(g, g'.(dirs := g.dirs, signals := g.signals), clean(path), files)
            && g'.dirs == g.dirs - {path}
            && g'.signals == g.signals + (if files != [] then [NewListOfFiles(path, files)]
                                          else if path in g.dirs then [DirectoryLoaded(path)] else [])
  {
    ListingAsked(g, clean, path, files);
    assert FetchBatches(g, clean, path, files).dirs == g.dirs;
  }

  /** The reply to a LookUpFiles query: its names are not outstanding any more, they are passed on, and the path is
      reported as loaded if nothing is left. */
  lemma LookUpReply(g: Gatherer, path: Path, names: seq<Name>)
    ensures var g' := FilesLookedUp(g, path, names);
            && g'.dirs == g.dirs && g'.sent == g.sent && SameElsewhere(g.files, g'.files, path)
            && (forall n :: n in Outstanding(g', path) <==> n in Outstanding(g, path) && n !in names)
            && (path in g'.files <==> exists n :: n in Outstanding(g, path) && n !in names)
            && g'.signals == g.signals + [Updates(path, names)] +
               (if path in g'.files then [] else [DirectoryLoaded(path)])
  {
    var rest := Outstanding(g, path) - NameSet(names);
    assert forall n :: n in rest <==> n in Outstanding(g, path) && n !in names;
  }

  // ----- the system

  /** The gatherer and the network. Query i of g.sent is in flight until it is answered; `done` are the queries that
      were answered and taken off the tables, `lost` the lookups that were answered with another status than Ok.
      `owed` are the paths whose directory listing has come since their last directoryLoaded. */
  datatype System = System(g: Gatherer, done: set<nat>, lost: set<nat>, owed: set<Path>)

  datatype Event =
    | Request(path: Path, files: seq<Name>)
    | AnswerRead(i: nat, files: seq<Name>)
    | AnswerLookUp(i: nat)
    | FailLookUp(i: nat)

  ghost predicate InFlight(s: System, i: nat) {
    i < |s.g.sent| && i !in s.done && i !in s.lost
  }

  /** The server answers a query that is in flight, once, about the path and the names it was asked for. */
  ghost predicate Possible(s: System, e: Event) {
    match e
    case Request(_, _) => true
    case AnswerRead(i, _) => InFlight(s, i) && s.g.sent[i].ReadDirectory?
    case AnswerLookUp(i) => InFlight(s, i) && s.g.sent[i].LookUpFiles?
    case FailLookUp(i) => InFlight(s, i) && s.g.sent[i].LookUpFiles?
  }

  /** The paths owed a directoryLoaded, after the signals in `more`. */
  ghost function StillOwed(owed: set<Path>, more: seq<Signal>): set<Path> {
    set p | p in owed && DirectoryLoaded(p) !in more
  }

  ghost function Step(clean: Path -> Path, s: System, e: Event): System {
    if !Possible(s, e) then s else
      match e
      case Request(path, files) => s.(g := Fetch(s.g, clean, path, files))
      case AnswerRead(i, files) =>
        var p := s.g.sent[i].path;
        var g := DirectoryRead(s.g, clean, p, files);
        System(g, s.done + {i}, s.lost, StillOwed(s.owed + {p}, NewSignals(s.g, g)))
      case AnswerLookUp(i) =>
        var g := FilesLookedUp(s.g, s.g.sent[i].path, s.g.sent[i].names);
        System(g, s.done + {i}, s.lost, StillOwed(s.owed, NewSignals(s.g, g)))
      case FailLookUp(i) => s.(lost := s.lost + {i})
  }

  ghost function NewSignals(g: Gatherer, g': Gatherer): seq<Signal> {
    if |g.signals| <= |g'.signals| then g'.signals[|g.signals|..] else []
  }

  // ----- the invariant

  /** Query i is still on the tables. */
  ghost predicate OnTable(s: System, i: nat) {
    i < |s.g.sent| && i !in s.done
  }

  ghost predicate Reads(s: System, i: nat, p: Path) {
    OnTable(s, i) && s.g.sent[i] == ReadDirectory(p)
  }

  ghost predicate LooksUp(s: System, i: nat, p: Path) {
    OnTable(s, i) && s.g.sent[i].LookUpFiles? && s.g.sent[i].path == p
  }

  /** Query i is a lookup of n in p. */
  ghost predicate Asks(s: System, i: nat, p: Path, n: Name) {
    LooksUp(s, i, p) && n in s.g.sent[i].names
  }

  /** m_dirs holds exactly the paths with an unanswered ReadDirectory, of which there is one each. */
  ghost predicate DirsTable(s: System) {
    && (forall p :: p in s.g.dirs ==> exists i :: Reads(s, i, p))
    && (forall i, p :: Reads(s, i, p) ==> p in s.g.dirs)
    && (forall i, j, p :: Reads(s, i, p) && Reads(s, j, p) ==> i == j)
  }

  /** m_files[p] is the disjoint union of the names in the lookups for p on the table, and never empty. */
  ghost predicate FilesTable(s: System) {
    && (forall p, n :: p in s.g.files && n in s.g.files[p] ==> exists i :: Asks(s, i, p, n))
    && (forall i, p, n :: Asks(s, i, p, n) ==> p in s.g.files && n in s.g.files[p])
    && (forall i, j, p, n :: Asks(s, i, p, n) && Asks(s, j, p, n) ==> i == j)
    && (forall p :: p in s.g.files ==> s.g.files[p] != {})
  }

  ghost predicate Sane(clean: Path -> Path, s: System) {
    && (forall i :: 0 <= i < |s.g.sent| ==> clean(s.g.sent[i].path) == s.g.sent[i].path)
    && (forall i :: 0 <= i < |s.g.sent| && s.g.sent[i].LookUpFiles? ==> s.g.sent[i].names != [])
    && (forall i :: i in s.lost ==> OnTable(s, i) && s.g.sent[i].LookUpFiles?)
    && (forall p :: p in s.owed ==> p in s.g.files)
    && (forall i :: i in s.done ==> i < |s.g.sent|)
  }

  ghost predicate Idempotent(clean: Path -> Path) {
    forall p :: clean(clean(p)) == clean(p)
  }

  ghost predicate Inv(clean: Path -> Path, s: System) {
    DirsTable(s) && FilesTable(s) && Sane(clean, s)
  }

  const START := System(Gatherer({}, map[], [], []), {}, {}, {})

  lemma InitInv(clean: Path -> Path)
    ensures Inv(clean, START)
  {}

  // ----- requests

  /** A query added at the end stays apart from the ones on the table. */
  lemma FetchDirectoryInv(clean: Path -> Path, s: System, p: Path)
    requires Inv(clean, s) && clean(p) == p
    ensures Inv(clean, s.(g := FetchDirectory(s.g, p)))
  {
    var s' := s.(g := FetchDirectory(s.g, p));
    if s' != s {
      var k := |s.g.sent|;
      assert k !in s.done;
      assert forall i, q :: Reads(s', i, q) <==> Reads(s, i, q) || (i == k && q == p);
      assert forall i, q, n :: Asks(s', i, q, n) <==> Asks(s, i, q, n);
      assert Reads(s', k, p);
      assert DirsTable(s');
      assert FilesTable(s');
    }
  }

  lemma FetchFilesTable(s: System, p: Path, files: seq<Name>)
    requires FilesTable(s) && files != [] && |s.g.sent| !in s.done
    ensures FilesTable(s.(g := FetchFiles(s.g, p, files)))
  {
    FetchFilesAsks(s, p, files);
    FetchFilesOwned(s, p, files);
    FreshIs(files, Outstanding(s.g, p));
    assert files[0] in files;
  }

  /** What is asked after a request: what was asked before, and the new names by the new query. */
  lemma FetchFilesAsks(s: System, p: Path, files: seq<Name>)
    requires |s.g.sent| !in s.done
    ensures var asked := Fresh(files, Outstanding(s.g, p));
            forall i, q, n :: Asks(s.(g := FetchFiles(s.g, p, files)), i, q, n) <==>
              Asks(s, i, q, n) || (i == |s.g.sent| && q == p && n in asked)
  {}

  lemma FetchFilesOwned(s: System, p: Path, files: seq<Name>)
    requires FilesTable(s) && |s.g.sent| !in s.done
    ensures var s' := s.(g := FetchFiles(s.g, p, files));
            forall q, n :: q in s'.g.files && n in s'.g.files[q] ==> exists i :: Asks(s', i, q, n)
  {
    var asked := Fresh(files, Outstanding(s.g, p));
    var s' := s.(g := FetchFiles(s.g, p, files));
    FetchFilesAsks(s, p, files);
    forall q, n | q in s'.g.files && n in s'.g.files[q]
      ensures exists i :: Asks(s', i, q, n)
    {
      if q == p && n in asked {
        assert Asks(s', |s.g.sent|, q, n);
      } else {
        assert q in s.g.files && n in s.g.files[q];
        var i :| Asks(s, i, q, n);
        assert Asks(s', i, q, n);
      }
    }
  }

  lemma FetchFilesDirs(s: System, p: Path, files: seq<Name>)
    requires DirsTable(s)
    ensures DirsTable(s.(g := FetchFiles(s.g, p, files)))
  {
    var s' := s.(g := FetchFiles(s.g, p, files));
    assert forall i, q :: Reads(s', i, q) <==> Reads(s, i, q);
  }

  lemma FetchFilesSane(clean: Path -> Path, s: System, p: Path, files: seq<Name>)
    requires Sane(clean, s) && clean(p) == p
    ensures Sane(clean, s.(g := FetchFiles(s.g, p, files)))
    ensures |s.g.sent| !in s.done
  {}

  lemma FetchFilesInv(clean: Path -> Path, s: System, p: Path, files: seq<Name>)
    requires Inv(clean, s) && clean(p) == p && files != []
    ensures var s' := s.(g := FetchFiles(s.g, p, files));
            Inv(clean, s') && p in s'.g.files
  {
    FetchFilesSane(clean, s, p, files);
    FetchFilesTable(s, p, files);
    FetchFilesDirs(s, p, files);
  }

  lemma FetchInv(clean: Path -> Path, s: System, path: Path, files: seq<Name>)
    requires Inv(clean, s) && Idempotent(clean)
    ensures Inv(clean, s.(g := Fetch(s.g, clean, path, files)))
  {
    if files == [] {
      FetchDirectoryInv(clean, s, clean(path));
    } else {
      FetchFilesInv(clean, s, clean(path), files);
    }
  }

  ghost predicate Adds(g: Gatherer, g': Gatherer) {
    && g'.dirs == g.dirs && g'.signals == g.signals && g.files.Keys <= g'.files.Keys
    && g.sent <= g'.sent
    && (forall i :: |g.sent| <= i < |g'.sent| ==> g'.sent[i].LookUpFiles? && 0 < |g'.sent[i].names| <= 100)
  }

  /** What a listing adds: lookups of at most 100 names, and nothing else. */
  lemma {:induction false} BatchesAdd(g: Gatherer, clean: Path -> Path, p: Path, files: seq<Name>)
    ensures Adds(g, FetchBatches(g, clean, p, files))
    decreases |files|
  {
    if files == [] {
    } else {
      var n := if |files| < BATCH then |files| else BATCH;
      FreshIs(files[..n], Outstanding(g, clean(p)));
      BatchesAdd(Fetch(g, clean, p, files[..n]), clean, p, files[n..]);
    }
  }

  /** What every batch keeps, the whole list keeps. */
  lemma {:induction false} InBatchesKeeps<G(!new)>(inv: G -> bool, step: (G, seq<Name>) -> G, g: G, files: seq<Name>)
    requires inv(g) && forall h: G, batch: seq<Name> :: inv(h) && batch != [] ==> inv(step(h, batch))
    ensures inv(InBatches(step, g, files))
    decreases |files|
  {
    if files == [] {
    } else {
      var n := if |files| < BATCH then |files| else BATCH;
      InBatchesKeeps(inv, step, step(g, files[..n]), files[n..]);
    }
  }

  lemma BatchesInv(clean: Path -> Path, s: System, p: Path, files: seq<Name>)
    requires Inv(clean, s) && clean(p) == p
    ensures Inv(clean, s.(g := FetchBatches(s.g, clean, p, files)))
  {
    var inv := (h: Gatherer) => Inv(clean, s.(g := h));
    var step := Asking(clean, p);
    forall h: Gatherer, batch: seq<Name> | inv(h) && batch != []
      ensures inv(step(h, batch))
    {
      FetchFilesInv(clean, s.(g := h), p, batch);
    }
    assert s.(g := s.g) == s;
    InBatchesKeeps(inv, step, s.g, files);
  }

  /** A listing with names in it leaves outstanding files for its path. */
  lemma BatchesOwe(clean: Path -> Path, s: System, p: Path, files: seq<Name>)
    requires clean(p) == p && files != []
    ensures p in FetchBatches(s.g, clean, p, files).files
  {
    var n := if |files| < BATCH then |files| else BATCH;
    BatchesAdd(FetchFiles(s.g, p, files[..n]), clean, p, files[n..]);
  }

  // ----- replies

  /** Taking query i off the directory table. */
  lemma DirDone(clean: Path -> Path, s: System, i: nat, p: Path, signals: seq<Signal>)
    requires Inv(clean, s) && Reads(s, i, p) && i !in s.lost
    ensures p in s.g.dirs
    ensures Inv(clean, System(s.g.(dirs := s.g.dirs - {p}, signals := signals), s.done + {i}, s.lost, s.owed))
  {
    var s' := System(s.g.(dirs := s.g.dirs - {p}, signals := signals), s.done + {i}, s.lost, s.owed);
    assert forall j, q :: Reads(s', j, q) <==> Reads(s, j, q) && j != i;
    assert forall j, q, n :: Asks(s', j, q, n) <==> Asks(s, j, q, n);
    forall q | q in s'.g.dirs
      ensures exists j :: Reads(s', j, q)
    {
      var j :| Reads(s, j, q);
      assert Reads(s', j, q);
    }
    assert FilesTable(s');
  }

  /** Whoever is owed a directoryLoaded has outstanding files. */
  lemma OweMore(clean: Path -> Path, s: System, owed: set<Path>)
    requires Inv(clean, s) && owed <= s.g.files.Keys
    ensures Inv(clean, s.(owed := owed))
  {
    var s' := s.(owed := owed);
    assert forall i, q :: Reads(s', i, q) <==> Reads(s, i, q);
    assert forall i, q, n :: Asks(s', i, q, n) <==> Asks(s, i, q, n);
  }

  lemma AnswerReadInv(clean: Path -> Path, s: System, i: nat, files: seq<Name>)
    requires Inv(clean, s) && Possible(s, AnswerRead(i, files))
    ensures Inv(clean, Step(clean, s, AnswerRead(i, files)))
  {
    var p := s.g.sent[i].path;
    BatchesInv(clean, s, p, files);
    BatchesAdd(s.g, clean, p, files);
    if files != [] { BatchesOwe(clean, s, p, files); }
    var g1 := FetchBatches(s.g, clean, p, files);
    var s1 := s.(g := g1);
    assert Reads(s1, i, p);
    var g2 := DirectoryRead(s.g, clean, p, files);
    DirDone(clean, s1, i, p, g2.signals);
    var s2 := Step(clean, s, AnswerRead(i, files));
    if files == [] {
      assert NewSignals(s.g, g2) == [DirectoryLoaded(p)];
      assert DirectoryLoaded(p) in NewSignals(s.g, g2);
    }
    OweMore(clean, s2.(owed := s.owed), s2.owed);
  }

  /** The names that are left when lookup i is answered are those of the other lookups for its path. */
  lemma LookUpDone(s: System, i: nat, p: Path, g: Gatherer)
    requires FilesTable(s) && LooksUp(s, i, p) && g == FilesLookedUp(s.g, p, s.g.sent[i].names)
    ensures FilesTable(System(g, s.done + {i}, s.lost, s.owed))
  {
    var s' := System(g, s.done + {i}, s.lost, s.owed);
    assert forall j, q, n :: Asks(s', j, q, n) <==> Asks(s, j, q, n) && j != i;
    forall q, n | q in g.files && n in g.files[q]
      ensures exists j :: Asks(s', j, q, n)
    {
      var j :| Asks(s, j, q, n);
      assert Asks(s', j, q, n);
    }
    forall j, q, n | Asks(s', j, q, n)
      ensures q in g.files && n in g.files[q]
    {
      assert Asks(s, j, q, n);
      assert q == p && n in s.g.sent[i].names ==> Asks(s, i, q, n);
      assert q == p ==> n in Outstanding(s.g, p) - NameSet(s.g.sent[i].names);
    }
  }

  lemma AnswerLookUpInv(clean: Path -> Path, s: System, i: nat)
    requires Inv(clean, s) && Possible(s, AnswerLookUp(i))
    ensures Inv(clean, Step(clean, s, AnswerLookUp(i)))
  {
    var p := s.g.sent[i].path;
    var g := FilesLookedUp(s.g, p, s.g.sent[i].names);
    LookUpDone(s, i, p, g);
    var s' := Step(clean, s, AnswerLookUp(i));
    assert forall j, q :: Reads(s', j, q) <==> Reads(s, j, q);
    assert forall j, q, n :: Asks(s', j, q, n) <==> Asks(System(g, s.done + {i}, s.lost, s.owed), j, q, n);
    LoadedSignal(s.g, p, s.g.sent[i].names);
  }

  lemma LoadedSignal(g: Gatherer, p: Path, names: seq<Name>)
    ensures var g' := FilesLookedUp(g, p, names);
            DirectoryLoaded(p) in NewSignals(g, g') <==> p !in g'.files
  {
    var g' := FilesLookedUp(g, p, names);
    var rest := Outstanding(g, p) - NameSet(names);
    assert NewSignals(g, g') == if rest == {} then [Updates(p, names), DirectoryLoaded(p)] else [Updates(p, names)];
  }

  lemma FailLookUpInv(clean: Path -> Path, s: System, i: nat)
    requires Inv(clean, s) && Possible(s, FailLookUp(i))
    ensures Inv(clean, Step(clean, s, FailLookUp(i)))
  {
    var s' := Step(clean, s, FailLookUp(i));
    assert forall j, q :: Reads(s', j, q) <==> Reads(s, j, q);
    assert forall j, q, n :: Asks(s', j, q, n) <==> Asks(s, j, q, n);
  }

  /** Every step keeps the two tables in line with the queries that are out. */
  lemma StepInv(clean: Path -> Path, s: System, e: Event)
    requires Inv(clean, s) && Idempotent(clean)
    ensures Inv(clean, Step(clean, s, e))
  {
    if Possible(s, e) {
      match e
      case Request(path, files) => FetchInv(clean, s, path, files);
      case AnswerRead(i, files) => AnswerReadInv(clean, s, i, files);
      case AnswerLookUp(i) => AnswerLookUpInv(clean, s, i);
      case FailLookUp(i) => FailLookUpInv(clean, s, i);
    }
  }

  ghost function After(clean: Path -> Path, events: seq<Event>): System {
    Run((s, e) => Step(clean, s, e), START, events)
  }

  /** The tables are right after every interleaving of requests and replies. */
  lemma RunInv(clean: Path -> Path, events: seq<Event>)
    requires Idempotent(clean)
    ensures Inv(clean, After(clean, events))
  {
    InitInv(clean);
    var step := (s: System, e: Event) => Step(clean, s, e);
    forall s: System, e: Event | Inv(clean, s)
      ensures Inv(clean, step(s, e))
    {
      StepInv(clean, s, e);
    }
    AllAllowed((s: System, e: Event) => true, step, START, events);
    RunKeeps(s => Inv(clean, s), (s: System, e: Event) => true, step, START, events);
  }

  /** Every name that is handed in, or listed by the server, is in a lookup on the table afterwards. */
  lemma RequestAsked(clean: Path -> Path, s: System, path: Path, files: seq<Name>, f: Name)
    requires Inv(clean, s) && Idempotent(clean) && f in files
    ensures exists i :: Asks(Step(clean, s, Request(path, files)), i, clean(path), Normal(f))
  {
    FilesAsked(s.g, clean, path, files);
    StepInv(clean, s, Request(path, files));
    assert Listed(files, Normal(f));
  }

  lemma ListingIsAsked(clean: Path -> Path, s: System, i: nat, files: seq<Name>, f: Name)
    requires Inv(clean, s) && Idempotent(clean) && Possible(s, AnswerRead(i, files)) && f in files
    ensures exists j :: Asks(Step(clean, s, AnswerRead(i, files)), j, s.g.sent[i].path, Normal(f))
  {
    ReadReply(s.g, clean, s.g.sent[i].path, files);
    StepInv(clean, s, AnswerRead(i, files));
    assert Listed(files, Normal(f));
    var g := DirectoryRead(s.g, clean, s.g.sent[i].path, files);
    assert Normal(f) in Outstanding(g.(dirs := s.g.dirs, signals := s.g.signals), s.g.sent[i].path);
  }

  /** A directory is owed its report from its listing until it is reported as loaded. */
  lemma OwedIs(clean: Path -> Path, s: System, e: Event, p: Path)
    requires Possible(s, e)
    ensures var s' := Step(clean, s, e);
            p in s'.owed <==>
              && (p in s.owed || (e.AnswerRead? && s.g.sent[e.i].path == p))
              && DirectoryLoaded(p) !in NewSignals(s.g, s'.g)
  {
    match e
    case Request(path, files) =>
      if files == [] { DirectoryAsked(s.g, clean, path); } else { FilesAsked(s.g, clean, path, files); }
    case _ =>
  }

  // ----- completion

  /** The reply to a lookup for p emits directoryLoaded(p) exactly if it was the last lookup for p on the table. */
  lemma LoadedIffLast(clean: Path -> Path, s: System, i: nat)
    requires Inv(clean, s) && Possible(s, AnswerLookUp(i))
    ensures var p := s.g.sent[i].path;
            var s' := Step(clean, s, AnswerLookUp(i));
            DirectoryLoaded(p) in NewSignals(s.g, s'.g) <==> forall j :: LooksUp(s, j, p) ==> j == i
  {
    var p := s.g.sent[i].path;
    var s' := Step(clean, s, AnswerLookUp(i));
    LoadedSignal(s.g, p, s.g.sent[i].names);
    AnswerLookUpInv(clean, s, i);
    if j: nat :| LooksUp(s, j, p) && j != i {
      assert Asks(s', j, p, s.g.sent[j].names[0]);
    }
    if p in s'.g.files {
      var n :| n in s'.g.files[p];
      var j :| Asks(s', j, p, n);
      assert LooksUp(s, j, p);
    }
  }

  /** A lookup that failed blocks its path: no later lookup reply reports the directory as loaded. */
  lemma FailureBlocks(clean: Path -> Path, s: System, f: nat, i: nat)
    requires Inv(clean, s) && f in s.lost && Possible(s, AnswerLookUp(i)) && s.g.sent[i].path == s.g.sent[f].path
    ensures DirectoryLoaded(s.g.sent[f].path) !in NewSignals(s.g, Step(clean, s, AnswerLookUp(i)).g)
  {
    LoadedIffLast(clean, s, i);
    assert LooksUp(s, f, s.g.sent[f].path);
  }

  ghost function PendingReads(s: System): set<nat> {
    set i | 0 <= i < |s.g.sent| && InFlight(s, i) && s.g.sent[i].ReadDirectory?
  }

  ghost function PendingLookUps(s: System): set<nat> {
    set i | 0 <= i < |s.g.sent| && InFlight(s, i) && s.g.sent[i].LookUpFiles?
  }

  lemma ReadLeaves(clean: Path -> Path, s: System, i: nat, files: seq<Name>)
    requires Possible(s, AnswerRead(i, files))
    ensures PendingReads(Step(clean, s, AnswerRead(i, files))) == PendingReads(s) - {i}
  {
    BatchesAdd(s.g, clean, s.g.sent[i].path, files);
    var s' := Step(clean, s, AnswerRead(i, files));
    assert s'.g.sent == FetchBatches(s.g, clean, s.g.sent[i].path, files).sent;
  }

  /** Without new requests the exchange ends: every reply makes (pending listings, pending lookups) smaller. */
  lemma RepliesDecrease(clean: Path -> Path, s: System, e: Event)
    requires Possible(s, e) && !e.Request?
    ensures var s' := Step(clean, s, e);
            || |PendingReads(s')| < |PendingReads(s)|
            || (|PendingReads(s')| == |PendingReads(s)| && |PendingLookUps(s')| < |PendingLookUps(s)|)
  {
    var s' := Step(clean, s, e);
    if e.AnswerRead? {
      ReadLeaves(clean, s, e.i, e.files);
    } else {
      assert s'.g.sent == s.g.sent;
      assert PendingReads(s') == PendingReads(s);
      assert PendingLookUps(s') == PendingLookUps(s) - {e.i};
    }
  }

  /** When nothing is in flight, no directory is outstanding, and files are outstanding exactly where a lookup
      failed; without failures both tables are empty and every listed directory has been reported as loaded. */
  lemma Quiescent(clean: Path -> Path, events: seq<Event>, s: System)
    requires Idempotent(clean) && s == After(clean, events) && forall i :: !InFlight(s, i)
    ensures s.g.dirs == {} && s.g.files.Keys == set i | i in s.lost && i < |s.g.sent| :: s.g.sent[i].path
    ensures s.lost == {} ==> s.g.files == map[] && s.owed == {}
    ensures forall p :: p in s.owed ==> exists i :: i in s.lost && i < |s.g.sent| && s.g.sent[i].path == p
  {
    RunInv(clean, events);
    forall p | p in s.g.dirs
      ensures false
    {
      var i :| Reads(s, i, p);
      assert InFlight(s, i);
    }
    forall p | p in s.g.files
      ensures exists i :: i in s.lost && LooksUp(s, i, p)
    {
      var n :| n in s.g.files[p];
      var i :| Asks(s, i, p, n);
      assert !InFlight(s, i);
    }
    forall i | i in s.lost
      ensures s.g.sent[i].path in s.g.files
    {
      assert Asks(s, i, s.g.sent[i].path, s.g.sent[i].names[0]);
    }
  }

  // ----- the handlers with their loops

  /** On the way through a list: `batch` is collected, `rest` is still to come, `end` will be the outcome. */
  ghost predicate Heading<G>(step: (G, seq<Name>) -> G, g: G, batch: seq<Name>, rest: seq<Name>, end: G) {
    |batch| < BATCH && InBatches(step, g, batch + rest) == end
  }

  lemma Advance<G>(step: (G, seq<Name>) -> G, g: G, batch: seq<Name>, x: Name, rest: seq<Name>, end: G)
    requires Heading(step, g, batch, [x] + rest, end)
    ensures |batch| + 1 < BATCH ==> Heading(step, g, batch + [x], rest, end)
    ensures |batch| + 1 == BATCH ==> Heading(step, step(g, batch + [x]), [], rest, end)
  {
    var all := batch + ([x] + rest);
    assert all == (batch + [x]) + rest;
    assert all[..|batch| + 1] == batch + [x] && all[|batch| + 1..] == rest && [] + rest == rest;
  }

  /** The state of the loop over a list: what was asked for, and the batch that is being filled. */
  datatype Collecting<G> = Collecting(g: G, batch: seq<Name>)

  ghost function Collected<G>(step: (G, seq<Name>) -> G, g: G, files: seq<Name>, i: nat): (c: Collecting<G>)
    requires i <= |files|
    ensures |c.batch| < BATCH
  {
    if i == 0 then Collecting(g, []) else
      var c := Collected(step, g, files, i - 1);
      var batch := c.batch + [files[i - 1]];
      if |batch| >= BATCH then Collecting(step(c.g, batch), []) else Collecting(c.g, batch)
  }

  lemma {:induction false} CollectedHeads<G>(step: (G, seq<Name>) -> G, g: G, files: seq<Name>, i: nat)
    requires i <= |files|
    ensures var c := Collected(step, g, files, i);
            Heading(step, c.g, c.batch, files[i..], InBatches(step, g, files))
  {
    if i == 0 {
      assert [] + files[0..] == files;
    } else {
      CollectedHeads(step, g, files, i - 1);
      var c := Collected(step, g, files, i - 1);
      assert files[i - 1..] == [files[i - 1]] + files[i..];
      Advance(step, c.g, c.batch, files[i - 1], files[i..], InBatches(step, g, files));
    }
  }

  lemma CollectedAll<G>(step: (G, seq<Name>) -> G, g: G, files: seq<Name>)
    ensures var c := Collected(step, g, files, |files|);
            InBatches(step, g, files) == if c.batch == [] then c.g else step(c.g, c.batch)
  {
    var c := Collected(step, g, files, |files|);
    CollectedHeads(step, g, files, |files|);
    Arrive(step, c.g, c.batch, InBatches(step, g, files));
  }

  lemma Arrive<G>(step: (G, seq<Name>) -> G, g: G, batch: seq<Name>, end: G)
    requires Heading(step, g, batch, [], end)
    ensures end == if batch == [] then g else step(g, batch)
  {
    assert batch + [] == batch && batch[..|batch|] == batch && batch[|batch|..] == [];
    assert InBatches(step, step(g, batch), []) == step(g, batch);
  }

  class FileInfoGatherer {
    const clean: Path -> Path
    var m_dirs: set<Path>
    var m_files: map<Path, set<Name>>
    var sent: seq<Query>
    var signals: seq<Signal>

    ghost function Tables(): Gatherer
      reads this
    {
      Gatherer(m_dirs, m_files, sent, signals)
    }

    constructor (clean: Path -> Path)
      ensures this.clean == clean && Tables() == START.g
    {
      this.clean := clean;
      m_dirs, m_files, sent, signals := {}, map[], [], [];
    }

    /** The loops that strip slashes and replace an empty name. */
    method NormalName(file: Name) returns (f: Name)
      ensures f == Normal(file)
      ensures f != "" && (|f| > 1 ==> f[0] != '/')
      ensures file == "" ==> f == "/"
      ensures file != "" ==> |f| <= |file| && f == file[|file| - |f|..]
      ensures forall i :: 0 <= i < |file| - |f| ==> file[i] == '/'
    {
      f := file;
      while |f| > 1 && f[0] == '/'
        invariant Normal(f) == Normal(file) && |f| <= |file| && f == file[|file| - |f|..]
        invariant (f == "" <==> file == "") && forall i :: 0 <= i < |file| - |f| ==> file[i] == '/'
      {
        f := f[1..];
      }
      if f == "" {
        f := f + "/";
      }
    }

    /** The loop over the names. */
    method NoteNames(cleanPath: Path, files: seq<Name>) returns (filelist: seq<Name>)
      requires files != []
      modifies this`m_files
      ensures filelist == Fresh(files, Outstanding(old(Tables()), cleanPath))
      ensures m_files == old(m_files)[cleanPath := Outstanding(old(Tables()), cleanPath) + NameSet(filelist)]
    {
      ghost var known := Outstanding(Tables(), cleanPath);
      filelist := [];
      for i := 0 to |files|
        invariant filelist == Fresh(files[..i], known)
        invariant Outstanding(Tables(), cleanPath) == known + NameSet(filelist)
        invariant SameElsewhere(old(m_files), m_files, cleanPath) && (i > 0 ==> cleanPath in m_files)
      {
        FreshMore(files, i, known);
        NamesMore(known, filelist, Normal(files[i]));
        filelist := NoteName(cleanPath, files[i], filelist);
      }
      assert files[..|files|] == files;
    }

    /** One round of the loop: a name that is not outstanding is entered and goes into the query. */
    method NoteName(cleanPath: Path, file: Name, filelist: seq<Name>) returns (more: seq<Name>)
      modifies this`m_files
      ensures var n := Normal(file);
              var q := if cleanPath in old(m_files) then old(m_files)[cleanPath] else {};
              && m_files == old(m_files)[cleanPath := q + {n}]
              && more == if n in q then filelist else filelist + [n]
    {
      more := filelist;
      var f := NormalName(file);
      var qfiles := if cleanPath in m_files then m_files[cleanPath] else {};
      assert f in qfiles ==> qfiles + {f} == qfiles;
      if f !in qfiles {
        qfiles := qfiles + {f};
        more := more + [f];
      }
      m_files := m_files[cleanPath := qfiles];
    }

    method FetchExtendedInformation(path: Path, files: seq<Name>)
      modifies this
      ensures Tables() == Fetch(old(Tables()), clean, path, files)
    {
      var cleanPath := clean(path);
      if files == [] {
        if cleanPath !in m_dirs {
          m_dirs := m_dirs + {cleanPath};
          sent := sent + [ReadDirectory(cleanPath)];
        }
        return;
      }
      var filelist := NoteNames(cleanPath, files);
      if filelist != [] {
        sent := sent + [LookUpFiles(cleanPath, filelist)];
      }
    }

    /** One round of the loop over the listed files: a full batch is asked for. */
    method CollectName(path: Path, batch: seq<Name>, x: Name) returns (filelist: seq<Name>)
      requires |batch| < BATCH
      modifies this
      ensures |batch| + 1 < BATCH ==> filelist == batch + [x] && Tables() == old(Tables())
      ensures |batch| + 1 == BATCH ==> filelist == [] && Tables() == Fetch(old(Tables()), clean, path, batch + [x])
    {
      filelist := batch + [x];
      if |filelist| >= BATCH {
        FetchExtendedInformation(path, filelist);
        filelist := [];
      }
    }

    /** The loop that asks for the listed files in batches. */
    method FetchListed(path: Path, allFiles: seq<Name>)
      modifies this
      ensures Tables() == FetchBatches(old(Tables()), clean, path, allFiles)
    {
      var filelist := CollectNames(path, allFiles);
      if filelist != [] {
        FetchExtendedInformation(path, filelist);
      }
      CollectedAll(Asking(clean, path), old(Tables()), allFiles);
    }

    /** The loop over the listed files; the names of the last, shorter batch are left. */
    method CollectNames(path: Path, allFiles: seq<Name>) returns (filelist: seq<Name>)
      modifies this
      ensures Collecting(Tables(), filelist) == Collected(Asking(clean, path), old(Tables()), allFiles, |allFiles|)
    {
      filelist := [];
      for i := 0 to |allFiles|
        invariant Collecting(Tables(), filelist) == Collected(Asking(clean, path), old(Tables()), allFiles, i)
        invariant |filelist| < BATCH
      {
        filelist := CollectName(path, filelist, allFiles[i]);
      }
    }

    method HandleReadDirectory(path: Path, allFiles: seq<Name>)
      modifies this
      ensures Tables() == DirectoryRead(old(Tables()), clean, path, allFiles)
    {
      FetchListed(path, allFiles);
      if allFiles != [] {
        signals := signals + [NewListOfFiles(path, allFiles)];
      }
      if path in m_dirs {
        m_dirs := m_dirs - {path};
        if allFiles == [] {
          signals := signals + [DirectoryLoaded(path)];
        }
      }
    }

    method HandleLookUpFiles(path: Path, ok: bool, names: seq<Name>)
      modifies this
      ensures Tables() == if ok then FilesLookedUp(old(Tables()), path, names) else old(Tables())
    {
      if !ok {
        return;
      }
      var qfiles := if path in m_files then m_files[path] else {};
      ghost var all := qfiles;
      for i := 0 to |names|
        invariant qfiles == all - NameSet(names[..i])
      {
        assert NameSet(names[..i + 1]) == NameSet(names[..i]) + {names[i]};
        if names[i] in qfiles {
          qfiles := qfiles - {names[i]};
        }
      }
      assert names[..|names|] == names;
      m_files := m_files[path := qfiles];
      signals := signals + [Updates(path, names)];
      if qfiles == {} {
        signals := signals + [DirectoryLoaded(path)];
        m_files := m_files - {path};
      }
    }
  }
}
