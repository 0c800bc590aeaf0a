/** The local gatherer reads the entries of a directory, or the files it is given, and sends what it found in batches.
    The clock and the moment of an abort are parameters. */
module UpdateBatches {

  const FIRST_BATCH := 100
  const MILLISECONDS := 1000

  /** The batches sent, the one being filled, the time of the last one, and whether there was none yet. */
  datatype Progress<E> = Progress(sent: seq<seq<E>>, batch: seq<E>, base: int, firstTime: bool)

  /** The end of fetch: one more entry, at the time now. */
  function Fetched<E>(s: Progress<E>, e: E, now: int): Progress<E> {
    var batch := s.batch + [e];
    if (s.firstTime && |batch| > FIRST_BATCH) || now - s.base > MILLISECONDS
    then Progress(s.sent + [batch], [], now, false)
    else s.(batch := batch)
  }

  ghost function FetchAll<E>(s: Progress<E>, es: seq<E>, clock: nat -> int): Progress<E>
    decreases |es|
  {
    if es == [] then s else
      var n := |es| - 1;
      Fetched(FetchAll(s, es[..n], clock), es[n], clock(n))
  }

  /** All batches, with the last one that is sent when there are no more entries. */
  ghost function Sent<E>(s: Progress<E>): seq<seq<E>> {
    if s.batch == [] then s.sent else s.sent + [s.batch]
  }

  ghost function Start<E>(base: int): Progress<E> {
    Progress([], [], base, true)
  }

  ghost function Flat<E>(batches: seq<seq<E>>): seq<E> {
    if batches == [] then [] else Flat(batches[..|batches| - 1]) + batches[|batches| - 1]
  }

  lemma FlatOneMore<E>(batches: seq<seq<E>>, b: seq<E>)
    ensures Flat(batches + [b]) == Flat(batches) + b
  {
    assert (batches + [b])[..|batches|] == batches;
  }

  /** es arrived: all of it was sent or is in the batch, in order. */
  ghost predicate Holds<E>(s: Progress<E>, es: seq<E>) {
    && Flat(s.sent) + s.batch == es
    && (forall i :: 0 <= i < |s.sent| ==> s.sent[i] != [])
    && (s.firstTime <==> s.sent == [])
    && (s.firstTime ==> |s.batch| <= FIRST_BATCH)
    && (s.sent != [] ==> |s.sent[0]| <= FIRST_BATCH + 1)
  }

  lemma HoldsStep<E>(s: Progress<E>, es: seq<E>, e: E, now: int)
    requires Holds(s, es)
    ensures Holds(Fetched(s, e, now), es + [e])
  {
    FlatOneMore(s.sent, s.batch + [e]);
    assert Flat(s.sent) + (s.batch + [e]) == es + [e];
    assert Flat(s.sent) + (s.batch + [e]) + [] == es + [e];
  }

  lemma {:induction false} HoldsAll<E>(es: seq<E>, base: int, clock: nat -> int)
    ensures Holds(FetchAll(Start(base), es, clock), es)
    decreases |es|
  {
    if es == [] {
    } else {
      var n := |es| - 1;
      HoldsAll(es[..n], base, clock);
      HoldsStep(FetchAll(Start(base), es[..n], clock), es[..n], es[n], clock(n));
      assert es == es[..n] + [es[n]];
    }
  }

  /** Whatever the clock shows, every entry is sent once and in order, no batch is empty, and the first one has at most
      101 entries. */
  lemma NothingLost<E>(es: seq<E>, base: int, clock: nat -> int)
    ensures var bs := Sent(FetchAll(Start(base), es, clock));
            && Flat(bs) == es
            && (forall i :: 0 <= i < |bs| ==> bs[i] != [])
            && (bs != [] ==> |bs[0]| <= 101)
  {
    HoldsAll(es, base, clock);
    var s := FetchAll(Start(base), es, clock);
    FlatOneMore(s.sent, s.batch);
  }

  /** Between the fetches i and m no batch is sent: the clock stays within 1000 ms of the last batch before i, and if
      that was none, there are at most 100 entries. */
  ghost predicate NoneDue<E>(s: Progress<E>, clock: nat -> int, i: nat, m: nat) {
    (forall k :: i <= k <= m ==> clock(k) - s.base <= 1000) && (s.firstTime ==> m < 100)
  }

  lemma AllButLast<E>(es: seq<E>, base: int, clock: nat -> int, m: nat)
    requires m < |es|
    ensures FetchAll(Start(base), es[..m + 1], clock) ==
            Fetched(FetchAll(Start(base), es[..m], clock), es[m], clock(m))
  {
    assert es[..m + 1][..m] == es[..m];
  }

  /** One more entry is sent with all that wait, or nothing is. */
  lemma SendsOrWaits<E>(s: Progress<E>, es: seq<E>, e: E, now: int)
    requires Holds(s, es)
    ensures var t := Fetched(s, e, now);
            if now - s.base > MILLISECONDS || (s.firstTime && |es| >= FIRST_BATCH) then Flat(t.sent) == es + [e]
            else t.sent == s.sent && t.base == s.base && t.firstTime == s.firstTime
  {
    FlatOneMore(s.sent, s.batch + [e]);
    assert Flat(s.sent) + (s.batch + [e]) == es + [e];
    assert Flat(s.sent) + s.batch == es;
  }

  ghost predicate SameBatch<E>(s: Progress<E>, t: Progress<E>) {
    t.sent == s.sent && t.base == s.base && t.firstTime == s.firstTime
  }

  /** What one more fetch changes for entry i, from what the fetches before have left of the state s. */
  lemma WaitsOn<E>(s: Progress<E>, before: Progress<E>, es: seq<E>, e: E, clock: nat -> int, i: nat)
    requires Holds(before, es) && i <= |es|
    requires if |es| == i then before == s
             else if NoneDue(s, clock, i, |es| - 1) then SameBatch(s, before) else |Flat(before.sent)| > i
    ensures var t := Fetched(before, e, clock(|es|));
            if NoneDue(s, clock, i, |es|) then SameBatch(s, t) else |Flat(t.sent)| > i
  {
    SendsOrWaits(before, es, e, clock(|es|));
    if |es| > i { NoneDueMore(s, clock, i, |es|); }
  }

  lemma NoneDueMore<E>(s: Progress<E>, clock: nat -> int, i: nat, m: nat)
    requires i < m
    ensures NoneDue(s, clock, i, m) <==>
            NoneDue(s, clock, i, m - 1) && clock(m) - s.base <= MILLISECONDS && (s.firstTime ==> m < FIRST_BATCH)
  {}

  lemma {:induction false} WaitsSame<E>(es: seq<E>, base: int, clock: nat -> int, i: nat, m: nat)
    requires i <= m < |es|
    ensures var s, t := FetchAll(Start(base), es[..i], clock), FetchAll(Start(base), es[..m + 1], clock);
            if NoneDue(s, clock, i, m) then SameBatch(s, t) else |Flat(t.sent)| > i
  {
    var s, before := FetchAll(Start(base), es[..i], clock), FetchAll(Start(base), es[..m], clock);
    HoldsAll(es[..m], base, clock);
    AllButLast(es, base, clock, m);
    if m == i {
    } else {
      WaitsSame(es, base, clock, i, m - 1);
    }
    WaitsOn(s, before, es[..m], es[m], clock, i);
  }

  /** Entry i is still waiting after the fetch of entry m if and only if nothing was due in between. So no entry waits
      past the first fetch that is more than 1000 ms after the last batch before it. */
  lemma WaitsIff<E>(es: seq<E>, base: int, clock: nat -> int, i: nat, m: nat)
    requires i <= m < |es|
    ensures var s, t := FetchAll(Start(base), es[..i], clock), FetchAll(Start(base), es[..m + 1], clock);
            |Flat(t.sent)| <= i <==> NoneDue(s, clock, i, m)
  {
    WaitsSame(es, base, clock, i, m);
    HoldsAll(es[..i], base, clock);
  }

  /** As long as no 1000 ms go by, the first batch has 101 entries and the second one all the others: the limit on the
      number of entries is for the first batch only. */
  lemma {:induction false} QuietClock<E>(es: seq<E>, base: int, clock: nat -> int)
    requires forall i: nat :: clock(i) - base <= MILLISECONDS
    requires forall i: nat :: clock(i) - clock(FIRST_BATCH) <= MILLISECONDS
    ensures var s := FetchAll(Start(base), es, clock);
            s == if |es| <= FIRST_BATCH then Progress([], es, base, true)
                 else Progress([es[..FIRST_BATCH + 1]], es[FIRST_BATCH + 1..], clock(FIRST_BATCH), false)
    decreases |es|
  {
    if es == [] {
    } else {
      var n := |es| - 1;
      QuietClock(es[..n], base, clock);
      assert es == es[..n] + [es[n]];
      if n == FIRST_BATCH {
        assert es[..FIRST_BATCH + 1] == es;
        assert es[FIRST_BATCH + 1..] == [];
      } else if n > FIRST_BATCH {
        assert es[..n][..FIRST_BATCH + 1] == es[..FIRST_BATCH + 1];
        assert es[..n][FIRST_BATCH + 1..] + [es[n]] == es[FIRST_BATCH + 1..];
      }
    }
  }

  // ----- the code

  datatype Signal<N, E> =
    | Updates(batch: seq<E>)
    | NewListOfFiles(names: seq<N>)
    | DirectoryLoaded

  ghost function BatchesOf<N, E>(signals: seq<Signal<N, E>>): seq<seq<E>> {
    if signals == [] then [] else
      var s := signals[|signals| - 1];
      BatchesOf(signals[..|signals| - 1]) + (if s.Updates? then [s.batch] else [])
  }

  lemma BatchesOneMore<N, E>(signals: seq<Signal<N, E>>, s: Signal<N, E>)
    ensures BatchesOf(signals + [s]) == BatchesOf(signals) + (if s.Updates? then [s.batch] else [])
  {
    assert (signals + [s])[..|signals|] == signals;
  }

  ghost function Entries<N, E>(names: seq<N>, entry: N -> E): seq<E> {
    seq(|names|, i requires 0 <= i < |names| => entry(names[i]))
  }

  class Fetch<N, E> {
    var signals: seq<Signal<N, E>>
    var base: int
    var firstTime: bool
    var updatedFiles: seq<E>

    ghost function St(): Progress<E>
      reads this
    {
      Progress(BatchesOf(signals), updatedFiles, base, firstTime)
    }

    constructor (base: int)
      ensures signals == [] && St() == Start(base)
    {
      signals, this.base, firstTime, updatedFiles := [], base, true, [];
    }

    method FetchOne(e: E, now: int)
      modifies this
      ensures St() == Fetched(old(St()), e, now)
      ensures |signals| >= |old(signals)| && signals[..|old(signals)|] == old(signals)
      ensures forall i :: |old(signals)| <= i < |signals| ==> signals[i].Updates?
    {
      updatedFiles := updatedFiles + [e];
      if (firstTime && |updatedFiles| > FIRST_BATCH) || now - base > MILLISECONDS {
        BatchesOneMore(signals, Updates(updatedFiles));
        signals := signals + [Updates(updatedFiles)];
        updatedFiles := [];
        base := now;
        firstTime := false;
      }
    }

    /** The first n of the names were fetched, and then came the end or the abort. */
    ghost predicate Stopped(names: seq<N>, n: nat, aborted: nat -> bool) {
      n <= |names| && (n == |names| || aborted(n)) && forall i :: 0 <= i < n ==> !aborted(i)
    }

    ghost predicate OnlyUpdates()
      reads this
    {
      forall i :: 0 <= i < |signals| ==> signals[i].Updates?
    }

    method FetchNames(names: seq<N>, entry: N -> E, clock: nat -> int, aborted: nat -> bool) returns (n: nat)
      requires St() == Start(base) && OnlyUpdates()
      modifies this
      ensures Stopped(names, n, aborted) && OnlyUpdates()
      ensures St() == FetchAll(Start(old(base)), Entries(names[..n], entry), clock)
    {
      n := 0;
      while n < |names| && !aborted(n)
        invariant n <= |names| && OnlyUpdates() && forall i :: 0 <= i < n ==> !aborted(i)
        invariant St() == FetchAll(Start(old(base)), Entries(names[..n], entry), clock)
      {
        EntriesOneMore(names, n, entry);
        FetchOne(entry(names[n]), clock(n));
        n := n + 1;
      }
    }

    lemma EntriesOneMore(names: seq<N>, n: nat, entry: N -> E)
      requires n < |names|
      ensures var es := Entries(names[..n + 1], entry);
              |es| == n + 1 && es[..n] == Entries(names[..n], entry) && es[n] == entry(names[n])
    {}

    /** getFileInfos for a path that is not empty: the entries of the directory if no files are given, or the files.
        The clock and the stop flag are read once for each entry. An aborted directory is reported as loaded, too. */
    method GetFileInfos(files: seq<N>, listing: seq<N>, entry: N -> E, clock: nat -> int, aborted: nat -> bool)
      returns (n: nat)
      requires St() == Start(base) && signals == []
      modifies this
      ensures var names := if files == [] then listing else files;
              && Stopped(names, n, aborted)
              && BatchesOf(signals) == Sent(FetchAll(Start(old(base)), Entries(names[..n], entry), clock))
              && NamesOf(signals) == (if files == [] && n > 0 then [names[..n]] else [])
              && Loads(signals) == 1 && signals[|signals| - 1] == DirectoryLoaded
    {
      if files == [] {
        n := GetListing(listing, entry, clock, aborted);
      } else {
        n := FetchNames(files, entry, clock, aborted);
        OthersNone(signals);
      }
      Finish();
    }

    /** The names of a directory that is not empty are sent when all of them were read. */
    method GetListing(listing: seq<N>, entry: N -> E, clock: nat -> int, aborted: nat -> bool) returns (n: nat)
      requires St() == Start(base) && signals == []
      modifies this
      ensures Stopped(listing, n, aborted)
      ensures St() == FetchAll(Start(old(base)), Entries(listing[..n], entry), clock)
      ensures NamesOf(signals) == (if n > 0 then [listing[..n]] else []) && Loads(signals) == 0
    {
      n := FetchNames(listing, entry, clock, aborted);
      OthersNone(signals);
      if n > 0 {
        Send(NewListOfFiles(listing[..n]));
      }
    }

    /** Without a path the drives are sent one by one, from the last to the first, and nothing else is. */
    method GetDrives(drives: seq<E>)
      requires signals == []
      modifies this
      ensures |BatchesOf(signals)| == |drives| == |signals|
      ensures forall i :: 0 <= i < |drives| ==> BatchesOf(signals)[i] == [drives[|drives| - 1 - i]]
    {
      for i := |drives| downto 0
        invariant |BatchesOf(signals)| == |signals| == |drives| - i
        invariant forall j :: 0 <= j < |signals| ==> BatchesOf(signals)[j] == [drives[|drives| - 1 - j]]
      {
        Send(Updates([drives[i]]));
      }
    }

    method Finish()
      modifies this
      ensures BatchesOf(signals) == Sent(old(St()))
      ensures NamesOf(signals) == NamesOf(old(signals)) && Loads(signals) == Loads(old(signals)) + 1
      ensures |signals| > 0 && signals[|signals| - 1] == DirectoryLoaded
    {
      if updatedFiles != [] {
        Send(Updates(updatedFiles));
      }
      Send(DirectoryLoaded);
    }

    method Send(s: Signal<N, E>)
      modifies this`signals
      ensures signals == old(signals) + [s]
      ensures BatchesOf(signals) == BatchesOf(old(signals)) + (if s.Updates? then [s.batch] else [])
      ensures NamesOf(signals) == NamesOf(old(signals)) + (if s.NewListOfFiles? then [s.names] else [])
      ensures Loads(signals) == Loads(old(signals)) + (if s.DirectoryLoaded? then 1 else 0)
    {
      BatchesOneMore(signals, s);
      signals := signals + [s];
      assert signals[..|signals| - 1] == old(signals);
    }
  }

  ghost function NamesOf<N, E>(signals: seq<Signal<N, E>>): seq<seq<N>> {
    if signals == [] then [] else
      var s := signals[|signals| - 1];
      NamesOf(signals[..|signals| - 1]) + (if s.NewListOfFiles? then [s.names] else [])
  }

  ghost function Loads<N, E>(signals: seq<Signal<N, E>>): nat {
    if signals == [] then 0 else
      Loads(signals[..|signals| - 1]) + (if signals[|signals| - 1].DirectoryLoaded? then 1 else 0)
  }

  lemma {:induction false} OthersNone<N, E>(signals: seq<Signal<N, E>>)
    requires forall i :: 0 <= i < |signals| ==> signals[i].Updates?
    ensures NamesOf(signals) == [] && Loads(signals) == 0
  {
    if signals == [] {
    } else {
      OthersNone(signals[..|signals| - 1]);
    }
  }
}
