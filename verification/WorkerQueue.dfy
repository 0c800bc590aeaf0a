/** The local gatherer's requests: any thread adds them to two parallel queues, and one worker takes them off. */
module WorkerQueue {
  import opened Runs

  /** List the files of a directory, or look the given files up. */
  datatype Request = Request(path: string, files: seq<string>)

  /** The queue; what the worker took so far, what was accepted so far; and whether the worker was told to stop. */
  datatype State = State(pending: seq<Request>, taken: seq<Request>, accepted: seq<Request>, abort: bool)

  const EMPTY := State([], [], [], false)

  datatype Event = Call(r: Request) | Take | Abort

  /** The search for an equal request does not look at the head of the queue. */
  ghost predicate Waits(pending: seq<Request>, r: Request) {
    exists i :: 1 <= i < |pending| && pending[i] == r
  }

  ghost function Fetch(s: State, r: Request): State {
    if Waits(s.pending, r) then s else s.(pending := s.pending + [r], accepted := s.accepted + [r])
  }

  ghost function TakeOne(s: State): State {
    if s.abort || s.pending == [] then s
    else s.(pending := s.pending[1..], taken := s.taken + [s.pending[0]])
  }

  /** Calls and the worker's turns come in any order, since each of them holds the mutex. */
  ghost function Step(s: State, e: Event): State {
    match e
    case Call(r) => Fetch(s, r)
    case Take => TakeOne(s)
    case Abort => s.(abort := true)
  }

  /** Nothing is lost, added or reordered, and behind the head no request waits twice. */
  ghost predicate Inv(s: State) {
    && s.taken + s.pending == s.accepted
    && forall i, j :: 1 <= i < j < |s.pending| ==> s.pending[i] != s.pending[j]
  }

  lemma StepInv(s: State, e: Event)
    requires Inv(s)
    ensures Inv(Step(s, e)) && s.accepted <= Step(s, e).accepted && s.taken <= Step(s, e).taken
  {
    var t := Step(s, e);
    if e.Take? && !s.abort && s.pending != [] {
      assert s.pending == [s.pending[0]] + s.pending[1..];
      assert t.taken + t.pending == s.taken + s.pending;
    } else if e.Call? && !Waits(s.pending, e.r) {
      assert s.taken + (s.pending + [e.r]) == s.taken + s.pending + [e.r];
    }
  }

  lemma RunInv(events: seq<Event>)
    ensures Inv(Run(Step, EMPTY, events))
  {
    RunGrows(EMPTY, events);
  }

  lemma {:induction false} RunGrows(s: State, events: seq<Event>)
    requires Inv(s)
    ensures var t := Run(Step, s, events); Inv(t) && s.accepted <= t.accepted && s.taken <= t.taken
    decreases |events|
  {
    if events == [] {
    } else {
      StepInv(s, events[0]);
      RunGrows(Step(s, events[0]), events[1..]);
    }
  }

  /** A call, even one that is dropped, is served by a later turn of the worker once the queue has run empty. */
  lemma Served(s: State, r: Request, events: seq<Event>)
    requires Inv(s) && Run(Step, Step(s, Call(r)), events).pending == []
    ensures var t := Run(Step, Step(s, Call(r)), events);
            exists i :: |s.taken| <= i < |t.taken| && t.taken[i] == r
  {
    var u := Step(s, Call(r));
    var k := AcceptedAt(s, r);
    StepInv(s, Call(r));
    RunGrows(u, events);
    var t := Run(Step, u, events);
    assert t.taken == t.accepted;
    var i := |u.taken| + k;
    assert (u.taken + u.pending)[i] == u.pending[k];
    assert t.taken[i] == u.accepted[i] == r;
  }

  /** The worker needs no more turns than there were requests in front: k + 1 turns serve the request at place k. */
  lemma {:induction false} TurnsServe(s: State, k: nat, events: seq<Event>)
    requires Inv(s) && k < |s.pending| && !s.abort && Abort !in events && Turns(events) > k
    ensures var t := Run(Step, s, events);
            |s.taken| + k < |t.taken| && t.taken[|s.taken| + k] == s.pending[k]
    decreases |events|
  {
    var u := Step(s, events[0]);
    StepInv(s, events[0]);
    assert events == [events[0]] + events[1..];
    assert events[0] in events;
    if events[0].Take? && k == 0 {
      RunGrows(u, events[1..]);
      assert u.taken[|s.taken|] == s.pending[0];
    } else if events[0].Take? {
      TurnsServe(u, k - 1, events[1..]);
    } else {
      TurnsServe(u, k, events[1..]);
    }
  }

  ghost function Turns(events: seq<Event>): nat {
    if events == [] then 0 else (if events[0].Take? then 1 else 0) + Turns(events[1..])
  }

  /** After a call the request waits at some place. */
  lemma AcceptedAt(s: State, r: Request) returns (k: nat)
    ensures k < |Fetch(s, r).pending| && Fetch(s, r).pending[k] == r
  {
    if Waits(s.pending, r) {
      var i: nat :| 1 <= i < |s.pending| && s.pending[i] == r;
      k := i;
    } else {
      k := |s.pending|;
    }
  }

  /** A call adds its request at the end unless an equal one waits behind the head; equal to the head alone, it is
      added. */
  lemma CallAdds(s: State, r: Request)
    ensures Step(s, Call(r)) ==
            if s.pending != [] && r in s.pending[1..] then s
            else s.(pending := s.pending + [r], accepted := s.accepted + [r])
  {
    if s.pending != [] && r in s.pending[1..] {
      var i :| 0 <= i < |s.pending[1..]| && s.pending[1..][i] == r;
      assert s.pending[i + 1] == r;
    }
    if Waits(s.pending, r) {
      var i :| 1 <= i < |s.pending| && s.pending[i] == r;
      assert s.pending[1..][i - 1] == r;
    }
  }

  /** Once the worker was told to stop it takes nothing any more, whatever is called. */
  lemma {:induction false} StopsForGood(s: State, events: seq<Event>)
    ensures Run(Step, Step(s, Abort), events).taken == s.taken && Run(Step, Step(s, Abort), events).abort
    decreases |events|
  {
    if events == [] {
    } else {
      var t := Step(Step(s, Abort), events[0]);
      assert t.abort && t.taken == s.taken && Step(t, Abort) == t;
      StopsForGood(t, events[1..]);
    }
  }

  /** A request behind the head can wait again only at the head: at most twice in all. */
  lemma AtMostTwice(s: State, r: Request)
    requires Inv(s)
    ensures multiset(s.pending)[r] <= 2
  {
    if s.pending != [] {
      assert s.pending == [s.pending[0]] + s.pending[1..];
      OnceInDistinct(s.pending[1..], r);
    }
  }

  lemma {:induction false} OnceInDistinct(s: seq<Request>, r: Request)
    requires forall i, j :: 0 <= i < j < |s| ==> s[i] != s[j]
    ensures multiset(s)[r] <= 1
  {
    if s == [] {
    } else {
      assert s == [s[0]] + s[1..];
      OnceInDistinct(s[1..], r);
      assert s[0] !in s[1..];
    }
  }

  // ----- the code

  /** The last index up to from that holds x, or -1. */
  method LastIndexOf(s: seq<string>, x: string, from: int) returns (loc: int)
    requires -1 <= from < |s|
    ensures -1 <= loc <= from && (loc >= 0 ==> s[loc] == x)
    ensures forall i :: loc < i <= from ==> s[i] != x
  {
    loc := from;
    while loc >= 0 && s[loc] != x
      invariant -1 <= loc <= from
      invariant forall i :: loc < i <= from ==> s[i] != x
    {
      loc := loc - 1;
    }
  }

  class Gatherer {
    var path: seq<string>
    var files: seq<seq<string>>
    var abort: bool
    ghost var taken: seq<Request>
    ghost var accepted: seq<Request>

    /** The two queues go together. */
    ghost predicate Valid()
      reads this
    {
      |path| == |files|
    }

    ghost function St(): State
      requires Valid()
      reads this
    {
      State(seq(|path|, i requires 0 <= i < |path| && Valid() reads this => Request(path[i], files[i])),
            taken, accepted, abort)
    }

    constructor ()
      ensures Valid() && St() == EMPTY
    {
      path, files, abort, taken, accepted := [], [], false, [], [];
    }

    method FetchExtendedInformation(p: string, fs: seq<string>)
      requires Valid()
      modifies this
      ensures Valid() && St() == Step(old(St()), Call(Request(p, fs)))
    {
      var loc := LastIndexOf(path, p, |path| - 1);
      while loc > 0
        invariant Valid() && St() == old(St())
        invariant -1 <= loc < |path| && (loc >= 0 ==> path[loc] == p)
        invariant forall i :: loc < i < |path| && i >= 1 ==> path[i] != p || files[i] != fs
      {
        if files[loc] == fs {
          assert St().pending[loc] == Request(p, fs);
          return;
        }
        loc := LastIndexOf(path, p, loc - 1);
      }
      path := path + [p];
      files := files + [fs];
      accepted := accepted + [Request(p, fs)];
    }

    /** One turn of the worker; nothing to do if it has to stop, and it waits as long as the queue is empty. */
    method RunOnce() returns (thisPath: string, thisList: seq<string>, served: bool)
      requires Valid()
      modifies this
      ensures Valid() && St() == Step(old(St()), Take)
      ensures served == (!old(abort) && old(St().pending) != [])
      ensures served ==> Request(thisPath, thisList) == old(St()).pending[0]
    {
      thisPath, thisList, served := "", [], !abort && path != [];
      if served {
        thisPath := path[0];
        path := path[1..];
        thisList := files[0];
        files := files[1..];
        taken := taken + [Request(thisPath, thisList)];
      }
    }

    method Stop()
      requires Valid()
      modifies this`abort
      ensures Valid() && St() == Step(old(St()), Abort)
    {
      abort := true;
    }
  }
}
