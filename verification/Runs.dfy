/** Runs of a state machine, given by which operations are allowed in a state and what each of them does. */
module Runs {

  ghost function Run<S, O>(step: (S, O) -> S, st: S, ops: seq<O>): S {
    if ops == [] then st else Run(step, step(st, ops[0]), ops[1..])
  }

  ghost predicate Allowed<S, O>(allowed: (S, O) -> bool, step: (S, O) -> S, st: S, ops: seq<O>) {
    ops == [] || (allowed(st, ops[0]) && Allowed(allowed, step, step(st, ops[0]), ops[1..]))
  }

  ghost predicate Keeps<S(!new), O(!new)>(inv: S -> bool, allowed: (S, O) -> bool, step: (S, O) -> S) {
    forall st, op :: inv(st) && allowed(st, op) ==> inv(step(st, op))
  }

  /** What every allowed step keeps holds after every allowed run. */
  lemma {:induction false} RunKeeps<S(!new), O(!new)>(
    inv: S -> bool, allowed: (S, O) -> bool, step: (S, O) -> S, st: S, ops: seq<O>)
    requires Keeps(inv, allowed, step) && inv(st) && Allowed(allowed, step, st, ops)
    ensures inv(Run(step, st, ops))
  {
    if ops == [] {
    } else {
      RunKeeps(inv, allowed, step, step(st, ops[0]), ops[1..]);
    }
  }

  lemma {:induction false} AllAllowed<S, O>(allowed: (S, O) -> bool, step: (S, O) -> S, st: S, ops: seq<O>)
    requires forall s, o :: allowed(s, o)
    ensures Allowed(allowed, step, st, ops)
  {
    if ops == [] {
    } else {
      AllAllowed(allowed, step, step(st, ops[0]), ops[1..]);
    }
  }

  /** p holds at the beginning of the run and after each of its operations. */
  ghost predicate Throughout<S, O>(p: S -> bool, step: (S, O) -> S, st: S, ops: seq<O>) {
    p(st) && (ops == [] || Throughout(p, step, step(st, ops[0]), ops[1..]))
  }

  /** inv holds with p. From a state with inv, a good operation leads to one with inv, and another one to one without
      p. */
  ghost predicate Decides<S(!new), O(!new)>(
    p: S -> bool, inv: S -> bool, possible: (S, O) -> bool, good: (S, O) -> bool, step: (S, O) -> S)
  {
    && (forall st :: inv(st) ==> p(st))
    && (forall st, op :: inv(st) && possible(st, op) ==> if good(st, op) then inv(step(st, op)) else !p(step(st, op)))
  }

  /** Then p holds throughout a run if and only if every operation of the run is good where it happens. */
  lemma {:induction false} ThroughoutIff<S(!new), O(!new)>(
    p: S -> bool, inv: S -> bool, possible: (S, O) -> bool, good: (S, O) -> bool, step: (S, O) -> S, st: S, ops: seq<O>)
    requires Decides(p, inv, possible, good, step) && inv(st) && Allowed(possible, step, st, ops)
    ensures Throughout(p, step, st, ops) <==> Allowed(good, step, st, ops)
    ensures Allowed(good, step, st, ops) ==> inv(Run(step, st, ops))
  {
    if ops == [] {
    } else if good(st, ops[0]) {
      ThroughoutIff(p, inv, possible, good, step, step(st, ops[0]), ops[1..]);
    } else {
      var next := step(st, ops[0]);
      assert !Throughout(p, step, next, ops[1..]);
    }
  }

  lemma OneStep<S, O>(allowed: (S, O) -> bool, step: (S, O) -> S, st: S, a: O, ops: seq<O>)
    ensures Run(step, st, [a] + ops) == Run(step, step(st, a), ops)
    ensures Allowed(allowed, step, st, [a] + ops) <==> allowed(st, a) && Allowed(allowed, step, step(st, a), ops)
  {
    assert ([a] + ops)[1..] == ops;
  }

  lemma TwoSteps<S, O>(step: (S, O) -> S, st: S, a: O, b: O)
    ensures Run(step, st, [a, b]) == step(step(st, a), b)
  {
    assert [a, b] == [a] + [b] && [b] == [b] + [];
    OneStep((s, o) => true, step, st, a, [b]);
    OneStep((s, o) => true, step, step(st, a), b, []);
  }
}
