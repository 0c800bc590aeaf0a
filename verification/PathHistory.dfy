/** The back and forward buttons of the file dialog: a list of paths with a location in it. */
module PathHistory {
  import opened Runs

  /** What the dialog asks of paths: the cleaned form, whether a path is relative, the working directory, and the name
      under which the drives are shown. */
  datatype Paths = Paths(clean: string -> string, relative: string -> bool, cwd: string, computer: string)

  /** Cleaning twice is cleaning once, and keeps a path absolute; a path under the working directory is absolute; the
      drives' name is relative. */
  ghost predicate Sane(ps: Paths) {
    && (forall p :: ps.clean(ps.clean(p)) == ps.clean(p))
    && (forall p :: !ps.relative(p) ==> !ps.relative(ps.clean(p)))
    && (forall p :: !ps.relative(ps.cwd + "/" + p))
    && ps.relative(ps.computer)
  }

  /** The path shown, the list and the location in it, and whether the two buttons are enabled. */
  datatype State = State(rootPath: string, history: seq<string>, location: int, canBack: bool, canForward: bool)

  const EMPTY := State("", [], -1, false, false)

  // ----- the operations

  ghost function AfterPathChanged(s: State, p: string): State
    requires -1 <= s.location < |s.history|
  {
    var same := s.location >= 0 && s.history[s.location] == p;
    var kept := if s.location >= 0 then s.history[..s.location + 1] else s.history;
    var history := if same then s.history else kept + [p];
    var location := if same then s.location else s.location + 1;
    s.(history := history, location := location,
       canForward := |history| - location > 1, canBack := location > 0)
  }

  ghost function AfterSetRootPath(ps: Paths, s: State, p: string): State
    requires -1 <= s.location < |s.history|
  {
    var long := if p == "" then "" else ps.clean(p);
    if (p != "" && long == "") || s.rootPath == long then s
    else AfterPathChanged(s.(rootPath := if long == ps.computer then "" else long), long)
  }

  ghost function AfterSetDirectory(ps: Paths, s: State, dir: string): State
    requires -1 <= s.location < |s.history|
  {
    var c := ps.clean(dir);
    var path := if dir == "" then "" else if ps.relative(c) then ps.cwd + "/" + c else c;
    if (dir != "" && path == "") || s.rootPath == path then s else AfterSetRootPath(ps, s, path)
  }

  ghost function Backward(ps: Paths, s: State): State
    requires -1 <= s.location < |s.history|
  {
    if s.location <= 0 then s
    else AfterSetDirectory(ps, s.(location := s.location - 1), s.history[s.location - 1])
  }

  ghost function Forward(ps: Paths, s: State): State
    requires -1 <= s.location < |s.history|
  {
    if s.history == [] || s.location >= |s.history| - 1 then s
    else AfterSetDirectory(ps, s.(location := s.location + 1), s.history[s.location + 1])
  }

  /** The model has read directory p. */
  ghost function Loaded(ps: Paths, s: State, p: string): State
    requires -1 <= s.location < |s.history|
  {
    if s.location < 0 || s.history[s.location] != p then s else AfterSetRootPath(ps, s, p)
  }

  datatype Op = GoTo(dir: string) | Back | Forth | Load(p: string)

  ghost function Step(ps: Paths, s: State, op: Op): State {
    if !(-1 <= s.location < |s.history|) then s else
      match op
      case GoTo(dir) => AfterSetDirectory(ps, s, dir)
      case Back => Backward(ps, s)
      case Forth => Forward(ps, s)
      case Load(p) => Loaded(ps, s, p)
  }

  // ----- a zipper

  /** What the user sees: the paths behind, the current one, the paths ahead. */
  datatype Zipper = Nowhere | Zipper(back: seq<string>, current: string, forward: seq<string>)

  ghost function View(s: State): Zipper {
    if 0 <= s.location < |s.history|
    then Zipper(s.history[..s.location], s.history[s.location], s.history[s.location + 1..]) else Nowhere
  }

  /** A new path drops exactly the paths ahead. */
  ghost function Visit(z: Zipper, p: string): Zipper {
    match z
    case Nowhere => Zipper([], p, [])
    case Zipper(back, current, forward) => if p == current then z else Zipper(back + [current], p, [])
  }

  ghost function ToBack(z: Zipper): Zipper {
    if z.Nowhere? || z.back == [] then z else
      var n := |z.back| - 1;
      Zipper(z.back[..n], z.back[n], [z.current] + z.forward)
  }

  ghost function ToForward(z: Zipper): Zipper {
    if z.Nowhere? || z.forward == [] then z else Zipper(z.back + [z.current], z.forward[0], z.forward[1..])
  }

  /** The path that a directory entered by the user leads to, if any. */
  datatype Target = Stay | To(p: string)

  ghost function TargetOf(ps: Paths, dir: string): Target {
    if dir == "" then To("") else
      var c := ps.clean(dir);
      var full := if ps.relative(c) then ps.cwd + "/" + c else c;
      if full == "" || ps.clean(full) == "" then Stay else To(ps.clean(full))
  }

  /** Before the first path the drives are shown, so going there is no change. */
  ghost function ZStep(ps: Paths, z: Zipper, op: Op): Zipper {
    match op
    case GoTo(dir) =>
      var t := TargetOf(ps, dir);
      if t.Stay? || (z.Nowhere? && t.p == "") then z else Visit(z, t.p)
    case Back => ToBack(z)
    case Forth => ToForward(z)
    case Load(_) => z
  }

  // ----- the invariant

  /** A path that setDirectory leaves as it is. */
  ghost predicate Canonical(ps: Paths, p: string) {
    p == "" || (ps.clean(p) == p && !ps.relative(p))
  }

  ghost predicate Inv(ps: Paths, s: State) {
    && -1 <= s.location < |s.history|
    && (s.location == -1 ==> s.history == [] && s.rootPath == "")
    && (s.location >= 0 ==> s.rootPath == s.history[s.location])
    && (forall i :: 0 <= i < |s.history| ==> Canonical(ps, s.history[i]))
    && (forall i :: 0 <= i < |s.history| - 1 ==> s.history[i] != s.history[i + 1])
    && s.canBack == (s.location > 0)
    && s.canForward == (s.location + 1 < |s.history|)
  }

  lemma TargetCanonical(ps: Paths, dir: string)
    requires Sane(ps)
    ensures TargetOf(ps, dir).To? ==> Canonical(ps, TargetOf(ps, dir).p)
  {
    if TargetOf(ps, dir).To? && dir != "" {
      var c := ps.clean(dir);
      var full := if ps.relative(c) then ps.cwd + "/" + c else c;
      assert !ps.relative(full);
    }
  }

  /** Entering a directory goes to its target, unless that is where we are. */
  lemma SetDirectoryIs(ps: Paths, s: State, dir: string)
    requires Sane(ps) && -1 <= s.location < |s.history| && Canonical(ps, s.rootPath)
    ensures var t := TargetOf(ps, dir);
            AfterSetDirectory(ps, s, dir) ==
            if t.Stay? || t.p == s.rootPath then s else AfterPathChanged(s.(rootPath := t.p), t.p)
  {
    TargetCanonical(ps, dir);
  }

  /** A path that differs from the one shown goes behind it, and the paths ahead are dropped. */
  lemma VisitRefines(ps: Paths, s: State, p: string)
    requires Inv(ps, s) && Canonical(ps, p) && p != s.rootPath
    ensures var t := AfterPathChanged(s.(rootPath := p), p);
            Inv(ps, t) && View(t) == Visit(View(s), p)
  {
    var t := AfterPathChanged(s.(rootPath := p), p);
    assert t.history == s.history[..s.location + 1] + [p];
    if s.location >= 0 {
      assert s.history[..s.location + 1] == s.history[..s.location] + [s.history[s.location]];
    }
    assert t.history[..t.location] == s.history[..s.location + 1];
  }

  lemma GoToRefines(ps: Paths, s: State, dir: string)
    requires Sane(ps) && Inv(ps, s)
    ensures var t := AfterSetDirectory(ps, s, dir); Inv(ps, t) && View(t) == ZStep(ps, View(s), GoTo(dir))
  {
    TargetCanonical(ps, dir);
    assert s.location >= 0 ==> Canonical(ps, s.history[s.location]);
    SetDirectoryIs(ps, s, dir);
    var t := TargetOf(ps, dir);
    if t.To? && t.p != s.rootPath { VisitRefines(ps, s, t.p); }
  }

  /** Moving to a neighbour shows it, and the list stays as it is. */
  lemma MoveTo(ps: Paths, s: State, location: nat)
    requires Sane(ps) && Inv(ps, s) && 0 <= s.location && location < |s.history|
    requires location == s.location - 1 || location == s.location + 1
    ensures var t := AfterSetDirectory(ps, s.(location := location), s.history[location]);
            Inv(ps, t) && t.history == s.history && t.location == location
  {
    var p := s.history[location];
    assert Canonical(ps, p) && Canonical(ps, s.rootPath);
    assert s.rootPath != p;
    assert TargetOf(ps, p) == To(p);
    SetDirectoryIs(ps, s.(location := location), p);
  }

  lemma BackRefines(ps: Paths, s: State)
    requires Sane(ps) && Inv(ps, s)
    ensures Inv(ps, Backward(ps, s)) && View(Backward(ps, s)) == ToBack(View(s))
  {
    if s.location > 0 {
      MoveTo(ps, s, s.location - 1);
      var h, n := s.history, s.location;
      assert h[..n][..n - 1] == h[..n - 1];
      assert h[n..] == [h[n]] + h[n + 1..];
    }
  }

  lemma ForwardRefines(ps: Paths, s: State)
    requires Sane(ps) && Inv(ps, s)
    ensures Inv(ps, Forward(ps, s)) && View(Forward(ps, s)) == ToForward(View(s))
  {
    if 0 <= s.location < |s.history| - 1 {
      MoveTo(ps, s, s.location + 1);
      var h, n := s.history, s.location;
      assert h[..n + 1] == h[..n] + [h[n]];
      assert h[n + 1..][1..] == h[n + 2..];
    }
  }

  lemma LoadChangesNothing(ps: Paths, s: State, p: string)
    requires Inv(ps, s)
    ensures Loaded(ps, s, p) == s
  {
    if s.location >= 0 && s.history[s.location] == p { assert Canonical(ps, p); }
  }

  /** Going to another place puts it behind the current one, drops the paths ahead and shows it; going to the place that
      is shown, or nowhere, does nothing. */
  lemma GoToResult(ps: Paths, s: State, dir: string)
    requires Sane(ps) && Inv(ps, s)
    ensures var t, target := Step(ps, s, GoTo(dir)), TargetOf(ps, dir);
            if target.Stay? || target.p == s.rootPath then t == s
            else t == State(target.p, s.history[..s.location + 1] + [target.p], s.location + 1, s.location >= 0, false)
  {
    TargetCanonical(ps, dir);
    SetDirectoryIs(ps, s, dir);
  }

  /** Where a directory leads: a relative one is taken from the working directory, and it is cleaned. */
  lemma TargetIs(ps: Paths, dir: string)
    requires Sane(ps) && dir != ""
    ensures ps.relative(ps.clean(dir)) && ps.clean(ps.cwd + "/" + ps.clean(dir)) != "" ==>
              TargetOf(ps, dir) == To(ps.clean(ps.cwd + "/" + ps.clean(dir)))
    ensures !ps.relative(ps.clean(dir)) && ps.clean(dir) != "" ==> TargetOf(ps, dir) == To(ps.clean(dir))
  {}

  /** Back and forward show the neighbour in the list and leave the list alone. */
  lemma MoveResult(ps: Paths, s: State)
    requires Sane(ps) && Inv(ps, s)
    ensures Step(ps, s, Back) ==
            if s.location <= 0 then s
            else State(s.history[s.location - 1], s.history, s.location - 1, s.location > 1, true)
    ensures Step(ps, s, Forth) ==
            if s.location + 1 >= |s.history| then s
            else State(s.history[s.location + 1], s.history, s.location + 1, true, s.location + 2 < |s.history|)
  {
    if s.location > 0 { MoveTo(ps, s, s.location - 1); }
    if 0 <= s.location && s.location + 1 < |s.history| { MoveTo(ps, s, s.location + 1); }
  }

  lemma StepRefines(ps: Paths, s: State, op: Op)
    requires Sane(ps) && Inv(ps, s)
    ensures Inv(ps, Step(ps, s, op))
    ensures View(Step(ps, s, op)) == ZStep(ps, View(s), op)
  {
    match op
    case GoTo(dir) => GoToRefines(ps, s, dir);
    case Back => StepBack(ps, s);
    case Forth => StepForth(ps, s);
    case Load(p) => LoadChangesNothing(ps, s, p);
  }

  lemma StepBack(ps: Paths, s: State)
    requires Sane(ps) && Inv(ps, s)
    ensures Inv(ps, Step(ps, s, Back)) && View(Step(ps, s, Back)) == ToBack(View(s))
  {
    BackRefines(ps, s);
  }

  lemma StepForth(ps: Paths, s: State)
    requires Sane(ps) && Inv(ps, s)
    ensures Inv(ps, Step(ps, s, Forth)) && View(Step(ps, s, Forth)) == ToForward(View(s))
  {
    ForwardRefines(ps, s);
  }

  ghost function ZRun(ps: Paths, z: Zipper, ops: seq<Op>): Zipper {
    Run((w, op) => ZStep(ps, w, op), z, ops)
  }

  ghost function StepIn(ps: Paths): (State, Op) -> State {
    (s, op) => Step(ps, s, op)
  }

  /** Every run of the dialog is a run of the zipper, and the buttons are right after each of its steps. */
  lemma {:induction false} RunRefines(ps: Paths, s: State, ops: seq<Op>)
    requires Sane(ps) && Inv(ps, s)
    ensures Inv(ps, Run(StepIn(ps), s, ops))
    ensures View(Run(StepIn(ps), s, ops)) == ZRun(ps, View(s), ops)
    decreases |ops|
  {
    if ops == [] {
    } else {
      StepRefines(ps, s, ops[0]);
      RunRefines(ps, Step(ps, s, ops[0]), ops[1..]);
    }
  }

  lemma Determined(ps: Paths, s: State, t: State)
    requires Inv(ps, s) && Inv(ps, t) && s.history == t.history && s.location == t.location
    ensures s == t
  {}

  /** Back and then forward is no change at all. */
  lemma BackThenForward(ps: Paths, s: State)
    requires Sane(ps) && Inv(ps, s) && s.canBack
    ensures Step(ps, Step(ps, s, Back), Forth) == s
  {
    MoveTo(ps, s, s.location - 1);
    ForwardFrom(ps, s, Backward(ps, s));
  }

  lemma ForwardFrom(ps: Paths, s: State, t: State)
    requires Sane(ps) && Inv(ps, s) && Inv(ps, t) && s.history == t.history && 0 <= t.location == s.location - 1
    ensures Step(ps, t, Forth) == s
  {
    MoveTo(ps, t, s.location);
    Determined(ps, s, Forward(ps, t));
  }

  lemma ForwardThenBack(ps: Paths, s: State)
    requires Sane(ps) && Inv(ps, s) && s.canForward
    ensures Step(ps, Step(ps, s, Forth), Back) == s
  {
    MoveTo(ps, s, s.location + 1);
    BackwardFrom(ps, s, Forward(ps, s));
  }

  lemma BackwardFrom(ps: Paths, s: State, t: State)
    requires Sane(ps) && Inv(ps, s) && Inv(ps, t) && s.history == t.history && 0 <= s.location == t.location - 1
    ensures Step(ps, t, Back) == s
  {
    MoveTo(ps, t, s.location);
    Determined(ps, s, Backward(ps, t));
  }

  // ----- the code

  class FileDialog {
    const ps: Paths
    var rootPath: string
    var history: seq<string>
    var location: int
    var canBack: bool
    var canForward: bool

    ghost function St(): State
      reads this
    {
      State(rootPath, history, location, canBack, canForward)
    }

    constructor (ps: Paths)
      ensures this.ps == ps && St() == EMPTY && Inv(ps, St())
    {
      this.ps := ps;
      rootPath, history, location, canBack, canForward := "", [], -1, false, false;
    }

    method PathChanged(p: string)
      requires -1 <= location < |history|
      modifies this
      ensures St() == AfterPathChanged(old(St()), p)
    {
      if location < 0 || history[location] != p {
        while location >= 0 && location + 1 < |history|
          invariant rootPath == old(rootPath) && location == old(location) < |history| <= |old(history)|
          invariant history == old(history)[..|history|] && (location < 0 ==> history == old(history))
          decreases |history|
        {
          history := history[..|history| - 1];
        }
        history := history + [p];
        location := location + 1;
      }
      canForward := |history| - location > 1;
      canBack := location > 0;
    }

    method SetRootPath(p: string)
      requires -1 <= location < |history|
      modifies this
      ensures St() == AfterSetRootPath(ps, old(St()), p)
    {
      var long := p;
      if p != "" {
        long := ps.clean(long);
      }
      if p != "" && long == "" {
        return;
      }
      if rootPath == long {
        return;
      }
      var showDrives := long == "" || long == ps.computer;
      rootPath := long;
      if showDrives {
        rootPath := "";
      }
      PathChanged(long);
    }

    method SetDirectory(dir: string)
      requires -1 <= location < |history|
      modifies this
      ensures St() == AfterSetDirectory(ps, old(St()), dir)
    {
      var newDirectory := dir;
      if dir != "" {
        newDirectory := ps.clean(dir);
        if ps.relative(newDirectory) {
          newDirectory := ps.cwd + "/" + newDirectory;
        }
      }
      if dir != "" && newDirectory == "" {
        return;
      }
      if rootPath == newDirectory {
        return;
      }
      SetRootPath(newDirectory);
    }

    method NavigateBackward()
      requires -1 <= location < |history|
      modifies this
      ensures St() == Backward(ps, old(St()))
    {
      if history != [] && location > 0 {
        location := location - 1;
        SetDirectory(history[location]);
      }
    }

    method NavigateForward()
      requires -1 <= location < |history|
      modifies this
      ensures St() == Forward(ps, old(St()))
    {
      if history != [] && location < |history| - 1 {
        location := location + 1;
        SetDirectory(history[location]);
      }
    }

    method DirectoryLoaded(p: string)
      requires -1 <= location < |history|
      modifies this
      ensures St() == Loaded(ps, old(St()), p)
    {
      if location < 0 || history[location] != p {
        return;
      }
      SetRootPath(p);
    }
  }
}
