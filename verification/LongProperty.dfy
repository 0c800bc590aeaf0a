/** Integer properties with a range, and the spin boxes that show them. */
module LongProperty {
  import opened Runs

  type Id = nat

  /** What the manager stores for a property, and what a spin box holds. */
  datatype Setting = Setting(val: int, min: int, max: int, step: int, readOnly: bool)

  const LONG_MIN: int := -0x8000_0000_0000_0000
  const LONG_MAX: int := 0x7fff_ffff_ffff_ffff
  const INITIAL := Setting(0, LONG_MIN, LONG_MAX, 1, false)

  /** The manager's values, the contents of the spin boxes and the two maps of the factory. */
  datatype State = State(
    values: map<Id, Setting>, shown: map<Id, Setting>, created: map<Id, seq<Id>>, owner: map<Id, Id>)

  const EMPTY := State(map[], map[], map[], map[])

  predicate InRange(d: Setting, v: int) {
    d.min <= v <= d.max
  }

  function Bound(d: Setting, v: int): int {
    var w := if v < d.max then v else d.max;
    if w > d.min then w else d.min
  }

  function WithMinimum(d: Setting, m: int): Setting {
    d.(min := m, max := if d.max < m then m else d.max, val := if d.val < m then m else d.val)
  }

  function WithMaximum(d: Setting, m: int): Setting {
    d.(max := m, min := if d.min > m then m else d.min, val := if d.val > m then m else d.val)
  }

  // ----- what the signals of the manager do to the spin boxes of a property

  function ShowValue(box: Setting, d: Setting): Setting {
    box.(val := d.val)
  }

  /** A spin box swaps the borders if they come in the wrong order. */
  function WithRange(box: Setting, min: int, max: int): Setting {
    box.(min := if min > max then max else min, max := if min > max then min else max)
  }

  function ShowRange(box: Setting, d: Setting): Setting {
    WithRange(box, d.min, d.max).(val := d.val)
  }

  function ShowStep(box: Setting, d: Setting): Setting {
    box.(step := d.step)
  }

  function ShowReadOnly(box: Setting, d: Setting): Setting {
    box.(readOnly := d.readOnly)
  }

  ghost predicate Edits(created: map<Id, seq<Id>>, p: Id, e: Id) {
    p in created && e in created[p]
  }

  ghost function Publish(s: State, p: Id, show: (Setting, Setting) -> Setting): State {
    s.(shown := map e | e in s.shown ::
         if Edits(s.created, p, e) && p in s.values then show(s.shown[e], s.values[p]) else s.shown[e])
  }

  ghost function Store(s: State, p: Id, d: Setting): State {
    s.(values := s.values[p := d])
  }

  // ----- the operations

  ghost function SetValue(s: State, p: Id, v: int): State {
    if p !in s.values then s else
      var d := s.values[p];
      if d.val == v || Bound(d, v) == d.val then s else Publish(Store(s, p, d.(val := Bound(d, v))), p, ShowValue)
  }

  ghost function StoreRange(s: State, p: Id, d: Setting): State
    requires p in s.values
  {
    var t := Publish(Store(s, p, d), p, ShowRange);
    if d.val == s.values[p].val then t else Publish(t, p, ShowValue)
  }

  ghost function SetMinimum(s: State, p: Id, m: int): State {
    if p !in s.values || s.values[p].min == m then s else StoreRange(s, p, WithMinimum(s.values[p], m))
  }

  ghost function SetMaximum(s: State, p: Id, m: int): State {
    if p !in s.values || s.values[p].max == m then s else StoreRange(s, p, WithMaximum(s.values[p], m))
  }

  ghost function SetRange(s: State, p: Id, a: int, b: int): State {
    var lo, hi := if a > b then b else a, if a > b then a else b;
    if p !in s.values || (s.values[p].min == lo && s.values[p].max == hi) then s
    else StoreRange(s, p, WithMaximum(WithMinimum(s.values[p], lo), hi))
  }

  ghost function SetSingleStep(s: State, p: Id, n: int): State {
    var step := if n < 0 then 0 else n;
    if p !in s.values || s.values[p].step == step then s
    else Publish(Store(s, p, s.values[p].(step := step)), p, ShowStep)
  }

  ghost function SetReadOnly(s: State, p: Id, readOnly: bool): State {
    if p !in s.values || s.values[p].readOnly == readOnly then s
    else Publish(Store(s, p, s.values[p].(readOnly := readOnly)), p, ShowReadOnly)
  }

  /** A number arrives in spin box e, which tells the manager. */
  ghost function Typed(s: State, e: Id, v: int): State
    requires e in s.shown
  {
    var t := s.(shown := s.shown[e := s.shown[e].(val := v)]);
    if e in s.owner then SetValue(t, s.owner[e], v) else t
  }

  function Stepped(box: Setting, n: int): int {
    var v := box.val + n * box.step;
    var up := if v < box.min then box.min else v;
    if up > box.max then box.max else up
  }

  /** validate: a number outside the range of the box is not acceptable as it is. */
  predicate Acceptable(box: Setting, v: int) {
    !(v < box.min || v > box.max)
  }

  /** fixup, for text that is not acceptable: the line edit reports that editing has finished only with a number that
      is acceptable or has been fixed up. */
  function Fixed(box: Setting, v: int): int {
    if Acceptable(box, v) then v else
      var up := if v < box.min then box.min else v;
      if up > box.max then box.max else up
  }

  /** What the manager's getters return for p. */
  function Read(values: map<Id, Setting>, p: Id): Setting {
    if p in values then values[p] else Setting(0, 0, 0, 0, false)
  }

  ghost function CreateEditor(s: State, p: Id, e: Id): State {
    var d := Read(s.values, p);
    s.(created := s.created[p := (if p in s.created then s.created[p] else []) + [e]],
       owner := s.owner[e := p], shown := s.shown[e := ShowRange(d, d)])
  }

  function Without(es: seq<Id>, e: Id): seq<Id> {
    if es == [] then [] else (if es[0] == e then [] else [es[0]]) + Without(es[1..], e)
  }

  ghost function EditorDestroyed(s: State, e: Id): State {
    if e !in s.owner then s else
      var p := s.owner[e];
      var created :=
        if p !in s.created then s.created
        else if Without(s.created[p], e) == [] then s.created - {p}
        else s.created[p := Without(s.created[p], e)];
      s.(created := created, owner := s.owner - {e}, shown := s.shown - {e})
  }

  // ----- runs

  datatype Op =
    | AddProperty(p: Id)
    | RemoveProperty(p: Id)
    | ChangeValue(p: Id, v: int)
    | ChangeMinimum(p: Id, v: int)
    | ChangeMaximum(p: Id, v: int)
    | ChangeRange(p: Id, v: int, w: int)
    | ChangeStep(p: Id, v: int)
    | ChangeReadOnly(p: Id, flag: bool)
    | Create(p: Id, e: Id)
    | Destroy(e: Id)
    | StepBy(e: Id, n: int)
    | SetText(e: Id, v: int)
    | Enter(e: Id, v: int)

  /** New properties and new spin boxes have ids that are not in use; the user only works on spin boxes that exist. */
  ghost predicate Possible(s: State, op: Op) {
    match op
    case AddProperty(p) => p !in s.values && p !in s.created
    case Create(_, e) => e !in s.shown
    case StepBy(e, _) => e in s.shown
    case SetText(e, _) => e in s.shown
    case Enter(e, _) => e in s.shown
    case _ => true
  }

  ghost function Step(s: State, op: Op): State {
    match op
    case AddProperty(p) => s.(values := s.values[p := INITIAL])
    case RemoveProperty(p) => s.(values := s.values - {p})
    case ChangeValue(p, v) => SetValue(s, p, v)
    case ChangeMinimum(p, v) => SetMinimum(s, p, v)
    case ChangeMaximum(p, v) => SetMaximum(s, p, v)
    case ChangeRange(p, v, w) => SetRange(s, p, v, w)
    case ChangeStep(p, v) => SetSingleStep(s, p, v)
    case ChangeReadOnly(p, flag) => SetReadOnly(s, p, flag)
    case Create(p, e) => CreateEditor(s, p, e)
    case Destroy(e) => EditorDestroyed(s, e)
    case StepBy(e, n) => if e in s.shown then Typed(s, e, Stepped(s.shown[e], n)) else s
    case SetText(e, v) => if e in s.shown then Typed(s, e, v) else s
    case Enter(e, v) => if e in s.shown then Typed(s, e, Fixed(s.shown[e], v)) else s
  }

  // ----- the invariants

  /** The two maps are inverse to each other. */
  ghost predicate Maps(s: State) {
    && (forall e :: e in s.owner <==> e in s.shown)
    && (forall e :: e in s.owner ==> Edits(s.created, s.owner[e], e))
    && (forall p :: p in s.created ==> s.created[p] != [])
    && (forall p, e :: Edits(s.created, p, e) ==> e in s.owner && s.owner[e] == p)
  }

  ghost predicate Ranges(s: State) {
    forall p :: p in s.values ==> InRange(s.values[p], s.values[p].val) && s.values[p].step >= 0
  }

  ghost predicate Live(s: State, e: Id) {
    e in s.owner && e in s.shown && s.owner[e] in s.values
  }

  /** Every spin box has its property's range, step and flag. */
  ghost predicate Near(s: State) {
    forall e :: Live(s, e) ==> s.shown[e] == s.values[s.owner[e]].(val := s.shown[e].val)
  }

  /** Every spin box of p shows its value. */
  ghost predicate ShowsValue(s: State, p: Id) {
    forall e :: Live(s, e) && s.owner[e] == p ==> s.shown[e].val == s.values[p].val
  }

  ghost predicate Sound(s: State) {
    Maps(s) && Ranges(s) && Near(s)
  }

  ghost predicate Inv(s: State) {
    Sound(s) && forall p :: ShowsValue(s, p)
  }

  /** After a publication that brings every box of p in line, they all are. */
  lemma PublishSound(s: State, p: Id, d: Setting, show: (Setting, Setting) -> Setting)
    requires Sound(s) && p in s.values && InRange(d, d.val) && d.step >= 0
    requires forall box: Setting :: box == s.values[p].(val := box.val) ==> show(box, d) == d.(val := show(box, d).val)
    ensures Sound(Publish(Store(s, p, d), p, show))
  {
    var t := Publish(Store(s, p, d), p, show);
    forall e | Live(t, e)
      ensures t.shown[e] == t.values[t.owner[e]].(val := t.shown[e].val)
    {
      assert Live(s, e);
      assert Edits(s.created, s.owner[e], e);
    }
  }

  lemma PublishShows(s: State, p: Id, d: Setting, show: (Setting, Setting) -> Setting)
    requires Maps(s) && p in s.values && forall box: Setting :: show(box, d).val == d.val
    ensures ShowsValue(Publish(Store(s, p, d), p, show), p)
  {}

  lemma PublishOthers(s: State, p: Id, q: Id, d: Setting, show: (Setting, Setting) -> Setting)
    requires Maps(s) && p != q
    ensures ShowsValue(Publish(Store(s, p, d), p, show), q) <==> ShowsValue(s, q)
  {
    var t := Publish(Store(s, p, d), p, show);
    forall e | Live(s, e) && s.owner[e] == q
      ensures Live(t, e) && t.shown[e] == s.shown[e] && t.values[q] == s.values[q]
    {}
    forall e | Live(t, e) && t.owner[e] == q
      ensures Live(s, e) && t.shown[e] == s.shown[e] && t.values[q] == s.values[q]
    {}
  }

  // ----- every operation

  /** The value or the range of p changed. */
  ghost predicate Moved(s: State, t: State, p: Id) {
    && p in s.values
    && p in t.values
    && t.values[p] != s.values[p].(step := t.values[p].step, readOnly := t.values[p].readOnly)
  }

  /** t is sound, and where a box does not show its property's value in t, the same was so in s and p did not change;
      other properties are as before. */
  ghost predicate Heals(s: State, t: State, p: Id) {
    && Sound(t)
    && (ShowsValue(t, p) <==> Moved(s, t, p) || ShowsValue(s, p))
    && forall q :: q != p ==> (ShowsValue(t, q) <==> ShowsValue(s, q)) && !Moved(s, t, q)
  }

  lemma PublishHeals(s: State, p: Id, d: Setting, show: (Setting, Setting) -> Setting)
    requires Sound(s) && p in s.values && InRange(d, d.val) && d.step >= 0
    requires forall box: Setting :: box == s.values[p].(val := box.val) ==> show(box, d) == d.(val := show(box, d).val)
    requires forall box: Setting :: show(box, d).val == d.val
    ensures var t := Publish(Store(s, p, d), p, show);
            Sound(t) && ShowsValue(t, p) && forall q :: q != p ==> (ShowsValue(t, q) <==> ShowsValue(s, q))
  {
    PublishSound(s, p, d, show);
    PublishShows(s, p, d, show);
    forall q | q != p
      ensures ShowsValue(Publish(Store(s, p, d), p, show), q) <==> ShowsValue(s, q)
    {
      PublishOthers(s, p, q, d, show);
    }
  }

  lemma SetValueHeals(s: State, p: Id, v: int)
    requires Sound(s)
    ensures Heals(s, SetValue(s, p, v), p)
  {
    if SetValue(s, p, v) != s {
      var d := s.values[p];
      PublishHeals(s, p, d.(val := Bound(d, v)), ShowValue);
    }
  }

  lemma StoreRangeHeals(s: State, p: Id, d: Setting)
    requires Sound(s) && p in s.values && InRange(d, d.val)
    requires d == s.values[p].(val := d.val, min := d.min, max := d.max) && d != s.values[p]
    ensures Heals(s, StoreRange(s, p, d), p)
  {
    var t := Publish(Store(s, p, d), p, ShowRange);
    PublishHeals(s, p, d, ShowRange);
    StoredAlready(t, p, d);
    PublishHeals(t, p, d, ShowValue);
    ShownHeals(s, StoreRange(s, p, d), p, d);
  }

  lemma StoredAlready(t: State, p: Id, d: Setting)
    requires p in t.values && t.values[p] == d
    ensures Store(t, p, d) == t
  {}

  lemma ShownHeals(s: State, t: State, p: Id, d: Setting)
    requires Sound(t) && ShowsValue(t, p) && forall q :: q != p ==> (ShowsValue(t, q) <==> ShowsValue(s, q))
    requires p in s.values && t.values == s.values[p := d]
    requires d == s.values[p].(val := d.val, min := d.min, max := d.max) && d != s.values[p]
    ensures Heals(s, t, p)
  {}

  lemma SetMinimumHeals(s: State, p: Id, m: int)
    requires Sound(s)
    ensures Heals(s, SetMinimum(s, p, m), p)
  {
    if p in s.values && s.values[p].min != m { StoreRangeHeals(s, p, WithMinimum(s.values[p], m)); }
  }

  lemma SetMaximumHeals(s: State, p: Id, m: int)
    requires Sound(s)
    ensures Heals(s, SetMaximum(s, p, m), p)
  {
    if p in s.values && s.values[p].max != m { StoreRangeHeals(s, p, WithMaximum(s.values[p], m)); }
  }

  lemma SetRangeHeals(s: State, p: Id, a: int, b: int)
    requires Sound(s)
    ensures Heals(s, SetRange(s, p, a, b), p)
  {
    var lo, hi := if a > b then b else a, if a > b then a else b;
    if p in s.values && (s.values[p].min != lo || s.values[p].max != hi) {
      StoreRangeHeals(s, p, WithMaximum(WithMinimum(s.values[p], lo), hi));
    }
  }

  /** A publication that leaves the values alone. */
  lemma PublishAside(s: State, p: Id, d: Setting, show: (Setting, Setting) -> Setting)
    requires Sound(s) && p in s.values && d.step >= 0
    requires d == s.values[p].(step := d.step, readOnly := d.readOnly)
    requires forall box: Setting :: box == s.values[p].(val := box.val) ==> show(box, d) == d.(val := show(box, d).val)
    requires forall box: Setting :: show(box, d).val == box.val
    ensures Heals(s, Publish(Store(s, p, d), p, show), p)
  {
    var t := Publish(Store(s, p, d), p, show);
    PublishSound(s, p, d, show);
    forall q
      ensures ShowsValue(t, q) <==> ShowsValue(s, q)
    {
      SameShown(s, t, q);
    }
  }

  lemma SameShown(s: State, t: State, q: Id)
    requires s.owner == t.owner && s.shown.Keys == t.shown.Keys && s.values.Keys == t.values.Keys
    requires forall e :: e in s.shown ==> t.shown[e].val == s.shown[e].val
    requires forall p :: p in s.values ==> t.values[p].val == s.values[p].val
    ensures ShowsValue(t, q) <==> ShowsValue(s, q)
  {
    assert forall e :: Live(s, e) <==> Live(t, e);
  }

  lemma SetStepHeals(s: State, p: Id, n: int)
    requires Sound(s)
    ensures Heals(s, SetSingleStep(s, p, n), p)
  {
    var step := if n < 0 then 0 else n;
    if p in s.values && s.values[p].step != step {
      PublishAside(s, p, s.values[p].(step := step), ShowStep);
    }
  }

  lemma SetReadOnlyHeals(s: State, p: Id, flag: bool)
    requires Sound(s)
    ensures Heals(s, SetReadOnly(s, p, flag), p)
  {
    if p in s.values && s.values[p].readOnly != flag {
      PublishAside(s, p, s.values[p].(readOnly := flag), ShowReadOnly);
    }
  }

  /** The number only reaches its own box before the manager hears of it. */
  lemma TypedFirst(s: State, e: Id, v: int)
    requires Sound(s) && e in s.shown
    ensures var t := s.(shown := s.shown[e := s.shown[e].(val := v)]);
            && Sound(t)
            && (forall q :: q != s.owner[e] ==> (ShowsValue(t, q) <==> ShowsValue(s, q)))
            && (ShowsValue(t, s.owner[e]) && Live(s, e) ==> v == s.values[s.owner[e]].val)
            && (ShowsValue(s, s.owner[e]) && Live(s, e) && v == s.values[s.owner[e]].val ==> ShowsValue(t, s.owner[e]))
  {
    var t := s.(shown := s.shown[e := s.shown[e].(val := v)]);
    forall x | Live(t, x)
      ensures Live(s, x) && t.shown[x] == t.values[t.owner[x]].(val := t.shown[x].val)
    {
      assert Live(s, x);
    }
    forall q | q != s.owner[e]
      ensures ShowsValue(t, q) <==> ShowsValue(s, q)
    {
      assert forall x :: Live(s, x) && s.owner[x] == q ==> Live(t, x) && t.shown[x] == s.shown[x];
      assert forall x :: Live(t, x) && t.owner[x] == q ==> Live(s, x) && t.shown[x] == s.shown[x];
    }
    if Live(s, e) {
      assert Live(t, e) && t.shown[e].val == v;
    }
  }

  ghost predicate FineOrSame(s: State, t: State, x: Id)
    requires Live(t, x)
  {
    var p := t.owner[x];
    || t.shown[x].val == t.values[p].val
    || (Live(s, x) && s.owner[x] == p && t.shown[x] == s.shown[x] && t.values[p] == s.values[p])
  }

  lemma StillShown(s: State, t: State)
    requires forall x :: Live(t, x) ==> FineOrSame(s, t, x)
    ensures forall q :: ShowsValue(s, q) ==> ShowsValue(t, q)
  {}

  lemma CreateSound(s: State, p: Id, e: Id)
    requires Sound(s) && e !in s.shown
    ensures Sound(CreateEditor(s, p, e))
    ensures forall q :: ShowsValue(s, q) ==> ShowsValue(CreateEditor(s, p, e), q)
  {
    var t := CreateEditor(s, p, e);
    CreateMaps(s, p, e);
    forall x | Live(t, x) && x != e
      ensures Live(s, x) && t.shown[x] == s.shown[x] && t.owner[x] == s.owner[x]
    {}
    StillShown(s, t);
  }

  lemma CreateMaps(s: State, p: Id, e: Id)
    requires Maps(s) && e !in s.shown
    ensures Maps(CreateEditor(s, p, e))
  {
    var t := CreateEditor(s, p, e);
    forall q, x | Edits(t.created, q, x)
      ensures x in t.owner && t.owner[x] == q
    {
      assert Edits(s.created, q, x) || (q == p && x == e);
    }
    forall x | x in t.owner
      ensures Edits(t.created, t.owner[x], x)
    {
      assert x != e ==> Edits(s.created, s.owner[x], x);
    }
  }

  lemma {:induction false} WithoutElements(es: seq<Id>, e: Id)
    ensures forall x :: x in Without(es, e) <==> x in es && x != e
  {
    if es == [] {
    } else {
      WithoutElements(es[1..], e);
      assert forall x :: x in es <==> x == es[0] || x in es[1..];
    }
  }

  lemma DestroySound(s: State, e: Id)
    requires Sound(s)
    ensures Sound(EditorDestroyed(s, e))
    ensures forall q :: ShowsValue(s, q) ==> ShowsValue(EditorDestroyed(s, e), q)
  {
    if e in s.owner {
      var t := EditorDestroyed(s, e);
      WithoutElements(s.created[s.owner[e]], e);
      forall x | x in t.owner
        ensures x in s.owner && Edits(t.created, t.owner[x], x)
      {
        assert Edits(s.created, s.owner[x], x);
      }
      forall p, x | Edits(t.created, p, x)
        ensures x in t.owner && t.owner[x] == p
      {
        assert Edits(s.created, p, x);
      }
      StillShown(s, t);
    }
  }

  // ----- the main results

  function Distance(a: int, b: int): nat {
    if a < b then b - a else a - b
  }

  /** w is the number in the range of d that is nearest to v. */
  ghost predicate Nearest(d: Setting, v: int, w: int) {
    InRange(d, w) && forall u :: InRange(d, u) ==> Distance(w, v) <= Distance(u, v)
  }

  /** A value that is set becomes the nearest one in the range, and nothing else is stored. */
  lemma SetValueStores(s: State, p: Id, v: int)
    requires Ranges(s) && p in s.values
    ensures var d := s.values[p];
            var w := SetValue(s, p, v).values[p].val;
            SetValue(s, p, v).values == s.values[p := d.(val := w)] && Nearest(d, v, w)
  {}

  /** A border that is set pushes the other border and the value, as far as it has to. */
  lemma SetMinimumStores(s: State, p: Id, m: int)
    requires Ranges(s) && p in s.values
    ensures var d := s.values[p];
            var e := SetMinimum(s, p, m).values[p];
            && SetMinimum(s, p, m).values == s.values[p := d.(min := m, max := e.max, val := e.val)]
            && Nearest(d.(min := m, max := e.max), d.val, e.val)
            && e.max == (if d.max < m then m else d.max)
  {}

  lemma SetMaximumStores(s: State, p: Id, m: int)
    requires Ranges(s) && p in s.values
    ensures var d := s.values[p];
            var e := SetMaximum(s, p, m).values[p];
            && SetMaximum(s, p, m).values == s.values[p := d.(min := e.min, max := m, val := e.val)]
            && Nearest(d.(min := e.min, max := m), d.val, e.val)
            && e.min == (if d.min > m then m else d.min)
  {}

  /** Both borders, in either order. */
  lemma SetRangeStores(s: State, p: Id, a: int, b: int)
    requires Ranges(s) && p in s.values
    ensures var d := s.values[p];
            var e := SetRange(s, p, a, b).values[p];
            && SetRange(s, p, a, b).values == s.values[p := d.(min := e.min, max := e.max, val := e.val)]
            && e.min <= e.max && {e.min, e.max} == {a, b} && Nearest(e, d.val, e.val)
  {
    var lo, hi := if a > b then b else a, if a > b then a else b;
    var d := s.values[p];
    RangeIs(d, lo, hi);
    BoundNearest(d.(min := lo, max := hi), d.val);
    StoreRangeValues(s, p, WithMaximum(WithMinimum(d, lo), hi));
  }

  /** A step that is set is stored, a negative one as 0; the flag is stored as given. */
  lemma SetStepStores(s: State, p: Id, n: int)
    requires p in s.values
    ensures SetSingleStep(s, p, n).values == s.values[p := s.values[p].(step := if n < 0 then 0 else n)]
  {
    assert s.values[p].(step := s.values[p].step) == s.values[p] && s.values[p := s.values[p]] == s.values;
  }

  lemma SetReadOnlyStores(s: State, p: Id, flag: bool)
    requires p in s.values
    ensures SetReadOnly(s, p, flag).values == s.values[p := s.values[p].(readOnly := flag)]
  {
    assert s.values[p].(readOnly := s.values[p].readOnly) == s.values[p] && s.values[p := s.values[p]] == s.values;
  }

  lemma StoreRangeValues(s: State, p: Id, d: Setting)
    requires p in s.values
    ensures StoreRange(s, p, d).values == s.values[p := d]
  {}

  lemma BoundNearest(d: Setting, v: int)
    requires d.min <= d.max
    ensures Nearest(d, v, Bound(d, v))
  {}

  /** A step goes as far as the range of the box allows. */
  lemma SteppedNearest(box: Setting, n: int)
    requires box.min <= box.max
    ensures Nearest(box, box.val + n * box.step, Stepped(box, n))
  {}

  /** What the user enters becomes the nearest number in the range before the manager hears of it. */
  lemma FixedNearest(box: Setting, v: int)
    requires box.min <= box.max
    ensures Nearest(box, v, Fixed(box, v)) && Acceptable(box, Fixed(box, v))
  {}

  /** Setting both borders one after the other gives the range that was asked for, with the value clipped to it. */
  lemma RangeIs(d: Setting, lo: int, hi: int)
    requires lo <= hi
    ensures WithMaximum(WithMinimum(d, lo), hi) ==
            d.(min := lo, max := hi, val := Bound(d.(min := lo, max := hi), d.val))
  {}

  /** A number that arrives in a box reaches the manager: its property gets the nearest value in range, and nothing else
      is stored. */
  lemma TypedStores(s: State, e: Id, v: int)
    requires Sound(s) && Live(s, e)
    ensures var p, t := s.owner[e], Typed(s, e, v);
            var w := if p in t.values then t.values[p].val else 0;
            t.values == s.values[p := s.values[p].(val := w)] && Nearest(s.values[p], v, w)
    ensures Typed(s, e, v).owner == s.owner && Typed(s, e, v).created == s.created
  {
    SetValueStores(s.(shown := s.shown[e := s.shown[e].(val := v)]), s.owner[e], v);
  }

  /** The number that an operation of the user or a call of setText asks for. */
  ghost function Asked(s: State, op: Op): int
    requires op.StepBy? || op.SetText? || op.Enter?
    requires op.e in s.shown
  {
    if op.StepBy? then s.shown[op.e].val + op.n * s.shown[op.e].step else op.v
  }

  /** Whatever the user does to a box, the property gets the value in range that is nearest to the number asked for:
      a step counts from what the box shows. */
  lemma BoxStores(s: State, op: Op)
    requires Sound(s) && (op.StepBy? || op.SetText? || op.Enter?) && Live(s, op.e)
    ensures var p, t := s.owner[op.e], Step(s, op);
            var w := if p in t.values then t.values[p].val else 0;
            t.values == s.values[p := s.values[p].(val := w)] && Nearest(s.values[p], Asked(s, op), w)
  {
    var d, box := s.values[s.owner[op.e]], s.shown[op.e];
    assert box == d.(val := box.val);
    match op
    case StepBy(e, n) =>
      TypedStores(s, e, Stepped(box, n));
      SteppedNearest(box, n);
      NearestTwice(d, Asked(s, op), Stepped(box, n));
    case SetText(e, v) => TypedStores(s, e, v);
    case Enter(e, v) =>
      TypedStores(s, e, Fixed(box, v));
      FixedNearest(box, v);
      NearestTwice(d, v, Fixed(box, v));
  }

  /** The number in range that is nearest to one in range is that one. */
  lemma NearestTwice(d: Setting, v: int, w: int)
    requires Nearest(d, v, w)
    ensures forall u :: Nearest(d, w, u) ==> u == w
  {
    forall u | Nearest(d, w, u)
      ensures u == w
    {
      assert Distance(u, w) <= Distance(w, w);
    }
  }

  /** So one step up from 3 in a box with the range 0 to 10 stores 4. */
  lemma StepExample(s: State, e: Id)
    requires Sound(s) && Live(s, e) && s.values[s.owner[e]] == Setting(3, 0, 10, 1, false) && s.shown[e].val == 3
    ensures s.owner[e] in Step(s, StepBy(e, 1)).values && Step(s, StepBy(e, 1)).values[s.owner[e]].val == 4
  {
    BoxStores(s, StepBy(e, 1));
    var w := Step(s, StepBy(e, 1)).values[s.owner[e]].val;
    assert InRange(s.values[s.owner[e]], 4) && Distance(w, 4) <= Distance(4, 4);
  }

  // ----- properties and boxes that come and go

  /** A new box shows its property and is entered in both maps; no other box changes. */
  lemma CreateShows(s: State, p: Id, e: Id)
    requires Sound(s) && e !in s.shown
    ensures var t := Step(s, Create(p, e));
            && t.values == s.values && t.shown.Keys == s.shown.Keys + {e}
            && (forall x :: x in s.shown ==> t.shown[x] == s.shown[x])
            && t.owner == s.owner[e := p] && Edits(t.created, p, e)
            && (forall q, x :: Edits(s.created, q, x) ==> Edits(t.created, q, x))
            && t.shown[e] == if p in s.values then s.values[p] else Setting(0, 0, 0, 0, false)
  {}

  /** A box that goes is in neither map any more; no other box and no value changes. */
  lemma DestroyForgets(s: State, e: Id)
    requires Sound(s)
    ensures var t := Step(s, Destroy(e));
            && t.values == s.values && t.shown == s.shown - {e} && t.owner == s.owner - {e}
            && forall q, x :: Edits(t.created, q, x) <==> Edits(s.created, q, x) && x != e
  {
    if e in s.owner {
      WithoutElements(s.created[s.owner[e]], e);
      forall q, x
        ensures Edits(EditorDestroyed(s, e).created, q, x) <==> Edits(s.created, q, x) && x != e
      {
        assert Edits(s.created, q, e) ==> q == s.owner[e];
      }
    } else {
      assert s.shown - {e} == s.shown && s.owner - {e} == s.owner;
    }
  }

  lemma PropertyComes(s: State, p: Id)
    ensures Step(s, AddProperty(p)) ==
            s.(values := s.values[p := Setting(0, -0x8000_0000_0000_0000, 0x7fff_ffff_ffff_ffff, 1, false)])
    ensures Step(s, RemoveProperty(p)) == s.(values := s.values - {p})
  {}

  /** setText is called with a number out of range that the manager clips to the value it has: it says nothing, and the
      box keeps the number. */
  ghost predicate Stale(s: State, op: Op) {
    && op.SetText?
    && op.e in s.owner
    && s.owner[op.e] in s.values
    && !InRange(s.values[s.owner[op.e]], op.v)
    && Bound(s.values[s.owner[op.e]], op.v) == s.values[s.owner[op.e]].val
  }

  lemma TypedIff(s: State, e: Id, v: int)
    requires Sound(s) && e in s.shown
    ensures Sound(Typed(s, e, v))
    ensures Inv(s) ==> (Inv(Typed(s, e, v)) <==> !Stale(s, SetText(e, v)))
    ensures forall p :: Moved(s, Typed(s, e, v), p) ==> ShowsValue(Typed(s, e, v), p)
  {
    TypedFirst(s, e, v);
    var t := s.(shown := s.shown[e := s.shown[e].(val := v)]);
    SetValueHeals(t, s.owner[e], v);
  }

  /** The value is at its maximum of 10, and setText is called with 20: the box goes on showing 20. */
  lemma StaleExample()
    ensures var s := State(map[0 := Setting(10, 0, 10, 1, false)], map[1 := Setting(10, 0, 10, 1, false)],
                           map[0 := [1]], map[1 := 0]);
            && Inv(s)
            && Step(s, SetText(1, 20)) == s.(shown := map[1 := Setting(20, 0, 10, 1, false)])
            && !Inv(Step(s, SetText(1, 20)))
  {
    var s := State(map[0 := Setting(10, 0, 10, 1, false)], map[1 := Setting(10, 0, 10, 1, false)],
                   map[0 := [1]], map[1 := 0]);
    OneBox(s, Setting(10, 0, 10, 1, false));
    TypedIff(s, 1, 20);
  }

  lemma OneBox(s: State, d: Setting)
    requires s == State(map[0 := d], map[1 := d], map[0 := [1]], map[1 := 0]) && InRange(d, d.val) && d.step >= 0
    ensures Inv(s)
  {
    assert Edits(s.created, 0, 1);
  }

  lemma StepHeals(s: State, op: Op)
    requires Sound(s) && Possible(s, op)
    ensures Sound(Step(s, op))
    ensures forall p :: Moved(s, Step(s, op), p) ==> ShowsValue(Step(s, op), p)
    ensures Inv(s) ==> (Inv(Step(s, op)) <==> !Stale(s, op))
  {
    if op.StepBy? || op.SetText? || op.Enter? {
      BoxHeals(s, op);
    } else if op.AddProperty? || op.RemoveProperty? || op.Create? || op.Destroy? {
      CommonHeals(s, op);
    } else {
      ManagerHeals(s, op);
      HealsAll(s, Step(s, op), op.p);
    }
  }

  lemma HealsAll(s: State, t: State, p: Id)
    requires Heals(s, t, p)
    ensures Sound(t) && forall q :: Moved(s, t, q) ==> ShowsValue(t, q)
    ensures Inv(s) ==> Inv(t)
  {}

  /** The setters of the manager. */
  lemma ManagerHeals(s: State, op: Op)
    requires Sound(s)
    requires op.ChangeValue? || op.ChangeMinimum? || op.ChangeMaximum? || op.ChangeRange? || op.ChangeStep? ||
             op.ChangeReadOnly?
    ensures Heals(s, Step(s, op), op.p)
  {
    match op
    case ChangeValue(p, v) => SetValueHeals(s, p, v);
    case ChangeMinimum(p, v) => SetMinimumHeals(s, p, v);
    case ChangeMaximum(p, v) => SetMaximumHeals(s, p, v);
    case ChangeRange(p, v, w) => SetRangeHeals(s, p, v, w);
    case ChangeStep(p, v) => SetStepHeals(s, p, v);
    case ChangeReadOnly(p, flag) => SetReadOnlyHeals(s, p, flag);
  }

  /** Properties and boxes that come and go. */
  lemma CommonHeals(s: State, op: Op)
    requires Sound(s) && Possible(s, op) && (op.AddProperty? || op.RemoveProperty? || op.Create? || op.Destroy?)
    ensures Sound(Step(s, op)) && forall p :: !Moved(s, Step(s, op), p)
    ensures Inv(s) ==> Inv(Step(s, op))
  {
    match op
    case AddProperty(p) => AddSound(s, p);
    case RemoveProperty(p) => RemoveSound(s, p);
    case Create(p, e) => CreateSound(s, p, e);
    case Destroy(e) => DestroySound(s, e);
  }

  /** What the user does to a box, and setText. */
  lemma BoxHeals(s: State, op: Op)
    requires Sound(s) && Possible(s, op) && (op.StepBy? || op.SetText? || op.Enter?)
    ensures Sound(Step(s, op)) && forall p :: Moved(s, Step(s, op), p) ==> ShowsValue(Step(s, op), p)
    ensures Inv(s) ==> (Inv(Step(s, op)) <==> !Stale(s, op))
  {
    match op
    case StepBy(e, n) =>
      TypedIff(s, e, Stepped(s.shown[e], n));
      SteppedInRange(s, e, n);
    case SetText(e, v) => TypedIff(s, e, v);
    case Enter(e, v) =>
      FixedInRange(s, e, v);
      TypedIff(s, e, Fixed(s.shown[e], v));
  }

  lemma FixedInRange(s: State, e: Id, v: int)
    requires Near(s) && Ranges(s) && e in s.shown
    ensures Live(s, e) ==> InRange(s.values[s.owner[e]], Fixed(s.shown[e], v))
    ensures !Stale(s, SetText(e, Fixed(s.shown[e], v)))
  {}

  lemma SteppedInRange(s: State, e: Id, n: int)
    requires Near(s) && Ranges(s) && e in s.shown
    ensures Live(s, e) ==> InRange(s.values[s.owner[e]], Stepped(s.shown[e], n))
  {}

  lemma AddSound(s: State, p: Id)
    requires Sound(s) && p !in s.values && p !in s.created
    ensures Sound(Step(s, AddProperty(p)))
    ensures forall q :: ShowsValue(s, q) ==> ShowsValue(Step(s, AddProperty(p)), q)
  {
    var t := Step(s, AddProperty(p));
    forall e | Live(t, e)
      ensures Live(s, e)
    {
      assert Edits(s.created, s.owner[e], e);
    }
    StillShown(s, t);
  }

  lemma RemoveSound(s: State, p: Id)
    requires Sound(s)
    ensures Sound(Step(s, RemoveProperty(p)))
    ensures forall q :: ShowsValue(s, q) ==> ShowsValue(Step(s, RemoveProperty(p)), q)
  {
    StillShown(s, Step(s, RemoveProperty(p)));
  }

  /** In every run the two maps are inverse, values lie in their ranges, and boxes have their property's range. */
  lemma RunSound(ops: seq<Op>)
    requires Allowed(Possible, Step, EMPTY, ops)
    ensures Sound(Run(Step, EMPTY, ops))
  {
    forall s, op | Sound(s) && Possible(s, op)
      ensures Sound(Step(s, op))
    {
      StepHeals(s, op);
    }
    RunKeeps(Sound, Possible, Step, EMPTY, ops);
  }

  ghost predicate Legal(s: State, op: Op) {
    Possible(s, op) && !Stale(s, op)
  }

  /** What the program and its user do: numbers reach a box through its line edit, and no one calls setText. */
  ghost predicate ByUser(s: State, op: Op) {
    Possible(s, op) && !op.SetText?
  }

  /** Every spin box shows its property's value after every run of the user's and the program's operations. */
  lemma RunInv(ops: seq<Op>)
    requires Allowed(ByUser, Step, EMPTY, ops)
    ensures Inv(Run(Step, EMPTY, ops))
  {
    forall s, op | Inv(s) && ByUser(s, op)
      ensures Inv(Step(s, op))
    {
      StepHeals(s, op);
    }
    RunKeeps(Inv, ByUser, Step, EMPTY, ops);
  }

  /** The same with direct calls of setText, as long as none of them is stale. */
  lemma RunLegal(ops: seq<Op>)
    requires Allowed(Legal, Step, EMPTY, ops)
    ensures Inv(Run(Step, EMPTY, ops))
  {
    forall s, op | Inv(s) && Legal(s, op)
      ensures Inv(Step(s, op))
    {
      StepHeals(s, op);
    }
    RunKeeps(Inv, Legal, Step, EMPTY, ops);
  }
}
