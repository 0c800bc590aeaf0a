/** The manager, the spin boxes and their factory, which call each other through signals. */
module LongEditors {
  import opened LongProperty

  class SpinBoxFactory {
    var values: map<Id, Setting>
    var shown: map<Id, Setting>
    var created: map<Id, seq<Id>>
    var owner: map<Id, Id>
    var blocked: set<Id>

    ghost function St(): State
      reads this
    {
      State(values, shown, created, owner)
    }

    constructor ()
      ensures St() == EMPTY && Inv(St()) && blocked == {}
    {
      values, shown, created, owner, blocked := map[], map[], map[], map[], {};
    }

    // ----- the manager

    method InitializeProperty(p: Id)
      modifies this
      ensures St() == old(St()).(values := old(values)[p := INITIAL]) && blocked == old(blocked)
    {
      values := values[p := INITIAL];
    }

    method UninitializeProperty(p: Id)
      modifies this
      ensures St() == old(St()).(values := old(values) - {p}) && blocked == old(blocked)
    {
      values := values - {p};
    }

    method SetValue(p: Id, v: int)
      requires Maps(St()) && blocked == {}
      modifies this
      ensures St() == LongProperty.SetValue(old(St()), p, v) && blocked == {}
      decreases 3
    {
      if p !in values || values[p].val == v {
        return;
      }
      var oldVal := values[p].val;
      values := values[p := values[p].(val := Bound(values[p], v))];
      if values[p].val == oldVal {
        assert values == old(values);
        return;
      }
      SlotPropertyChanged(p, values[p].val);
    }

    method SetMinimum(p: Id, m: int)
      requires Maps(St()) && blocked == {}
      modifies this
      ensures St() == LongProperty.SetMinimum(old(St()), p, m) && blocked == {}
    {
      if p !in values || values[p].min == m {
        return;
      }
      SetBorders(p, WithMinimum(values[p], m));
    }

    method SetMaximum(p: Id, m: int)
      requires Maps(St()) && blocked == {}
      modifies this
      ensures St() == LongProperty.SetMaximum(old(St()), p, m) && blocked == {}
    {
      if p !in values || values[p].max == m {
        return;
      }
      SetBorders(p, WithMaximum(values[p], m));
    }

    method SetRange(p: Id, a: int, b: int)
      requires Maps(St()) && blocked == {}
      modifies this
      ensures St() == LongProperty.SetRange(old(St()), p, a, b) && blocked == {}
    {
      var from, to := a, b;
      if from > to {
        from, to := to, from;
      }
      if p !in values || (values[p].min == from && values[p].max == to) {
        return;
      }
      SetBorders(p, WithMaximum(WithMinimum(values[p], from), to));
    }

    /** What setBorderValue and setBorderValues have in common: the signals. */
    method SetBorders(p: Id, d: Setting)
      requires Maps(St()) && blocked == {} && p in values
      modifies this
      ensures St() == StoreRange(old(St()), p, d) && blocked == {}
    {
      var oldVal := values[p].val;
      values := values[p := d];
      SlotRangeChanged(p, d.min, d.max);
      if d.val == oldVal {
        return;
      }
      SlotPropertyChanged(p, d.val);
    }

    method SetSingleStep(p: Id, n: int)
      requires Maps(St()) && blocked == {}
      modifies this
      ensures St() == LongProperty.SetSingleStep(old(St()), p, n) && blocked == {}
    {
      var step := if n < 0 then 0 else n;
      if p !in values || values[p].step == step {
        return;
      }
      values := values[p := values[p].(step := step)];
      SlotSingleStepChanged(p, step);
    }

    method SetReadOnly(p: Id, readOnly: bool)
      requires Maps(St()) && blocked == {}
      modifies this
      ensures St() == LongProperty.SetReadOnly(old(St()), p, readOnly) && blocked == {}
    {
      if p !in values || values[p].readOnly == readOnly {
        return;
      }
      values := values[p := values[p].(readOnly := readOnly)];
      SlotReadOnlyChanged(p, readOnly);
    }

    // ----- the factory's slots

    method SlotPropertyChanged(p: Id, v: int)
      requires Maps(St()) && blocked == {} && p in values && values[p].val == v
      modifies this
      ensures St() == Publish(old(St()), p, ShowValue) && blocked == {}
      decreases 2
    {
      if p !in created {
        assert shown == Publish(St(), p, ShowValue).shown;
        return;
      }
      var editors := created[p];
      for i := 0 to |editors|
        invariant St() == old(St()).(shown := shown) && blocked == {}
        invariant shown == Partly(old(St()), editors[..i], p, ShowValue)
      {
        var e := editors[i];
        assert Edits(created, p, e);
        if shown[e].val != v {
          blocked := blocked + {e};
          BoxSetValue(e, v);
          blocked := blocked - {e};
        }
        PartlyStep(old(St()), editors, i, p, ShowValue);
      }
      assert shown == Publish(old(St()), p, ShowValue).shown;
    }

    method SlotRangeChanged(p: Id, min: int, max: int)
      requires Maps(St()) && blocked == {} && p in values && values[p].min == min && values[p].max == max
      modifies this
      ensures St() == Publish(old(St()), p, ShowRange) && blocked == {}
      decreases 2, 1
    {
      if p !in created {
        assert shown == Publish(St(), p, ShowRange).shown;
        return;
      }
      var editors := created[p];
      for i := 0 to |editors|
        invariant St() == old(St()).(shown := shown) && blocked == {}
        invariant shown == Partly(old(St()), editors[..i], p, ShowRange)
      {
        var e := editors[i];
        assert Edits(created, p, e);
        BoxFollow(e, p, min, max);
        PartlyStep(old(St()), editors, i, p, ShowRange);
      }
      assert shown == Publish(old(St()), p, ShowRange).shown;
    }

    /** One box takes over range and value, with its signals blocked. */
    method BoxFollow(e: Id, p: Id, min: int, max: int)
      requires Maps(St()) && blocked == {} && e in shown && p in values
      requires values[p].min == min && values[p].max == max
      modifies this
      ensures blocked == {}
      ensures St() == old(St()).(shown := old(shown)[e := ShowRange(old(shown)[e], old(values)[p])])
      decreases 2, 0
    {
      blocked := blocked + {e};
      shown := shown[e := WithRange(shown[e], min, max)];
      BoxSetValue(e, values[p].val);
      blocked := blocked - {e};
    }

    method SlotSingleStepChanged(p: Id, step: int)
      requires Maps(St()) && p in values && values[p].step == step
      modifies this`shown
      ensures St() == Publish(old(St()), p, ShowStep)
    {
      if p in created {
        var editors := created[p];
        for i := 0 to |editors|
          invariant shown == Partly(old(St()), editors[..i], p, ShowStep)
        {
          var e := editors[i];
          assert Edits(created, p, e);
          shown := shown[e := shown[e].(step := step)];
          PartlyStep(old(St()), editors, i, p, ShowStep);
        }
      }
      assert shown == Publish(old(St()), p, ShowStep).shown;
    }

    method SlotReadOnlyChanged(p: Id, readOnly: bool)
      requires Maps(St()) && p in values && values[p].readOnly == readOnly
      modifies this`shown
      ensures St() == Publish(old(St()), p, ShowReadOnly)
    {
      if p in created {
        var editors := created[p];
        for i := 0 to |editors|
          invariant shown == Partly(old(St()), editors[..i], p, ShowReadOnly)
        {
          var e := editors[i];
          assert Edits(created, p, e);
          shown := shown[e := shown[e].(readOnly := readOnly)];
          PartlyStep(old(St()), editors, i, p, ShowReadOnly);
        }
      }
      assert shown == Publish(old(St()), p, ShowReadOnly).shown;
    }

    /** The slot for the number of box e. */
    method SlotSetValue(e: Id, v: int)
      requires Maps(St()) && blocked == {}
      modifies this
      ensures blocked == {}
      ensures St() == if e in old(owner) then LongProperty.SetValue(old(St()), old(owner)[e], v) else old(St())
      decreases 4
    {
      if e in owner {
        SetValue(owner[e], v);
      }
    }

    method CreateEditor(p: Id, e: Id)
      requires e !in owner && e !in shown
      modifies this
      ensures St() == LongProperty.CreateEditor(old(St()), p, e) && blocked == old(blocked)
    {
      if p !in created {
        created := created[p := []];
      }
      created := created[p := created[p] + [e]];
      owner := owner[e := p];
      var d := Read(values, p);
      var box := Setting(0, 0, 0, d.step, false);
      box := WithRange(box, d.min, d.max);
      box := box.(val := d.val);
      box := box.(readOnly := d.readOnly);
      shown := shown[e := box];
    }

    method SlotEditorDestroyed(e: Id)
      modifies this
      requires Maps(St())
      ensures St() == LongProperty.EditorDestroyed(old(St()), e) && blocked == old(blocked)
    {
      if e in owner {
        var p := owner[e];
        if p in created {
          var rest := Without(created[p], e);
          created := if rest == [] then created - {p} else created[p := rest];
        }
        owner := owner - {e};
        shown := shown - {e};
      }
    }

    // ----- the spin boxes

    /** The user has finished editing: the number is fixed up unless it is acceptable, and goes to setText. */
    method BoxEditingFinished(e: Id, v: int)
      requires Maps(St()) && e in shown && blocked == {}
      modifies this
      ensures blocked == {} && St() == Typed(old(St()), e, Fixed(old(shown[e]), v))
    {
      var n := v;
      if !Acceptable(shown[e], n) {
        n := Fixup(shown[e], n);
      }
      BoxSetValue(e, n);
    }

    static method Fixup(box: Setting, v: int) returns (n: int)
      ensures !Acceptable(box, v) ==> n == Fixed(box, v)
      ensures Acceptable(box, v) ==> n == v
    {
      n := v;
      if n < box.min {
        n := box.min;
      }
      if n > box.max {
        n := box.max;
      }
    }

    /** setValue, and setText with the number in its text. */
    method BoxSetValue(e: Id, v: int)
      requires Maps(St()) && e in shown && (blocked == {} || e in blocked)
      modifies this
      ensures blocked == old(blocked)
      ensures St() ==
        if e in blocked then old(St()).(shown := old(shown)[e := old(shown[e]).(val := v)]) else Typed(old(St()), e, v)
      decreases if e in blocked then 1 else 6
    {
      shown := shown[e := shown[e].(val := v)];
      Emit(e);
    }

    method BoxStepBy(e: Id, n: int)
      requires Maps(St()) && e in shown && blocked == {}
      modifies this
      ensures blocked == {} && St() == Typed(old(St()), e, Stepped(old(shown[e]), n))
    {
      var v := shown[e].val + n * shown[e].step;
      if v < shown[e].min {
        v := shown[e].min;
      }
      if v > shown[e].max {
        v := shown[e].max;
      }
      shown := shown[e := shown[e].(val := v)];
      Emit(e);
    }

    /** valueChanged reaches the factory unless signals are blocked. */
    method Emit(e: Id)
      requires Maps(St()) && e in shown && (blocked == {} || e in blocked)
      modifies this
      ensures blocked == old(blocked)
      ensures St() == if e in blocked || e !in old(owner) then old(St())
                      else LongProperty.SetValue(old(St()), old(owner)[e], old(shown[e]).val)
      decreases if e in blocked then 0 else 5
    {
      if e !in blocked {
        SlotSetValue(e, shown[e].val);
      }
    }
  }

  /** A publication that has come as far as the listed boxes. */
  ghost function Partly(s: State, es: seq<Id>, p: Id, show: (Setting, Setting) -> Setting): map<Id, Setting>
    requires p in s.values
  {
    map e | e in s.shown :: if e in es then show(s.shown[e], s.values[p]) else s.shown[e]
  }

  lemma PartlyStep(s: State, es: seq<Id>, i: nat, p: Id, show: (Setting, Setting) -> Setting)
    requires p in s.values && i < |es| && es[i] in s.shown
    requires forall box :: show(show(box, s.values[p]), s.values[p]) == show(box, s.values[p])
    ensures var part := Partly(s, es[..i], p, show);
            && Partly(s, es[..i + 1], p, show) == part[es[i] := show(part[es[i]], s.values[p])]
            && (part[es[i]] == show(part[es[i]], s.values[p]) ==> Partly(s, es[..i + 1], p, show) == part)
  {
    assert es[..i + 1] == es[..i] + [es[i]];
  }
}
