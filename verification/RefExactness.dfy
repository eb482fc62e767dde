/** Exactly when expansion equals plain unfolding: no reference that the unfolding keeps
    is used again beside itself. The condition looks at plain unfolding only. */
module RefExactness {
  import opened Text
  import opened Json
  import opened Pointer
  import opened RefExpansion
  import opened RefUnfolding

  /** The pointers followed at the top of `v`, before any object is opened. */
  ghost function Top(d: Ranking, bound: nat, v: Json): set<string>
    requires d.Acyclic() && d.Covers(v, bound)
    decreases bound
  {
    if !v.Obj? || LocalRef(v.fields).None? then {}
    else
      var pointer := LocalRef(v.fields).value;
      if Lookup(d.root, pointer).None? then {pointer}
      else
        CoversTarget(d, v.fields, pointer, bound);
        {pointer} + Top(d, d.rank(pointer), Lookup(d.root, pointer).value)
  }

  /** The pointers that unfolding `v` follows for what it keeps, when the top-level keys in
      `dropped` are overwritten from outside. */
  ghost function Uses(d: Ranking, bound: nat, v: Json, dropped: set<string>): set<string>
    requires d.Acyclic() && d.Covers(v, bound)
    decreases bound, v, 1
  {
    match v
    case Obj(m) =>
      var ref := LocalRef(m);
      if ref.None? then FieldUses(d, bound, v, dropped)
      else if Lookup(d.root, ref.value).None? then {ref.value} + FieldUses(d, bound, v, dropped)
      else
        CoversTarget(d, m, ref.value, bound);
        var low, target := d.rank(ref.value), Lookup(d.root, ref.value).value;
        if |m| == 1 then {ref.value} + Uses(d, low, target, dropped)
        else if Unfold(d, low, target).Obj? then
          {ref.value} + Uses(d, low, target, dropped + (m.Keys - {REF})) + FieldUses(d, bound, v, dropped + {REF})
        else {ref.value} + Top(d, low, target) + FieldUses(d, bound, v, dropped)
    case Arr(items) =>
      ItemsCovered(d, bound, items);
      set i, p | 0 <= i < |items| && p in Uses(d, bound, items[i], {}) :: p
    case _ => {}
  }

  ghost function FieldUses(d: Ranking, bound: nat, v: Json, dropped: set<string>): set<string>
    requires d.Acyclic() && d.Covers(v, bound) && v.Obj?
    decreases bound, v, 0
  {
    FieldsCovered(d, bound, v.fields);
    set k, p | k in v.fields && k !in dropped && p in Uses(d, bound, v.fields[k], {}) :: p
  }

  lemma ItemsCovered(d: Ranking, bound: nat, items: seq<Json>)
    requires d.Covers(Arr(items), bound)
    ensures forall i :: 0 <= i < |items| ==> d.Covers(items[i], bound)
  {
    forall i | 0 <= i < |items| ensures d.Covers(items[i], bound) {
      CoversItem(d, items, i, bound);
    }
  }

  lemma FieldsCovered(d: Ranking, bound: nat, m: Fields)
    requires d.Covers(Json.Obj(m), bound)
    ensures forall k :: k in m ==> d.Covers(m[k], bound)
  {
    forall k | k in m ensures d.Covers(m[k], bound) {
      CoversField(d, m, k, bound);
    }
  }

  /** No reference that is kept is used again by what is kept beside it. */
  ghost predicate Clear(d: Ranking, bound: nat, v: Json, dropped: set<string>)
    requires d.Acyclic() && d.Covers(v, bound)
    decreases bound, v, 1
  {
    match v
    case Obj(m) =>
      var ref := LocalRef(m);
      if ref.None? || Lookup(d.root, ref.value).None? then FieldsClear(d, bound, v, dropped)
      else
        CoversTarget(d, m, ref.value, bound);
        var low, target := d.rank(ref.value), Lookup(d.root, ref.value).value;
        if |m| == 1 then Clear(d, low, target, dropped)
        else if Unfold(d, low, target).Obj? then
          && Clear(d, low, target, dropped + (m.Keys - {REF}))
          && FieldsClear(d, bound, v, dropped + {REF})
          && ref.value !in FieldUses(d, bound, v, dropped + {REF})
        else FieldsClear(d, bound, v, dropped)
    case Arr(items) =>
      ItemsCovered(d, bound, items);
      forall i :: 0 <= i < |items| ==> Clear(d, bound, items[i], {})
    case _ => true
  }

  ghost predicate FieldsClear(d: Ranking, bound: nat, v: Json, dropped: set<string>)
    requires d.Acyclic() && d.Covers(v, bound) && v.Obj?
    decreases bound, v, 0
  {
    FieldsCovered(d, bound, v.fields);
    forall k :: k in v.fields && k !in dropped ==> Clear(d, bound, v.fields[k], {})
  }

  // -------------------------------------------------------------- ranks of uses

  lemma {:induction false} TopBelow(d: Ranking, bound: nat, v: Json)
    requires d.Acyclic() && d.Covers(v, bound)
    ensures forall p :: p in Top(d, bound, v) ==> d.rank(p) < bound
    decreases bound
  {
    hide Lookup, RefPointers, LocalRef;
    if v.Obj? && LocalRef(v.fields).Some? {
      var pointer := LocalRef(v.fields).value;
      NotOpen(d, bound, {}, v.fields);
      if Lookup(d.root, pointer).Some? {
        CoversTarget(d, v.fields, pointer, bound);
        TopBelow(d, d.rank(pointer), Lookup(d.root, pointer).value);
      }
    }
  }

  lemma {:induction false} UsesBelow(d: Ranking, bound: nat, v: Json, dropped: set<string>)
    requires d.Acyclic() && d.Covers(v, bound)
    ensures forall p :: p in Uses(d, bound, v, dropped) ==> d.rank(p) < bound
    decreases bound, v, 1
  {
    hide Lookup, RefPointers, LocalRef, Unfold, Top;
    match v
    case Obj(m) =>
      var ref := LocalRef(m);
      FieldUsesBelow(d, bound, v, dropped);
      FieldUsesBelow(d, bound, v, dropped + {REF});
      NotOpen(d, bound, {}, m);
      if ref.Some? && Lookup(d.root, ref.value).Some? {
        CoversTarget(d, m, ref.value, bound);
        var low, target := d.rank(ref.value), Lookup(d.root, ref.value).value;
        TopBelow(d, low, target);
        UsesBelow(d, low, target, dropped);
        UsesBelow(d, low, target, dropped + (m.Keys - {REF}));
      }
    case Arr(items) =>
      ItemsCovered(d, bound, items);
      forall i | 0 <= i < |items| ensures forall p :: p in Uses(d, bound, items[i], {}) ==> d.rank(p) < bound {
        UsesBelow(d, bound, items[i], {});
      }
    case _ =>
  }

  lemma {:induction false} FieldUsesBelow(d: Ranking, bound: nat, v: Json, dropped: set<string>)
    requires d.Acyclic() && d.Covers(v, bound) && v.Obj?
    ensures forall p :: p in FieldUses(d, bound, v, dropped) ==> d.rank(p) < bound
    decreases bound, v, 0
  {
    hide Lookup, RefPointers, LocalRef;
    FieldsCovered(d, bound, v.fields);
    forall k | k in v.fields ensures forall p :: p in Uses(d, bound, v.fields[k], {}) ==> d.rank(p) < bound {
      UsesBelow(d, bound, v.fields[k], {});
    }
  }

  // ------------------------------------------------------------------ exactness

  /** Unmarked, apart from the fields under the dropped keys. */
  ghost predicate UnmarkedBut(e: Json, dropped: set<string>) {
    match e
    case Obj(m) => MARK !in m && forall k :: k in m && k !in dropped ==> Unmarked(m[k])
    case _ => Unmarked(e)
  }

  /** A target that unfolds to no object expands to one exactly when an open pointer is
      met at its top, and then carries the marker. */
  lemma {:induction false} TopExact(d: Ranking, bound: nat, seen: set<string>, v: Json)
    requires d.Acyclic() && d.Covers(v, bound) && !Unfold(d, bound, v).Obj?
    ensures Expand(d.root, seen, v).Obj? <==> !(seen !! Top(d, bound, v))
    ensures Expand(d.root, seen, v).Obj? ==> MARK in Expand(d.root, seen, v).fields
    decreases bound
  {
    hide Lookup, RefPointers, LocalRef, Unseen;
    ExpandAgrees(d, bound, seen, v);
    if v.Obj? {
      var pointer := LocalRef(v.fields).value;
      CoversTarget(d, v.fields, pointer, bound);
      var low, target := d.rank(pointer), Lookup(d.root, pointer).value;
      TopBelow(d, low, target);
      TopExact(d, low, seen + {pointer}, target);
    }
  }

  /** What is kept of an expansion is unmarked exactly when the unfolding is clear and uses
      no open pointer. */
  lemma {:induction false} MarkExact(d: Ranking, bound: nat, seen: set<string>, v: Json, dropped: set<string>)
    requires d.Acyclic() && d.Covers(v, bound) && Unmarked(d.root) && Unmarked(v) && MARK !in dropped
    ensures UnmarkedBut(Expand(d.root, seen, v), dropped) <==>
            Clear(d, bound, v, dropped) && seen !! Uses(d, bound, v, dropped)
    decreases bound, v, 3
  {
    hide Lookup, RefPointers, LocalRef, Unseen, Unfold, Top;
    match v
    case Obj(m) =>
      var ref := LocalRef(m);
      if ref.None? || Lookup(d.root, ref.value).None? {
        FieldsExact(d, bound, seen, v, dropped);
      } else if ref.value !in seen {
        OpenedExact(d, bound, seen, v, dropped, ref.value);
      } else {
        assert ref.value in Uses(d, bound, v, dropped);
      }
    case Arr(items) =>
      ItemsExact(d, bound, seen, items);
    case _ =>
  }

  lemma {:induction false} ItemsExact(d: Ranking, bound: nat, seen: set<string>, items: seq<Json>)
    requires d.Acyclic() && d.Covers(Arr(items), bound) && Unmarked(d.root) && Unmarked(Arr(items))
    ensures Unmarked(Expand(d.root, seen, Arr(items))) <==>
            Clear(d, bound, Arr(items), {}) && seen !! Uses(d, bound, Arr(items), {})
    decreases bound, Arr(items), 0
  {
    hide Lookup, RefPointers, LocalRef, Unseen, Unfold, Top;
    ItemsCovered(d, bound, items);
    forall i | 0 <= i < |items|
      ensures Unmarked(Expand(d.root, seen, items[i])) <==>
              Clear(d, bound, items[i], {}) && seen !! Uses(d, bound, items[i], {})
    {
      MarkExact(d, bound, seen, items[i], {});
    }
    ItemUses(d, bound, seen, items);
    var e := Expand(d.root, seen, Arr(items)).items;
    if Unmarked(Arr(e)) {
      forall i | 0 <= i < |items| ensures Clear(d, bound, items[i], {}) && seen !! Uses(d, bound, items[i], {}) {
        assert Unmarked(e[i]);
      }
    } else {
      var i :| 0 <= i < |items| && !Unmarked(e[i]);
      assert !Clear(d, bound, items[i], {}) || !(seen !! Uses(d, bound, items[i], {}));
    }
  }

  lemma ItemUses(d: Ranking, bound: nat, seen: set<string>, items: seq<Json>)
    requires d.Acyclic() && d.Covers(Arr(items), bound)
    requires forall i :: 0 <= i < |items| ==> d.Covers(items[i], bound)
    ensures seen !! Uses(d, bound, Arr(items), {}) <==>
            forall i :: 0 <= i < |items| ==> seen !! Uses(d, bound, items[i], {})
  {
    var uses := Uses(d, bound, Arr(items), {});
    assert forall i, p :: 0 <= i < |items| && p in Uses(d, bound, items[i], {}) ==> p in uses;
    assert forall p :: p in uses ==> exists i :: 0 <= i < |items| && p in Uses(d, bound, items[i], {});
  }

  lemma {:induction false} FieldsExact(d: Ranking, bound: nat, seen: set<string>, v: Json, dropped: set<string>)
    requires d.Acyclic() && d.Covers(v, bound) && Unmarked(d.root) && Unmarked(v) && v.Obj?
    ensures (forall k :: k in v.fields && k !in dropped ==> Unmarked(ExpandFields(d.root, seen, v).fields[k])) <==>
            FieldsClear(d, bound, v, dropped) && seen !! FieldUses(d, bound, v, dropped)
    decreases bound, v, 0
  {
    hide Lookup, RefPointers, LocalRef, Unseen, Unfold, Top;
    FieldsCovered(d, bound, v.fields);
    forall k | k in v.fields
      ensures Unmarked(ExpandFields(d.root, seen, v).fields[k]) <==>
              Clear(d, bound, v.fields[k], {}) && seen !! Uses(d, bound, v.fields[k], {})
    {
      MarkExact(d, bound, seen, v.fields[k], {});
    }
    assert seen !! FieldUses(d, bound, v, dropped) <==>
      forall k :: k in v.fields && k !in dropped ==> seen !! Uses(d, bound, v.fields[k], {});
  }

  lemma {:induction false} OpenedExact(d: Ranking, bound: nat, seen: set<string>, v: Json, dropped: set<string>, pointer: string)
    requires d.Acyclic() && d.Covers(v, bound) && Unmarked(d.root) && Unmarked(v) && MARK !in dropped && v.Obj?
    requires LocalRef(v.fields) == Some(pointer) && pointer !in seen && Lookup(d.root, pointer).Some?
    ensures UnmarkedBut(Expand(d.root, seen, v), dropped) <==>
            Clear(d, bound, v, dropped) && seen !! Uses(d, bound, v, dropped)
    decreases bound, v, 2
  {
    hide Lookup, RefPointers, LocalRef, Unseen;
    var m, open := v.fields, seen + {pointer};
    CoversTarget(d, m, pointer, bound);
    var low, target := d.rank(pointer), Lookup(d.root, pointer).value;
    LookupUnmarked(d.root, pointer);
    if |m| == 1 {
      UsesBelow(d, low, target, dropped);
      MarkExact(d, low, open, target, dropped);
    } else if Unfold(d, low, target).Obj? {
      OverlaidExact(d, bound, seen, v, dropped, pointer);
    } else {
      StuckExact(d, bound, seen, v, dropped, pointer);
    }
  }

  /** A reference with siblings whose target unfolds to no object stays as it is. */
  lemma {:induction false} StuckExact(d: Ranking, bound: nat, seen: set<string>, v: Json, dropped: set<string>, pointer: string)
    requires d.Acyclic() && d.Covers(v, bound) && Unmarked(d.root) && Unmarked(v) && MARK !in dropped && v.Obj?
    requires LocalRef(v.fields) == Some(pointer) && pointer !in seen && Lookup(d.root, pointer).Some? && |v.fields| != 1
    requires d.rank(pointer) < bound && d.Covers(Lookup(d.root, pointer).value, d.rank(pointer))
    requires !Unfold(d, d.rank(pointer), Lookup(d.root, pointer).value).Obj?
    ensures UnmarkedBut(Expand(d.root, seen, v), dropped) <==>
            Clear(d, bound, v, dropped) && seen !! Uses(d, bound, v, dropped)
    decreases bound, v, 1
  {
    hide Lookup, RefPointers, LocalRef, Unseen, Unfold, Top;
    var low, target := d.rank(pointer), Lookup(d.root, pointer).value;
    TopBelow(d, low, target);
    TopExact(d, low, seen + {pointer}, target);
    FieldsExact(d, bound, seen, v, dropped);
  }

  lemma {:induction false} OverlaidExact(d: Ranking, bound: nat, seen: set<string>, v: Json, dropped: set<string>, pointer: string)
    requires d.Acyclic() && d.Covers(v, bound) && Unmarked(d.root) && Unmarked(v) && MARK !in dropped && v.Obj?
    requires LocalRef(v.fields) == Some(pointer) && pointer !in seen && Lookup(d.root, pointer).Some? && |v.fields| != 1
    requires d.rank(pointer) < bound && d.Covers(Lookup(d.root, pointer).value, d.rank(pointer))
    requires Unfold(d, d.rank(pointer), Lookup(d.root, pointer).value).Obj?
    ensures UnmarkedBut(Expand(d.root, seen, v), dropped) <==>
            Clear(d, bound, v, dropped) && seen !! Uses(d, bound, v, dropped)
    decreases bound, v, 1
  {
    hide Lookup, RefPointers, LocalRef, Unseen, Top, Unfold;
    var m, open := v.fields, seen + {pointer};
    var low, target := d.rank(pointer), Lookup(d.root, pointer).value;
    var siblings := m.Keys - {REF};
    LookupUnmarked(d.root, pointer);
    UsesBelow(d, low, target, dropped + siblings);
    MarkExact(d, low, open, target, dropped + siblings);
    FieldsExact(d, bound, open, v, dropped + {REF});
    ExpandAgrees(d, low, open, target);
    OverlayMarks(Expand(d.root, open, target).fields, ExpandFields(d.root, open, v).fields, dropped);
  }

  lemma OverlayMarks(base: Fields, over: Fields, dropped: set<string>)
    requires MARK !in over
    ensures UnmarkedBut(Json.Obj(base + (over - {REF})), dropped) <==>
            UnmarkedBut(Json.Obj(base), dropped + (over.Keys - {REF})) &&
            forall k :: k in over && k !in dropped + {REF} ==> Unmarked(over[k])
  {
    var out := base + (over - {REF});
    assert forall k :: k in over && k != REF ==> k in out && out[k] == over[k];
    assert forall k :: k in base && k !in over.Keys - {REF} ==> k in out && out[k] == base[k];
  }

  /** On a ranked document that holds no markers itself, expanding a value gives its plain
      unfolding if and only if the unfolding is clear. */
  lemma ExpandIsUnfoldExactly(d: Ranking, bound: nat, v: Json)
    requires d.Acyclic() && d.Covers(v, bound) && Unmarked(d.root) && Unmarked(v)
    ensures Expand(d.root, {}, v) == Unfold(d, bound, v) <==> Clear(d, bound, v, {})
  {
    ExpandExact(d, bound, {}, v);
    MarkExact(d, bound, {}, v, {});
    UnmarkedButNothing(Expand(d.root, {}, v));
  }

  lemma UnmarkedButNothing(e: Json)
    ensures UnmarkedBut(e, {}) <==> Unmarked(e)
  {
  }
}
