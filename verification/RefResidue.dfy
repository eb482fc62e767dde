/** What expansion leaves behind: exactly when the only local references in a result are those
    that could not be replaced, on any document, cyclic or not. */
module RefResidue {
  import opened Text
  import opened Json
  import opened Pointer
  import opened RefExpansion
  import opened Sets

  /** Following at most `n` lone references from `v` ends at something that is no object. */
  ghost predicate EndsOutside(root: Json, v: Json, n: nat)
    decreases n
  {
    !v.Obj? ||
    (n > 0 && |v.fields| == 1 && LocalRef(v.fields).Some? && Lookup(root, LocalRef(v.fields).value).Some? &&
     EndsOutside(root, Lookup(root, LocalRef(v.fields).value).value, n - 1))
  }

  /** A reference may stay in an object of this many keys: its target is missing, or it has
      siblings and its target ends at no object to lay them over. */
  ghost predicate MayStayAmong(root: Json, pointer: string, keys: nat) {
    Lookup(root, pointer).None? ||
    (keys > 1 && exists n: nat :: EndsOutside(root, Lookup(root, pointer).value, n))
  }

  ghost predicate MayStay(root: Json, m: Fields, pointer: string) {
    MayStayAmong(root, pointer, |m|)
  }

  /** Every local reference in the value may stay. */
  ghost predicate Settled(root: Json, r: Json) {
    match r
    case Obj(m) =>
      (LocalRef(m).Some? ==> MayStay(root, m, LocalRef(m).value)) && forall k :: k in m ==> Settled(root, m[k])
    case Arr(items) => forall i :: 0 <= i < |items| ==> Settled(root, items[i])
    case _ => true
  }

  /** The same when these keys of an object are laid over. */
  ghost predicate SettledBut(root: Json, r: Json, dropped: set<string>) {
    if r.Obj? then
      && (LocalRef(r.fields).Some? ==> MayStayAmong(root, LocalRef(r.fields).value, |r.fields.Keys + dropped|))
      && FieldsSettled(root, r.fields, dropped)
    else Settled(root, r)
  }

  ghost predicate FieldsSettled(root: Json, m: Fields, dropped: set<string>) {
    forall k :: k in m && k !in dropped ==> Settled(root, m[k])
  }

  // ------------------------------------------------- where lone references lead

  /** The value that the lone references from `v` lead to, while the pointers in `seen` are
      open; it is followed through no siblings. */
  ghost function End(root: Json, seen: set<string>, v: Json): Json
    decreases Unseen(root, seen, v)
  {
    if v.Obj? && |v.fields| == 1 && Opens(root, seen, v.fields) then
      var pointer := LocalRef(v.fields).value;
      OwnRef(v.fields);
      LookupRefs(root, pointer);
      UnseenTarget(root, seen, v, pointer, Lookup(root, pointer).value);
      End(root, seen + {pointer}, Lookup(root, pointer).value)
    else v
  }

  /** The object is a reference that expansion follows. */
  predicate Opens(root: Json, seen: set<string>, m: Fields) {
    LocalRef(m).Some? && LocalRef(m).value !in seen && Lookup(root, LocalRef(m).value).Some?
  }

  /** Expansion gives an object, or a text, exactly where the lone references end at one. */
  lemma {:induction false} EndDecides(root: Json, seen: set<string>, v: Json)
    ensures Expand(root, seen, v).Obj? <==> End(root, seen, v).Obj?
    ensures forall s :: Expand(root, seen, v) == Str(s) <==> End(root, seen, v) == Str(s)
    decreases Unseen(root, seen, v)
  {
    hide Lookup, RefPointers, LocalRef, Unseen;
    if v.Obj? && |v.fields| == 1 && Opens(root, seen, v.fields) {
      var pointer := LocalRef(v.fields).value;
      OwnRef(v.fields);
      LookupRefs(root, pointer);
      UnseenTarget(root, seen, v, pointer, Lookup(root, pointer).value);
      EndDecides(root, seen + {pointer}, Lookup(root, pointer).value);
    }
  }

  /** What expands to no object ends outside objects. */
  lemma {:induction false} NonObjectEnds(root: Json, seen: set<string>, v: Json)
    requires !Expand(root, seen, v).Obj?
    ensures exists n: nat :: EndsOutside(root, v, n)
    decreases Unseen(root, seen, v)
  {
    hide Lookup, RefPointers, LocalRef, Unseen;
    if !v.Obj? {
      assert EndsOutside(root, v, 0);
    } else {
      var pointer := LocalRef(v.fields).value;
      var target := Lookup(root, pointer).value;
      OwnRef(v.fields);
      LookupRefs(root, pointer);
      UnseenTarget(root, seen, v, pointer, target);
      NonObjectEnds(root, seen + {pointer}, target);
      var n: nat :| EndsOutside(root, target, n);
      assert EndsOutside(root, v, n + 1);
    }
  }

  // ---------------------------------------------------------------- the condition

  /** What a kept object gets under `$ref`, if that is a local reference. */
  ghost function MadeRef(root: Json, seen: set<string>, m: Fields): Option<string> {
    if REF in m && End(root, seen, m[REF]).Str? then ReferenceToPointer(End(root, seen, m[REF]).s) else None
  }

  /** Read off the value: wherever an object that is no local reference is kept, and the lone
      references from its `$ref` end at a text that is one, that reference may stay among the
      object's keys and those laid over it. Under the keys in `dropped` nothing is kept. */
  ghost predicate Tight(root: Json, seen: set<string>, v: Json, dropped: set<string>)
    decreases Unseen(root, seen, v), v, 1
  {
    match v
    case Obj(m) =>
      if LocalRef(m).None? then
        && (MadeRef(root, seen, m).Some? ==> MayStayAmong(root, MadeRef(root, seen, m).value, |m.Keys + dropped|))
        && TightFields(root, seen, v, dropped)
      else if LocalRef(m).value in seen then true
      else if Opens(root, seen, m) then
        var pointer := LocalRef(m).value;
        var target, open := Lookup(root, pointer).value, seen + {pointer};
        OwnRef(m);
        LookupRefs(root, pointer);
        UnseenTarget(root, seen, v, pointer, target);
        UnseenTarget(root, seen, v, pointer, v);
        if |m| == 1 then Tight(root, open, target, dropped)
        else if End(root, open, target).Obj? then
          Tight(root, open, target, dropped + (m.Keys - {REF})) && TightFields(root, open, v, dropped + {REF})
        else TightFields(root, seen, v, dropped)
      else TightFields(root, seen, v, dropped)
    case Arr(items) =>
      forall i :: 0 <= i < |items| ==>
        (ItemRefs(items, i); UnseenPart(root, seen, v, items[i]); Tight(root, seen, items[i], {}))
    case _ => true
  }

  ghost predicate TightFields(root: Json, seen: set<string>, v: Json, dropped: set<string>)
    requires v.Obj?
    decreases Unseen(root, seen, v), v, 0
  {
    forall k :: k in v.fields && k !in dropped ==>
      (FieldRefs(v.fields, k); UnseenPart(root, seen, v, v.fields[k]); Tight(root, seen, v.fields[k], {}))
  }

  // ------------------------------------------------------------------ the theorem

  /** With some keys laid over: what is left is settled if and only if the value is tight. */
  lemma {:induction false} TightExactly(root: Json, seen: set<string>, v: Json, dropped: set<string>)
    requires REF !in dropped
    ensures SettledBut(root, Expand(root, seen, v), dropped) <==> Tight(root, seen, v, dropped)
    decreases Unseen(root, seen, v), v, 2
  {
    hide Lookup, RefPointers, LocalRef, Unseen, MayStayAmong, Settled;
    match v
    case Obj(m) =>
      if LocalRef(m).Some? && LocalRef(m).value in seen {
        MarkerSettled(root, m, dropped);
      } else if Opens(root, seen, m) {
        OpenedExactly(root, seen, v, dropped);
      } else {
        KeptExactly(root, seen, v, dropped);
      }
    case Arr(items) =>
      forall i | 0 <= i < |items| ensures Settled(root, Expand(root, seen, items[i])) <==> Tight(root, seen, items[i], {}) {
        ItemRefs(items, i);
        UnseenPart(root, seen, v, items[i]);
        TightExactly(root, seen, items[i], {});
        NothingDropped(root, Expand(root, seen, items[i]));
      }
      ListSettled(root, seen, v);
    case _ =>
      LeafSettled(root, v, dropped);
  }

  lemma NothingDropped(root: Json, r: Json)
    ensures SettledBut(root, r, {}) <==> Settled(root, r)
  {
    hide LocalRef, MayStayAmong;
    if r.Obj? {
      assert r.fields.Keys + {} == r.fields.Keys && |r.fields.Keys| == |r.fields|;
    }
  }

  lemma LeafSettled(root: Json, r: Json, dropped: set<string>)
    requires !r.Obj? && !r.Arr?
    ensures SettledBut(root, r, dropped)
  {
  }

  lemma ListSettled(root: Json, seen: set<string>, v: Json)
    requires v.Arr?
    ensures Expand(root, seen, v).Arr?
    ensures Settled(root, Expand(root, seen, v)) <==> forall i :: 0 <= i < |v.items| ==> Settled(root, Expand(root, seen, v.items[i]))
  {
    hide LocalRef, MayStayAmong, Unseen, RefPointers, Lookup;
    var out := Expand(root, seen, v).items;
    assert |out| == |v.items| && forall i :: 0 <= i < |out| ==> out[i] == Expand(root, seen, v.items[i]);
    assert Settled(root, Arr(out)) <==> forall i :: 0 <= i < |out| ==> Settled(root, out[i]);
  }

  lemma MarkerSettled(root: Json, m: Fields, dropped: set<string>)
    requires LocalRef(m).Some?
    ensures SettledBut(root, Marker(m), dropped)
  {
    assert Marker(m).fields.Keys == {MARK};
    assert REF != MARK;
    assert LocalRef(Marker(m).fields).None?;
  }

  /** The fields of an object, each on its own. */
  lemma {:induction false} FieldsExactly(root: Json, seen: set<string>, v: Json, dropped: set<string>)
    requires v.Obj?
    ensures TightFields(root, seen, v, dropped) <==> FieldsSettled(root, ExpandFields(root, seen, v).fields, dropped)
    decreases Unseen(root, seen, v), v, 0
  {
    hide Lookup, RefPointers, Unseen, LocalRef, MayStayAmong, Settled, Tight;
    var out := ExpandFields(root, seen, v).fields;
    forall k | k in v.fields ensures Settled(root, out[k]) <==> Tight(root, seen, v.fields[k], {}) {
      FieldRefs(v.fields, k);
      UnseenPart(root, seen, v, v.fields[k]);
      TightExactly(root, seen, v.fields[k], {});
      NothingDropped(root, Expand(root, seen, v.fields[k]));
    }
  }

  /** The local reference of an object whose fields were expanded: its own, or one made. */
  lemma KeptRef(root: Json, seen: set<string>, v: Json)
    requires v.Obj?
    ensures LocalRef(ExpandFields(root, seen, v).fields) ==
            if LocalRef(v.fields).Some? then LocalRef(v.fields) else MadeRef(root, seen, v.fields)
  {
    hide Lookup, RefPointers, Unseen, ReferenceToPointer, End;
    if REF in v.fields {
      EndDecides(root, seen, v.fields[REF]);
      var made := Expand(root, seen, v.fields[REF]);
      assert ExpandFields(root, seen, v).fields[REF] == made;
      assert made.Str? ==> made == Str(made.s);
      assert End(root, seen, v.fields[REF]).Str? ==> End(root, seen, v.fields[REF]) == Str(End(root, seen, v.fields[REF]).s);
    }
  }

  /** An object that is kept with all its fields. */
  lemma {:induction false} KeptExactly(root: Json, seen: set<string>, v: Json, dropped: set<string>)
    requires v.Obj? && !Opens(root, seen, v.fields) && !(LocalRef(v.fields).Some? && LocalRef(v.fields).value in seen)
    ensures SettledBut(root, Expand(root, seen, v), dropped) <==> Tight(root, seen, v, dropped)
    decreases Unseen(root, seen, v), v, 1
  {
    hide RefPointers, LocalRef, Unseen, Settled, EndsOutside, MadeRef, Lookup, FieldsSettled, TightFields;
    var out := ExpandFields(root, seen, v).fields;
    KeptRef(root, seen, v);
    FieldsExactly(root, seen, v, dropped);
    assert Expand(root, seen, v) == Json.Obj(out) && out.Keys == v.fields.Keys;
  }

  /** A reference that is followed. */
  lemma {:induction false} OpenedExactly(root: Json, seen: set<string>, v: Json, dropped: set<string>)
    requires v.Obj? && Opens(root, seen, v.fields) && REF !in dropped
    ensures SettledBut(root, Expand(root, seen, v), dropped) <==> Tight(root, seen, v, dropped)
    decreases Unseen(root, seen, v), v, 1
  {
    hide Lookup, RefPointers, LocalRef, Unseen, MayStayAmong, Settled, SettledBut, FieldsSettled, End;
    var m, pointer := v.fields, LocalRef(v.fields).value;
    var target, open := Lookup(root, pointer).value, seen + {pointer};
    OwnRef(m);
    LookupRefs(root, pointer);
    UnseenTarget(root, seen, v, pointer, target);
    UnseenTarget(root, seen, v, pointer, v);
    EndDecides(root, open, target);
    if |m| == 1 {
      TightExactly(root, open, target, dropped);
    } else if Expand(root, open, target).Obj? {
      TightExactly(root, open, target, dropped + (m.Keys - {REF}));
      FieldsExactly(root, open, v, dropped + {REF});
      OverlayExactly(root, Expand(root, open, target).fields, ExpandFields(root, open, v).fields, dropped);
    } else {
      FieldsExactly(root, seen, v, dropped);
      SiblingsStay(root, seen, v, dropped);
    }
  }

  /** Fields laid over an object: it keeps its reference, among more keys. */
  lemma OverlayExactly(root: Json, base: Fields, over: Fields, dropped: set<string>)
    requires REF !in dropped
    ensures SettledBut(root, Json.Obj(base + (over - {REF})), dropped) <==>
            SettledBut(root, Json.Obj(base), dropped + (over.Keys - {REF})) && FieldsSettled(root, over, dropped + {REF})
  {
    hide LocalRef, MayStayAmong, Settled, FieldsSettled;
    var out := base + (over - {REF});
    SameRef(base, over);
    OverlayFields(root, base, over, dropped);
    OverlayKeys(base, over, dropped);
  }

  lemma OverlayKeys(base: Fields, over: Fields, dropped: set<string>)
    ensures (base + (over - {REF})).Keys + dropped == base.Keys + (dropped + (over.Keys - {REF}))
  {
  }

  lemma OverlayFields(root: Json, base: Fields, over: Fields, dropped: set<string>)
    requires REF !in dropped
    ensures FieldsSettled(root, base + (over - {REF}), dropped) <==>
            FieldsSettled(root, base, dropped + (over.Keys - {REF})) && FieldsSettled(root, over, dropped + {REF})
  {
    hide Settled;
    var out := base + (over - {REF});
    assert forall k :: k in over && k != REF ==> k in out && out[k] == over[k];
    assert forall k :: k in base && k !in over.Keys - {REF} ==> k in out && out[k] == base[k];
  }

  lemma SameRef(base: Fields, over: Fields)
    ensures LocalRef(base + (over - {REF})) == LocalRef(base)
  {
    assert Field(base + (over - {REF}), REF) == Field(base, REF);
  }

  /** A reference with siblings whose target is no object to lay them over stays, and may. */
  lemma SiblingsStay(root: Json, seen: set<string>, v: Json, dropped: set<string>)
    requires v.Obj? && Opens(root, seen, v.fields) && |v.fields| != 1
    requires !Expand(root, seen + {LocalRef(v.fields).value}, Lookup(root, LocalRef(v.fields).value).value).Obj?
    ensures SettledBut(root, ExpandFields(root, seen, v), dropped) <==>
            FieldsSettled(root, ExpandFields(root, seen, v).fields, dropped)
  {
    hide Lookup, RefPointers, Unseen, EndsOutside, Settled, MadeRef, LocalRef, Expand;
    var m, pointer := v.fields, LocalRef(v.fields).value;
    NonObjectEnds(root, seen + {pointer}, Lookup(root, pointer).value);
    KeptRef(root, seen, v);
    HasSibling(m);
    SubsetSize(m.Keys, m.Keys + dropped);
    assert |m| == |m.Keys| && ExpandFields(root, seen, v).fields.Keys == m.Keys;
  }

  lemma HasSibling(m: Fields)
    requires LocalRef(m).Some? && |m| != 1
    ensures |m| > 1
  {
    assert REF in m.Keys && |m| == |m.Keys|;
  }

  /** Expansion leaves no other local reference than those that may stay, if and only if the
      value is tight: for every document and every value. */
  lemma SettledExactly(root: Json, v: Json)
    ensures Settled(root, Expand(root, {}, v)) <==> Tight(root, {}, v, {})
  {
    hide Settled, Expand, Tight, SettledBut;
    TightExactly(root, {}, v, {});
    NothingDropped(root, Expand(root, {}, v));
  }

  // ------------------------------------------------------------ texts under `$ref`

  /** Every `$ref` key holds a text. */
  ghost predicate RefsAreText(v: Json) {
    match v
    case Obj(m) => (REF in m ==> m[REF].Str?) && forall k :: k in m ==> RefsAreText(m[k])
    case Arr(items) => forall i :: 0 <= i < |items| ==> RefsAreText(items[i])
    case _ => true
  }

  lemma {:induction false} DescendText(node: Json, parts: seq<string>)
    requires RefsAreText(node) && Descend(node, parts).Some?
    ensures RefsAreText(Descend(node, parts).value)
  {
    if parts != [] {
      DescendText(Child(node, DecodeToken(parts[0])).value, parts[1..]);
    }
  }

  lemma LookupText(root: Json, pointer: string)
    requires RefsAreText(root) && Lookup(root, pointer).Some?
    ensures RefsAreText(Lookup(root, pointer).value)
  {
    if pointer != "" {
      DescendText(root, Split(TrimPrefix(pointer, "/"), '/'));
    }
  }

  /** With texts under every `$ref`, every value is tight. */
  lemma {:induction false} TextIsTight(root: Json, seen: set<string>, v: Json, dropped: set<string>)
    requires RefsAreText(root) && RefsAreText(v)
    ensures Tight(root, seen, v, dropped)
    decreases Unseen(root, seen, v), v, 1
  {
    hide Lookup, RefPointers, LocalRef, Unseen, MayStayAmong;
    match v
    case Obj(m) =>
      if LocalRef(m).None? {
        NothingMade(root, seen, m);
      }
      if Opens(root, seen, m) {
        var pointer := LocalRef(m).value;
        var target, open := Lookup(root, pointer).value, seen + {pointer};
        OwnRef(m);
        LookupRefs(root, pointer);
        LookupText(root, pointer);
        UnseenTarget(root, seen, v, pointer, target);
        UnseenTarget(root, seen, v, pointer, v);
        TextIsTight(root, open, target, dropped);
        TextIsTight(root, open, target, dropped + (m.Keys - {REF}));
        TextFields(root, open, v, dropped + {REF});
      }
      TextFields(root, seen, v, dropped);
    case Arr(items) =>
      forall i | 0 <= i < |items| ensures Tight(root, seen, items[i], {}) {
        ItemRefs(items, i);
        UnseenPart(root, seen, v, items[i]);
        TextIsTight(root, seen, items[i], {});
      }
    case _ =>
  }

  lemma {:induction false} TextFields(root: Json, seen: set<string>, v: Json, dropped: set<string>)
    requires RefsAreText(root) && RefsAreText(v) && v.Obj?
    ensures TightFields(root, seen, v, dropped)
    decreases Unseen(root, seen, v), v, 0
  {
    hide Lookup, RefPointers, LocalRef, Unseen, Tight;
    forall k | k in v.fields && k !in dropped ensures Tight(root, seen, v.fields[k], {}) {
      FieldRefs(v.fields, k);
      UnseenPart(root, seen, v, v.fields[k]);
      TextIsTight(root, seen, v.fields[k], {});
    }
  }

  /** A text under `$ref` that is no local reference makes none. */
  lemma NothingMade(root: Json, seen: set<string>, m: Fields)
    requires RefsAreText(Json.Obj(m)) && LocalRef(m).None?
    ensures MadeRef(root, seen, m).None?
  {
    hide ReferenceToPointer, Unseen, Lookup;
  }

  /** So expansion settles every value of a document with texts under every `$ref`. */
  lemma ExpandSettled(root: Json, v: Json)
    requires RefsAreText(root) && RefsAreText(v)
    ensures Settled(root, Expand(root, {}, v))
  {
    hide Settled, Expand, Tight, RefsAreText;
    TextIsTight(root, {}, v, {});
    SettledExactly(root, v);
  }
}
